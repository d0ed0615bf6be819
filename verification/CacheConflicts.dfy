/** Which expiries leave a stale entry behind when their threads overlap: exactly those that conflict. */
module CacheConflicts {

  import opened CacheCoherence
  import opened Ordering
  import TaggedCache

  ghost predicate HoldsNothingStale(p: Process)
  {
    forall key, x :: x in Requests(p) ==> !Stale(p, key, x)
  }

  /**
   How one step changes one process: it starts, is hooked, takes a step of its own, is sent an
   expiry, or stays as it is.
   */
  lemma HowItChanges(s: State, step: Step, who: Who)
    requires Inv(s) && Enabled(s, step) && Exists(After(s, step), who)
    ensures var p' := The(After(s, step), who);
      if !Exists(s, who) then p' == Forked(s.parent)
      else
        var p := The(s, who);
        || p' == p
        || p' == p.(hooked := true)
        || (exists y :: p' == Told(p, y) && y.time == s.now)
        || (step.In? && step.who == who && CanAct(p, step.act) && p' == Acted(s.now, p, step.act))
  {
    hide ProcessInv, Acted, CanAct;
    if step.In? {
      var act := step.act;
      ActKeepsRest(The(s, step.who), act, s.now);
      if s.running && step.who.Parent? && who.Kid? && Ends(act) {
        assert The(After(s, step), who) == Told(The(s, who), Expiry(s.now, act.x.shape));
      }
    }
  }

  // ---------- threads that delete one at a time ----------

  /** In every process, an expiry thread lists its keys only when no other one is deleting. */
  ghost predicate OneAtATime(run: seq<State>)
  {
    forall i, who, x, keys | 0 <= i < |run| - 1 && Exists(run[i], who) && CanAct(The(run[i], who), List(x, keys)) ::
      run[i + 1] == After(run[i], In(who, List(x, keys))) ==> The(run[i], who).deleting == map[]
  }

  /** The keys on the list of a thread are all in the cache. */
  ghost predicate Intact(p: Process, x: Expiry)
    requires x in p.deleting
  {
    Distinct(p.deleting[x]) && forall key :: key in p.deleting[x] ==> key in p.cache
  }

  /** At most one thread deletes, nothing disturbs it, and none has died. */
  ghost predicate Undisturbed(p: Process)
  {
    && p.crashed == {}
    && (forall x, y :: x in p.deleting && y in p.deleting ==> x == y)
    && (forall x :: x in p.deleting ==> Intact(p, x))
  }

  lemma ActStaysUndisturbed(now: nat, p: Process, act: Act)
    requires Undisturbed(p) && CanAct(p, act) && (act.List? ==> p.deleting == map[])
    ensures Undisturbed(Acted(now, p, act))
  {
    if act.DeleteNext? {
      var keys := p.deleting[act.x];
      assert keys == [keys[0]] + keys[1..];
      assert Intact(p, act.x) && keys[0] in keys;
    }
    var p' := Acted(now, p, act);
    forall x | x in p'.deleting ensures Intact(p', x) {
      assert x in p.deleting ==> Intact(p, x);
    }
  }

  lemma OthersStayUndisturbed(p: Process, y: Expiry)
    requires Undisturbed(p)
    ensures Undisturbed(p.(hooked := true)) && Undisturbed(Told(p, y))
  {
    assert forall x :: x in p.deleting ==> Intact(p, x);
  }

  lemma {:induction false} OneAtATimeNeverCrashes(run: seq<State>, i: nat, who: Who)
    requires IsRun(run) && OneAtATime(run) && i < |run| && Exists(run[i], who)
    ensures Undisturbed(The(run[i], who))
  {
    if i > 0 {
      var step := StepTo(run, i);
      var s := run[i - 1];
      EveryStateKeepsInv(run, i - 1);
      HowItChanges(s, step, who);
      hide Inv, Acted, After, IsRun;
      if Exists(s, who) {
        OneAtATimeNeverCrashes(run, i - 1, who);
        StepStaysUndisturbed(run, i, step, who);
      }
    }
  }

  lemma StepStaysUndisturbed(run: seq<State>, i: nat, step: Step, who: Who)
    requires OneAtATime(run) && 0 < i < |run| && Enabled(run[i - 1], step) && run[i] == After(run[i - 1], step)
    requires Exists(run[i - 1], who) && Exists(run[i], who) && Undisturbed(The(run[i - 1], who))
    requires var s := run[i - 1]; var p, p' := The(s, who), The(run[i], who);
      || p' == p
      || p' == p.(hooked := true)
      || (exists y :: p' == Told(p, y) && y.time == s.now)
      || (step.In? && step.who == who && CanAct(p, step.act) && p' == Acted(s.now, p, step.act))
    ensures Undisturbed(The(run[i], who))
  {
    hide Undisturbed, Acted, After, CanAct, Enabled, The;
    var s := run[i - 1];
    var p, p' := The(s, who), The(run[i], who);
    OthersStayUndisturbed(p, Expiry(0, Shape({}, false)));
    if step.In? && step.who == who && CanAct(p, step.act) && p' == Acted(s.now, p, step.act) {
      assert step.act.List? ==> CanAct(The(run[i - 1], who), List(step.act.x, step.act.keys));
      ActStaysUndisturbed(s.now, p, step.act);
    } else if y :| p' == Told(p, y) {
      OthersStayUndisturbed(p, y);
    }
  }

  /**
   If expiry threads delete one at a time, whoever started them, a process that has dealt with
   everything holds nothing stale.
   */
  lemma OneAtATimeDrainsFresh(run: seq<State>, i: nat, who: Who)
    requires IsRun(run) && OneAtATime(run) && i < |run| && Exists(run[i], who) && Drained(The(run[i], who))
    ensures HoldsNothingStale(The(run[i], who))
  {
    OneAtATimeNeverCrashes(run, i, who);
    forall key, x | x in Requests(The(run[i], who)) ensures !Stale(The(run[i], who), key, x) {
      if Stale(The(run[i], who), key, x) { DrainedIsFreshOrCrashed(run, i, who, key, x); }
    }
  }

  // ---------- expiries that conflict ----------

  /** An expiry like `a` can die of one like `b`, and leave an entry: both delete some key, and `a` also others. */
  predicate Conflicts(a: Shape, b: Shape)
  {
    !a.exact && a.tags != {} && b.tags != {} && (b.exact ==> a.tags <= b.tags)
  }

  /** Two of these expiries conflict. */
  ghost predicate Clash(w: multiset<Shape>)
  {
    exists a, b | Conflicts(a, b) :: multiset{a, b} <= w
  }

  /**
   Whatever runs, a process that was asked for no more than these expiries holds nothing stale
   once it has dealt with them.
   */
  ghost predicate AlwaysFresh(w: multiset<Shape>)
  {
    forall run, i, who | IsRun(run) && 0 <= i < |run| && Exists(run[i], who) && The(run[i], who).asked <= w ::
      Drained(The(run[i], who)) ==> HoldsNothingStale(The(run[i], who))
  }

  ghost predicate Clean(p: Process, x: Expiry)
  {
    forall key :: !Stale(p, key, x)
  }

  /** The arguments of all requests are counted, those of any two of them together. */
  ghost predicate Counted(p: Process)
  {
    && (forall x :: x in Requests(p) ==> x.shape in p.asked)
    && (forall x, y :: x in Requests(p) && y in Requests(p) && x != y ==> multiset{x.shape, y.shape} <= p.asked)
  }

  /** Lists hold keys that match, and an expiry without tags makes none. */
  ghost predicate Listed(p: Process)
  {
    forall x :: x in p.deleting ==> x.shape.tags != {} && forall key :: key in p.deleting[x] ==> Matches(x, key)
  }

  /**
   No expiry that died left anything, and the list of each that is deleting is as it was, or
   does not matter any more.
   */
  ghost predicate Spared(p: Process)
  {
    && (forall x :: x in p.crashed ==> Clean(p, x))
    && (forall x :: x in p.deleting ==> Clean(p, x) || Intact(p, x))
  }

  ghost predicate Orderly(p: Process)
  {
    Counted(p) && Listed(p) && (!Clash(p.asked) ==> Spared(p))
  }

  lemma CountedOneMore(p: Process, p': Process, y: Expiry)
    requires Counted(p) && p'.asked == p.asked + multiset{y.shape} && Requests(p') == Requests(p) + {y}
    ensures Counted(p')
  {
    hide Requests;
    forall x, z | x in Requests(p') && z in Requests(p') && x != z ensures multiset{x.shape, z.shape} <= p'.asked {
      if x == y {
        OneWithAnother(p.asked, z.shape, y.shape);
      } else if z == y {
        OneWithAnother(p.asked, x.shape, y.shape);
      } else {
        StillCounted(p.asked, y.shape, multiset{x.shape, z.shape});
      }
    }
  }

  lemma OneWithAnother(w: multiset<Shape>, a: Shape, b: Shape)
    requires a in w
    ensures multiset{a, b} <= w + multiset{b} && multiset{b, a} <= w + multiset{b}
  {
  }

  lemma StillCounted(w: multiset<Shape>, b: Shape, pair: multiset<Shape>)
    requires pair <= w
    ensures pair <= w + multiset{b}
  {
  }

  lemma CleanInFewer(p: Process, p': Process, x: Expiry)
    requires forall key :: key in p'.cache ==>
      (key in p.cache && p'.cache[key] == p.cache[key]) || x.time <= p'.cache[key]
    ensures Clean(p, x) ==> Clean(p', x)
  {
    hide Matches;
    assert forall key :: Stale(p', key, x) ==> Stale(p, key, x);
  }

  /** Steps that neither insert nor delete spare what was spared. */
  lemma StaysSpared(p: Process, p': Process)
    requires Spared(p) && p'.cache == p.cache && p'.crashed == p.crashed
    requires forall x :: x in p'.deleting ==> x in p.deleting && p'.deleting[x] == p.deleting[x]
    ensures Spared(p')
  {
    hide Clean, Distinct;
    forall x | x in p'.deleting ensures Clean(p', x) || Intact(p', x) {
      CleanInFewer(p, p', x);
      assert Intact(p, x) ==> Intact(p', x);
    }
    forall x | x in p'.crashed ensures Clean(p', x) { CleanInFewer(p, p', x); }
  }

  lemma ActKeepsCount(now: nat, p: Process, act: Act)
    requires Counted(p) && CanAct(p, act)
    ensures Counted(Acted(now, p, act))
  {
    var p' := Acted(now, p, act);
    if act.Expire? {
      hide Counted;
      CountedOneMore(p, p', Expiry(now, act.shape));
    } else {
      assert p'.own == p.own && p'.told == p.told && p'.asked == p.asked;
    }
  }

  lemma ActKeepsListed(now: nat, p: Process, act: Act)
    requires Listed(p) && CanAct(p, act)
    ensures Listed(Acted(now, p, act))
  {
    hide Matches;
  }

  /** Without a conflict, another thread's deletion spoils a list only if nothing on it matters any more. */
  lemma DeletionSpares(p: Process, p': Process, y: Expiry, key: Key, x: Expiry)
    requires p'.cache == p.cache - {key} && x in p.deleting && x in p'.deleting && p'.deleting[x] == p.deleting[x]
    requires x != y && multiset{x.shape, y.shape} <= p.asked && !Clash(p.asked)
    requires x.shape.tags != {} && y.shape.tags != {} && Matches(y, key)
    requires forall k :: k in p.deleting[x] ==> Matches(x, k)
    requires Clean(p, x) || Intact(p, x)
    ensures Clean(p', x) || Intact(p', x)
  {
    if Clean(p, x) {
      assert forall k :: Stale(p', k, x) ==> Stale(p, k, x);
    } else if key in p.deleting[x] {
      assert !Conflicts(x.shape, y.shape);
      assert x.shape.exact && key == x.shape.tags;
      assert Clean(p', x);
    }
  }

  lemma ActKeepsSpared(now: nat, p: Process, act: Act)
    requires ProcessInv(p, now) && Counted(p) && Listed(p) && Spared(p) && !Clash(p.asked) && CanAct(p, act)
    ensures Spared(Acted(now, p, act))
  {
    hide Clash, ProcessInv, Counted, Listed, Spared, Matches;
    match act
    case DeleteNext(y) => DeleteKeepsSpared(now, p, y);
    case Insert(key) => InsertKeepsSpared(now, p, key);
    case List(x, keys) => ListKeepsSpared(now, p, x, keys);
    case _ => StaysSpared(p, Acted(now, p, act));
  }

  /** What is inserted now is not stale for anything asked before. */
  lemma InsertKeepsSpared(now: nat, p: Process, key: Key)
    requires ProcessInv(p, now) && Spared(p)
    ensures Spared(p.(cache := p.cache[key := now]))
  {
    hide Clean, Coherent, Distinct;
    var p' := p.(cache := p.cache[key := now]);
    forall x | x in p.crashed || x in p.deleting ensures Clean(p, x) ==> Clean(p', x) {
      assert Places(p, x) == One(x in Requests(p));
      CleanInFewer(p, p', x);
    }
    assert forall z | z in p.deleting :: Intact(p, z) ==> Intact(p', z);
  }

  /** A list that was just made is as it was, and clearing the cache leaves nothing stale. */
  lemma ListKeepsSpared(now: nat, p: Process, x: Expiry, keys: seq<Key>)
    requires ProcessInv(p, now) && Spared(p) && CanAct(p, List(x, keys))
    ensures Spared(Acted(now, p, List(x, keys)))
  {
    hide Clean, Coherent, Conserved, Distinct;
    var p' := Acted(now, p, List(x, keys));
    forall z | z in p'.crashed ensures Clean(p', z) { CleanInFewer(p, p', z); }
    forall z | z in p'.deleting ensures Clean(p', z) || Intact(p', z) {
      CleanInFewer(p, p', z);
      if x.shape.tags == {} { EmptyIsClean(p', z); }
    }
  }

  lemma EmptyIsClean(p: Process, x: Expiry)
    requires p.cache == map[]
    ensures Clean(p, x)
  {
  }

  lemma DeleteKeepsSpared(now: nat, p: Process, y: Expiry)
    requires ProcessInv(p, now) && Counted(p) && Listed(p) && Spared(p) && !Clash(p.asked) && CanAct(p, DeleteNext(y))
    ensures Spared(Acted(now, p, DeleteNext(y)))
  {
    hide Clash, Coherent, Timely, Matches, Counted, Conserved, Clean, Intact;
    var p' := Acted(now, p, DeleteNext(y));
    var key := p.deleting[y][0];
    OwnDeletion(now, p, y);
    forall x | x in p'.crashed ensures Clean(p', x) {
      if x in p.crashed { CleanInFewer(p, p', x); }
    }
    forall x | x in p'.deleting ensures Clean(p', x) || Intact(p', x) {
      if x == y {
        assert key in p.cache;
      } else if key in p.cache {
        BothRequested(p, x, y);
        DeletionSpares(p, p', y, key, x);
      } else {
        assert Clean(p, x) || Intact(p, x);
        SameListSameCache(p, p', x);
      }
    }
  }

  lemma SameListSameCache(p: Process, p': Process, x: Expiry)
    requires x in p.deleting && x in p'.deleting && p'.deleting[x] == p.deleting[x] && p'.cache == p.cache
    ensures Clean(p', x) == Clean(p, x) && Intact(p', x) == Intact(p, x)
  {
    CleanInFewer(p, p', x);
    CleanInFewer(p', p, x);
  }

  /** The thread that deletes goes on with an intact list, and if it dies, nothing of its own was left. */
  lemma OwnDeletion(now: nat, p: Process, y: Expiry)
    requires CanAct(p, DeleteNext(y)) && (Clean(p, y) || Intact(p, y))
    ensures var p' := Acted(now, p, DeleteNext(y));
      if p.deleting[y][0] in p.cache then y in p'.deleting && (Clean(p', y) || Intact(p', y)) else Clean(p', y)
  {
    var keys := p.deleting[y];
    assert keys == [keys[0]] + keys[1..];
    assert keys[0] in keys;
    CleanInFewer(p, Acted(now, p, DeleteNext(y)), y);
  }

  lemma BothRequested(p: Process, x: Expiry, y: Expiry)
    requires Conserved(p) && Counted(p) && x in p.deleting && y in p.deleting && x != y
    ensures multiset{x.shape, y.shape} <= p.asked
  {
    assert Places(p, x) == One(x in Requests(p)) && Places(p, y) == One(y in Requests(p));
  }

  lemma ActStaysOrderly(now: nat, p: Process, act: Act)
    requires ProcessInv(p, now) && Orderly(p) && CanAct(p, act)
    ensures Orderly(Acted(now, p, act))
  {
    hide Clash, ProcessInv, Counted, Listed, Spared;
    ActKeepsCount(now, p, act);
    ActKeepsListed(now, p, act);
    if !Clash(p.asked) { ActKeepsSpared(now, p, act); }
    AskedGrows(now, p, act);
    FewerClash(p.asked, Acted(now, p, act).asked);
  }

  lemma AskedGrows(now: nat, p: Process, act: Act)
    requires CanAct(p, act)
    ensures p.asked <= Acted(now, p, act).asked
  {
  }

  lemma FewerClash(w: multiset<Shape>, w': multiset<Shape>)
    requires w <= w'
    ensures Clash(w) ==> Clash(w')
  {
  }

  lemma HookedStaysOrderly(p: Process)
    requires Orderly(p)
    ensures Orderly(p.(hooked := true))
  {
    hide Clash, Counted, Clean, Spared, Matches;
    var p' := p.(hooked := true);
    SameCount(p, p');
    if !Clash(p.asked) { StaysSpared(p, p'); }
  }

  lemma ToldStaysOrderly(p: Process, y: Expiry)
    requires Orderly(p)
    ensures Orderly(Told(p, y))
  {
    hide Clash, Counted, Clean, Spared, Matches;
    var p' := Told(p, y);
    FewerClash(p.asked, p'.asked);
    CountedOneMore(p, p', y);
    if !Clash(p.asked) { StaysSpared(p, p'); }
  }

  lemma SameCount(p: Process, p': Process)
    requires Counted(p) && p'.asked == p.asked && Requests(p') == Requests(p)
    ensures Counted(p')
  {
  }

  lemma {:induction false} EveryProcessIsOrderly(run: seq<State>, i: nat, who: Who)
    requires IsRun(run) && i < |run| && Exists(run[i], who)
    ensures Orderly(The(run[i], who))
  {
    if i > 0 {
      var step := StepTo(run, i);
      var s := run[i - 1];
      EveryStateKeepsInv(run, i - 1);
      HowItChanges(s, step, who);
      if Exists(s, who) {
        EveryProcessIsOrderly(run, i - 1, who);
        var p := The(s, who);
        assert ProcessInv(p, s.now);
        hide Orderly, Acted, After, Inv;
        if step.In? && step.who == who && CanAct(p, step.act) && The(run[i], who) == Acted(s.now, p, step.act) {
          ActStaysOrderly(s.now, p, step.act);
        } else {
          HookedStaysOrderly(p);
          if y :| The(run[i], who) == Told(p, y) { ToldStaysOrderly(p, y); }
        }
      }
    }
  }

  lemma WithoutConflictsAlwaysFresh(w: multiset<Shape>)
    requires !Clash(w)
    ensures AlwaysFresh(w)
  {
    forall run, i, who | IsRun(run) && 0 <= i < |run| && Exists(run[i], who) && The(run[i], who).asked <= w &&
      Drained(The(run[i], who))
      ensures HoldsNothingStale(The(run[i], who))
    {
      var p := The(run[i], who);
      EveryProcessIsOrderly(run, i, who);
      FewerClash(p.asked, w);
      forall key, x | x in Requests(p) ensures !Stale(p, key, x) {
        if Stale(p, key, x) { DrainedIsFreshOrCrashed(run, i, who, key, x); }
        assert x in p.crashed ==> Clean(p, x);
      }
    }
  }

  // ---------- what a conflict does ----------

  function Last(run: seq<State>): State
    requires run != []
  {
    run[|run| - 1]
  }

  /** The time at the end of a run. */
  function Now(run: seq<State>): nat
  {
    if run == [] then 0 else Last(run).now
  }

  /** A run with one child, whose parent has the hook and nothing in its cache. */
  ghost predicate OneChild(run: seq<State>, c: Child, p: Process)
  {
    && IsRun(run) && Last(run).kids == map[c := p] && !p.hooked
    && Last(run).running && Last(run).parent.hooked
    && Last(run).parent.cache == map[] && Last(run).parent.deleting == map[]
  }

  lemma IsNotEmpty(run: seq<State>)
    requires IsRun(run)
    ensures run != []
  {
  }

  lemma Extend(run: seq<State>, step: Step) returns (longer: seq<State>)
    requires IsRun(run) && Enabled(Last(run), step)
    ensures IsRun(longer) && longer != [] && Last(longer) == After(Last(run), step)
  {
    longer := run + [After(Last(run), step)];
    forall i | 0 < i < |longer| ensures Next(longer[i - 1], longer[i]) {
      if i < |run| { assert Next(run[i - 1], run[i]); }
    }
  }

  lemma Begin(c: Child) returns (run: seq<State>)
    ensures OneChild(run, c, Fresh(false, map[]))
  {
    run := [State(0, false, Fresh(false, map[]), map[], map[])];
    hide IsRun;
    assert IsRun(run) by { OnlyInit(run); }
    run := Extend(run, StartChild(c));
    run := Extend(run, InstallHook);
  }

  lemma OnlyInit(run: seq<State>)
    requires |run| == 1 && Init(run[0])
    ensures IsRun(run)
  {
  }

  /** The child takes a step. */
  lemma InChild(run: seq<State>, c: Child, p: Process, act: Act) returns (longer: seq<State>)
    requires OneChild(run, c, p) && CanAct(p, act)
    ensures OneChild(longer, c, Acted(Now(run), p, act)) && Now(longer) == Now(run) + 1
  {
    hide Acted, CanAct;
    IsNotEmpty(run);
    hide IsRun;
    ActKeepsRest(p, act, Last(run).now);
    longer := Extend(run, In(Kid(c), act));
    assert map[c := p][c := Acted(Last(run).now, p, act)] == map[c := Acted(Last(run).now, p, act)];
  }

  /** The parent takes a step that is not the end of an expiry. */
  lemma InParent(run: seq<State>, c: Child, p: Process, act: Act) returns (longer: seq<State>)
    requires IsRun(run) && Last(run).kids == map[c := p] && CanAct(Last(run).parent, act) && !Ends(act)
    ensures IsRun(longer) && longer != []
    ensures Last(longer) == Last(run).(now := Last(run).now + 1, parent := Acted(Last(run).now, Last(run).parent, act))
  {
    hide IsRun, Acted, CanAct;
    longer := Extend(run, In(Parent, act));
  }

  /** The parent carries out an expiry that finds nothing to delete, and publishes it. */
  lemma Publish(run: seq<State>, c: Child, p: Process, a: Shape) returns (longer: seq<State>, x: Expiry)
    requires OneChild(run, c, p) && a.tags != {}
    ensures OneChild(longer, c, Told(p, x)) && Now(run) <= x.time < Now(longer) && x.shape == a
  {
    IsNotEmpty(run);
    hide IsRun, Matches, Published;
    var z, q := Expiry(Now(run), a), Last(run).parent;
    longer := InParent(run, c, p, Expire(a));
    q := q.(own := q.own + {z}, started := q.started + {z}, asked := q.asked + multiset{a});
    longer := InParent(longer, c, p, List(z, []));
    q := q.(started := q.started - {z}, deleting := map[z := []]);
    x := Expiry(Now(run) + 2, a);
    longer := PublishAtTheEnd(longer, c, p, z, x);
  }

  lemma PublishAtTheEnd(run: seq<State>, c: Child, p: Process, z: Expiry, x: Expiry) returns (longer: seq<State>)
    requires IsRun(run) && run != [] && Last(run).kids == map[c := p] && !p.hooked && Last(run).running
    requires Last(run).parent.hooked && Last(run).parent.cache == map[] && Last(run).parent.deleting == map[z := []]
    requires x == Expiry(Now(run), z.shape)
    ensures OneChild(longer, c, Told(p, x)) && Now(longer) == Now(run) + 1
  {
    hide IsRun, Matches;
    longer := Extend(run, In(Parent, Finish(z)));
    assert Last(longer).kids == map[c := Told(p, x)];
  }

  /** What a child is like that is busy with nothing but some deletions. */
  function Busy(cache: map<Key, nat>, told: set<Expiry>, started: set<Expiry>, deleting: map<Expiry, seq<Key>>,
                finished: set<Expiry>, crashed: set<Expiry>, asked: multiset<Shape>): Process
  {
    Process(false, cache, {}, told, {}, {}, started, deleting, finished, crashed, asked)
  }

  /** An expiry in the parent reaches the child, whose thread for it lists the keys. */
  lemma Broadcast(run: seq<State>, c: Child, cache: map<Key, nat>, told: set<Expiry>, deleting: map<Expiry, seq<Key>>,
                  asked: multiset<Shape>, a: Shape, keys: seq<Key>) returns (longer: seq<State>, x: Expiry)
    requires OneChild(run, c, Busy(cache, told, {}, deleting, {}, {}, asked)) && a.tags != {}
    requires Lists(cache, Expiry(0, a), keys)
    ensures x.shape == a && Now(run) <= x.time < Now(longer)
    ensures OneChild(longer, c, Busy(cache, told + {x}, {}, deleting[x := keys], {}, {}, asked + multiset{a}))
  {
    hide OneChild, Lists;
    var p := Busy(cache, told, {}, deleting, {}, {}, asked);
    longer, x := Publish(run, c, p, a);
    assert Lists(cache, x, keys) by { SameKeys(cache, Expiry(0, a), x, keys); }
    var q := Busy(cache, told + {x}, {}, deleting, {}, {}, asked + multiset{a});
    assert Told(p, x) == q.(publishing := {x});
    longer := InChild(longer, c, q.(publishing := {x}), Deliver(x));
    assert {x} - {x} == {} && {} + {x} == {x};
    longer := InChild(longer, c, q.(queued := {x}), Read(x));
    longer := InChild(longer, c, q.(started := {x}), List(x, keys));
    assert q.(started := {x}, deleting := deleting[x := keys]).(started := {x} - {x}) ==
      Busy(cache, told + {x}, {}, deleting[x := keys], {}, {}, asked + multiset{a});
  }

  lemma SameKeys(cache: map<Key, nat>, x: Expiry, y: Expiry, keys: seq<Key>)
    requires x.shape == y.shape
    ensures Lists(cache, x, keys) == Lists(cache, y, keys)
  {
    assert forall key :: Matches(x, key) == Matches(y, key);
  }

  lemma FreshTag(tags: set<Tag>) returns (f: Tag)
    ensures f !in tags
  {
    var n := LongerThanAll(tags);
    f := seq(n, _ => 'x');
  }

  lemma LongerThanAll(tags: set<Tag>) returns (n: nat)
    ensures forall t :: t in tags ==> |t| < n
  {
    n := 0;
    var rest := tags;
    while rest != {}
      invariant rest <= tags && forall t :: t in tags - rest ==> |t| < n
      decreases rest
    {
      var t :| t in rest;
      rest, n := rest - {t}, if |t| < n then n else |t| + 1;
    }
  }

  /**
   Any two expiries that conflict can leave a stale entry. The threads for both have
   listed their keys; the one like `b` deletes a key that both match, the one like `a`
   then fails on it and dies, and another key on its list stays in the cache.
   */
  lemma ConflictLeavesAStaleEntry(c: Child, a: Shape, b: Shape) returns (run: seq<State>, key: Key, x: Expiry)
    requires Conflicts(a, b)
    ensures IsRun(run) && c in Last(run).kids
    ensures var p := Last(run).kids[c];
      Drained(p) && p.asked == multiset{a, b} && p.own == {} && x in p.told && Stale(p, key, x)
  {
    hide OneChild;
    var f := FreshTag(a.tags + b.tags);
    var shared: Key := if b.exact then b.tags else a.tags + b.tags;
    key := a.tags + {f};
    assert f in key && f !in shared;
    run := Begin(c);
    var t := Now(run);
    var none: map<Expiry, seq<Key>> := map[];
    var one: map<Key, nat> := map[shared := t];
    var listed: map<Expiry, seq<Key>>;
    var y;
    run := InChild(run, c, Fresh(false, map[]), Insert(shared));
    assert Fresh(false, map[]).(cache := map[][shared := t]) == Busy(one, {}, {}, none, {}, {}, multiset{});
    run, y := Broadcast(run, c, one, {}, none, multiset{}, b, [shared]);
    listed := none[y := [shared]];
    var u := Now(run);
    run := InChild(run, c, Busy(one, {} + {y}, {}, listed, {}, {}, multiset{} + multiset{b}), Insert(key));
    run, x := Broadcast(run, c, one[key := u], {} + {y}, listed, multiset{} + multiset{b}, a, [shared, key]);
    var p := Busy(map[shared := t, key := u], {y, x}, {}, map[y := [shared], x := [shared, key]], {}, {},
      multiset{b, a});
    assert {} + {y} + {x} == {y, x} && multiset{} + multiset{b} + multiset{a} == multiset{b, a};
    assert one[key := u] == p.cache && listed[x := [shared, key]] == p.deleting;
    run := TheVictimDies(run, c, x, y, shared, key, t, u);
    InTheEndOf(run, c, Busy(map[key := u], {y, x}, {}, map[], {y}, {x}, multiset{b, a}));
  }

  lemma InTheEndOf(run: seq<State>, c: Child, p: Process)
    requires OneChild(run, c, p)
    ensures IsRun(run) && run != [] && Last(run).kids == map[c := p]
  {
  }

  /** Both have listed; the one deletes, the other dies. */
  lemma TheVictimDies(run: seq<State>, c: Child, x: Expiry, y: Expiry, shared: Key, key: Key, t: nat, u: nat)
    returns (longer: seq<State>)
    requires x.time > y.time && shared != key
    requires OneChild(run, c,
      Busy(map[shared := t, key := u], {y, x}, {}, map[y := [shared], x := [shared, key]], {}, {},
                                   multiset{y.shape, x.shape}))
    ensures OneChild(longer, c, Busy(map[key := u], {y, x}, {}, map[], {y}, {x}, multiset{y.shape, x.shape}))
  {
    hide OneChild;
    var asked := multiset{y.shape, x.shape};
    var cache: map<Key, nat> := map[shared := t, key := u];
    var left: map<Key, nat> := map[key := u];
    var lists: map<Expiry, seq<Key>> := map[y := [shared], x := [shared, key]];
    var done: map<Expiry, seq<Key>> := map[y := [], x := [shared, key]];
    var last: map<Expiry, seq<Key>> := map[x := [shared, key]];
    assert cache - {shared} == left && lists[y := []] == done && done - {y} == last && last - {x} == map[];
    assert lists[y][1..] == [] && {} + {y} == {y} && {} + {x} == {x};
    var p := Busy(cache, {y, x}, {}, lists, {}, {}, asked);
    longer := InChild(run, c, p, DeleteNext(y));
    p := p.(cache := left, deleting := done);
    longer := InChild(longer, c, p, Finish(y));
    p := p.(deleting := last, finished := {y});
    longer := InChild(longer, c, p, DeleteNext(x));
  }

  /**
   Draining suffices exactly for expiries of which no two conflict: then every process
   holds nothing stale once it has dealt with all of them, in every run; and for all
   others there is a run that leaves a stale entry in a drained child.
   */
  lemma DrainedIsFreshExactly(w: multiset<Shape>)
    ensures AlwaysFresh(w) <==> !Clash(w)
  {
    hide Drained, Stale, Init, Next;
    if Clash(w) {
      var a, b :| Conflicts(a, b) && multiset{a, b} <= w;
      var run, key, x := ConflictLeavesAStaleEntry("", a, b);
      assert The(run[|run| - 1], Kid("")) == Last(run).kids[""];
      assert !HoldsNothingStale(Last(run).kids[""]);
    } else {
      WithoutConflictsAlwaysFresh(w);
    }
  }
}
