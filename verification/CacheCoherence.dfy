/**
 Expiry of cached data across processes. Every process has a cache and hooks that
 run after an expiry; the parent's hook publishes the expiry to its children. Expiry
 threads, the rendering that fills the caches, the file monitors that expire data in
 any process, and the deliveries interleave freely. A thread first takes a list of
 the matching keys and then deletes them one by one; deleting a key that another
 thread has deleted meanwhile raises KeyError and ends the thread.
 */
module CacheCoherence {

  import opened Ordering
  import TaggedCache

  type Tag = TaggedCache.Tag
  type Key = TaggedCache.Key
  type Child = string

  /** The arguments of `expire(*tags, exact=exact)`. */
  datatype Shape = Shape(tags: set<Tag>, exact: bool)

  /** One expiry, told apart from all others by the time at which it was asked for. */
  datatype Expiry = Expiry(time: nat, shape: Shape)

  predicate Matches(x: Expiry, key: Key)
  {
    TaggedCache.Matches(x.shape.tags, x.shape.exact, key)
  }

  /**
   A process: whether it has the hook that publishes, its cache with the time at which
   each entry was inserted, the expiries it started itself and those published to it,
   and how far each of these has come. `asked` counts the expiries by their arguments.
   */
  datatype Process = Process(
    hooked: bool,
    cache: map<Key, nat>,
    own: set<Expiry>,
    told: set<Expiry>,
    publishing: set<Expiry>,
    queued: set<Expiry>,
    started: set<Expiry>,
    deleting: map<Expiry, seq<Key>>,
    finished: set<Expiry>,
    crashed: set<Expiry>,
    asked: multiset<Shape>)

  /** `sent` holds, for each expiry whose end was published, what the children were sent. */
  datatype State = State(now: nat, running: bool, parent: Process, kids: map<Child, Process>, sent: map<Expiry, Expiry>)

  datatype Who = Parent | Kid(child: Child)

  datatype Step =
    | StartChild(child: Child)
    | InstallHook
    | In(who: Who, act: Act)

  datatype Act =
    | Insert(key: Key)
    | Expire(shape: Shape)
    | Deliver(x: Expiry)
    | Read(x: Expiry)
    | List(x: Expiry, keys: seq<Key>)
    | DeleteNext(x: Expiry)
    | Finish(x: Expiry)

  /** A process with the given hooks and cache that has been asked nothing yet. */
  function Fresh(hooked: bool, cache: map<Key, nat>): Process
  {
    Process(hooked, cache, {}, {}, {}, {}, {}, map[], {}, {}, multiset{})
  }

  /** A child starts as a copy of its parent's memory: its hooks and its cache, but none of its threads. */
  function Forked(parent: Process): Process
  {
    Fresh(parent.hooked, parent.cache)
  }

  ghost predicate Init(s: State)
  {
    s == State(0, false, Fresh(false, map[]), map[], map[])
  }

  // ---------- the steps ----------

  /** `list(self.keys())`, filtered: the matching keys, each once, in any order. */
  ghost predicate Lists(cache: map<Key, nat>, x: Expiry, keys: seq<Key>)
  {
    Distinct(keys) && forall key :: key in keys <==> key in cache && Matches(x, key)
  }

  ghost predicate CanAct(p: Process, act: Act)
  {
    match act
    case Insert(key) => true
    case Expire(shape) => true
    case Deliver(x) => x in p.publishing
    case Read(x) => x in p.queued
    case List(x, keys) => x in p.started && Lists(p.cache, x, keys)
    case DeleteNext(x) => x in p.deleting && p.deleting[x] != []
    case Finish(x) => x in p.deleting && p.deleting[x] == []
  }

  /** What a step does to the process that takes it. */
  ghost function Acted(now: nat, p: Process, act: Act): Process
    requires CanAct(p, act)
  {
    match act
    case Insert(key) => p.(cache := p.cache[key := now])
    case Expire(shape) =>
      var x := Expiry(now, shape);
      p.(own := p.own + {x}, started := p.started + {x}, asked := p.asked + multiset{shape})
    case Deliver(x) => p.(publishing := p.publishing - {x}, queued := p.queued + {x})
    case Read(x) => p.(queued := p.queued - {x}, started := p.started + {x})
    case List(x, keys) =>
      if x.shape.tags == {} then p.(started := p.started - {x}, cache := map[], finished := p.finished + {x})
      else p.(started := p.started - {x}, deleting := p.deleting[x := keys])
    case DeleteNext(x) =>
      var key := p.deleting[x][0];
      if key in p.cache then p.(cache := p.cache - {key}, deleting := p.deleting[x := p.deleting[x][1..]])
      else p.(deleting := p.deleting - {x}, crashed := p.crashed + {x})
    case Finish(x) => p.(deleting := p.deleting - {x}, finished := p.finished + {x})
  }

  /** The step is the end of an expiry: the hooks of the process run. */
  predicate Ends(act: Act)
  {
    act.Finish? || (act.List? && act.x.shape.tags == {})
  }

  /** A publication puts the expiry on its way to a child. */
  function Told(p: Process, y: Expiry): Process
  {
    p.(told := p.told + {y}, publishing := p.publishing + {y}, asked := p.asked + multiset{y.shape})
  }

  ghost predicate Exists(s: State, who: Who)
  {
    who.Kid? ==> who.child in s.kids
  }

  ghost function The(s: State, who: Who): Process
    requires Exists(s, who)
  {
    if who.Parent? then s.parent else s.kids[who.child]
  }

  ghost predicate Enabled(s: State, step: Step)
  {
    match step
    case StartChild(c) => !s.running && c !in s.kids
    case InstallHook => !s.running
    case In(who, act) => Exists(s, who) && CanAct(The(s, who), act)
  }

  /** A process takes a step; if that ends an expiry and the process has the hook, all children are sent one like it. */
  ghost function ActedIn(s: State, who: Who, act: Act): State
    requires Exists(s, who) && CanAct(The(s, who), act)
  {
    var p := Acted(s.now, The(s, who), act);
    var s' := if who.Parent? then s.(now := s.now + 1, parent := p)
      else s.(now := s.now + 1, kids := s.kids[who.child := p]);
    if p.hooked && Ends(act) then Published(s', act.x, Expiry(s.now, act.x.shape)) else s'
  }

  ghost function Published(s: State, x: Expiry, y: Expiry): State
  {
    s.(sent := s.sent[x := y], kids := map c | c in s.kids :: Told(s.kids[c], y))
  }

  /** Children are started before the hook is installed; after that both kinds of step are over. */
  ghost function After(s: State, step: Step): State
    requires Enabled(s, step)
  {
    match step
    case StartChild(c) => s.(now := s.now + 1, kids := s.kids[c := Forked(s.parent)])
    case InstallHook => s.(now := s.now + 1, running := true, parent := s.parent.(hooked := true))
    case In(who, act) => ActedIn(s, who, act)
  }

  /**
   Why children are started first: one started with the parent's hook in its memory would publish
   its expiries to all children, itself included, and they would again.
   */
  lemma LateChildWouldPublish(s: State, c: Child, act: Act)
    requires c in s.kids && s.parent.hooked && s.kids[c].hooked == Forked(s.parent).hooked
    requires CanAct(s.kids[c], act) && Ends(act)
    ensures var t := After(s, In(Kid(c), act));
      act.x in t.sent && t.sent[act.x].shape == act.x.shape &&
      t.kids.Keys == s.kids.Keys && forall d :: d in t.kids ==> t.sent[act.x] in t.kids[d].publishing
  {
  }

  ghost predicate Next(s: State, s': State)
  {
    exists step :: Enabled(s, step) && s' == After(s, step)
  }

  ghost predicate IsRun(run: seq<State>)
  {
    run != [] && Init(run[0]) && forall i :: 0 < i < |run| ==> Next(run[i - 1], run[i])
  }

  // ---------- the invariant of one process ----------

  /** Everything that the process was asked to expire. */
  ghost function Requests(p: Process): set<Expiry>
  {
    p.own + p.told
  }

  /** An entry that an expiry should have removed: inserted before it and matched by it. */
  ghost predicate Stale(p: Process, key: Key, x: Expiry)
  {
    key in p.cache && p.cache[key] < x.time && Matches(x, key)
  }

  /** The process has yet to deal with the expiry. */
  ghost predicate Pending(p: Process, x: Expiry)
  {
    x in p.publishing || x in p.queued || x in p.started
  }

  /** Why a process may still hold a stale entry. */
  ghost predicate Excused(p: Process, key: Key, x: Expiry)
  {
    Pending(p, x) || (x in p.deleting && key in p.deleting[x]) || x in p.crashed
  }

  ghost predicate Coherent(p: Process)
  {
    forall key, x :: x in Requests(p) && Stale(p, key, x) ==> Excused(p, key, x)
  }

  /** In how many places of a process an expiry is. */
  ghost function Places(p: Process, x: Expiry): nat
  {
    One(x in p.publishing) + One(x in p.queued) + One(x in p.started) + One(x in p.deleting) +
    One(x in p.finished) + One(x in p.crashed)
  }

  function One(b: bool): nat { if b then 1 else 0 }

  /** Every expiry is in exactly one place: nothing is lost, repeated or made up. */
  ghost predicate Conserved(p: Process)
  {
    forall x :: Places(p, x) == One(x in Requests(p))
  }

  ghost predicate Timely(p: Process, now: nat)
  {
    && (forall key :: key in p.cache ==> p.cache[key] < now)
    && (forall x :: x in Requests(p) ==> x.time < now)
  }

  ghost predicate ProcessInv(p: Process, now: nat)
  {
    Coherent(p) && Conserved(p) && Timely(p, now)
  }

  lemma ActKeepsInv(p: Process, act: Act, now: nat)
    requires ProcessInv(p, now) && CanAct(p, act)
    ensures ProcessInv(Acted(now, p, act), now + 1)
  {
    hide Places, Stale, Excused, Lists, Requests;
    match act
    case Insert(key) => InsertKeepsInv(p, key, now);
    case Expire(shape) => ExpireKeepsInv(p, shape, now);
    case Deliver(x) => DeliverKeepsInv(p, x, now);
    case Read(x) => ReadKeepsInv(p, x, now);
    case List(x, keys) => ListKeepsInv(p, x, keys, now);
    case DeleteNext(x) => DeleteKeepsInv(p, x, now);
    case Finish(x) => FinishKeepsInv(p, x, now);
  }

  lemma InsertKeepsInv(p: Process, key: Key, now: nat)
    requires ProcessInv(p, now)
    ensures ProcessInv(Acted(now, p, Insert(key)), now + 1)
  {
    var p' := Acted(now, p, Insert(key));
    hide Matches, Lists;
    MovedConserves(p, p');
    forall k, y | y in Requests(p') && Stale(p', k, y) ensures Excused(p', k, y) {
      assert Stale(p, k, y);
    }
  }

  /** What is asked for now is new, and nothing in the cache is older than that. */
  lemma ExpireKeepsInv(p: Process, shape: Shape, now: nat)
    requires ProcessInv(p, now)
    ensures ProcessInv(Acted(now, p, Expire(shape)), now + 1)
  {
    var p' := Acted(now, p, Expire(shape));
    var x := Expiry(now, shape);
    hide Matches, Lists;
    assert x !in Requests(p);
    forall y ensures Places(p', y) == One(y in Requests(p')) {
      assert Places(p, y) == One(y in Requests(p));
    }
    hide Places;
    forall k, y | y in Requests(p') && Stale(p', k, y) ensures Excused(p', k, y) {
      assert y in Requests(p) ==> Stale(p, k, y);
    }
  }

  /** Requests stay in one place if each is in as many as before. */
  lemma MovedConserves(p: Process, p': Process)
    requires Conserved(p) && p'.own == p.own && p'.told == p.told && forall y :: Places(p', y) == Places(p, y)
    ensures Conserved(p')
  {
    hide Places;
    assert forall y :: Places(p, y) == One(y in Requests(p));
  }

  lemma DeliverKeepsInv(p: Process, x: Expiry, now: nat)
    requires ProcessInv(p, now) && x in p.publishing
    ensures ProcessInv(Acted(now, p, Deliver(x)), now + 1)
  {
    var p' := Acted(now, p, Deliver(x));
    assert Places(p, x) == One(x in Requests(p));
    hide Matches, Lists;
    assert forall y :: Places(p', y) == Places(p, y);
    MovedConserves(p, p');
    hide Places;
    forall k, y | y in Requests(p') && Stale(p', k, y) ensures Excused(p', k, y) {
      assert Stale(p, k, y);
    }
  }

  lemma ReadKeepsInv(p: Process, x: Expiry, now: nat)
    requires ProcessInv(p, now) && x in p.queued
    ensures ProcessInv(Acted(now, p, Read(x)), now + 1)
  {
    var p' := Acted(now, p, Read(x));
    assert Places(p, x) == One(x in Requests(p));
    hide Matches, Lists;
    assert forall y :: Places(p', y) == Places(p, y);
    MovedConserves(p, p');
    hide Places;
    forall k, y | y in Requests(p') && Stale(p', k, y) ensures Excused(p', k, y) {
      assert Stale(p, k, y);
    }
  }

  lemma ListKeepsInv(p: Process, x: Expiry, keys: seq<Key>, now: nat)
    requires ProcessInv(p, now) && CanAct(p, List(x, keys))
    ensures ProcessInv(Acted(now, p, List(x, keys)), now + 1)
  {
    var p' := Acted(now, p, List(x, keys));
    ListMoves(p, x, keys, now);
    MovedConserves(p, p');
    hide Places, Distinct, Matches, Conserved;
    forall k, y | y in Requests(p') && Stale(p', k, y) ensures Excused(p', k, y) {
      assert Stale(p, k, y);
    }
  }

  lemma ListMoves(p: Process, x: Expiry, keys: seq<Key>, now: nat)
    requires Conserved(p) && CanAct(p, List(x, keys))
    ensures forall y :: Places(Acted(now, p, List(x, keys)), y) == Places(p, y)
  {
    assert Places(p, x) == One(x in Requests(p));
    hide Lists, Requests;
  }

  lemma DeleteKeepsInv(p: Process, x: Expiry, now: nat)
    requires ProcessInv(p, now) && CanAct(p, DeleteNext(x))
    ensures ProcessInv(Acted(now, p, DeleteNext(x)), now + 1)
  {
    var p' := Acted(now, p, DeleteNext(x));
    assert Places(p, x) == One(x in Requests(p));
    hide Matches;
    assert forall y :: Places(p', y) == Places(p, y);
    MovedConserves(p, p');
    hide Places;
    var keys := p.deleting[x];
    assert keys == [keys[0]] + keys[1..];
    forall k, y | y in Requests(p') && Stale(p', k, y) ensures Excused(p', k, y) {
      assert Stale(p, k, y);
    }
  }

  lemma FinishKeepsInv(p: Process, x: Expiry, now: nat)
    requires ProcessInv(p, now) && CanAct(p, Finish(x))
    ensures ProcessInv(Acted(now, p, Finish(x)), now + 1)
  {
    var p' := Acted(now, p, Finish(x));
    assert Places(p, x) == One(x in Requests(p));
    hide Matches;
    assert forall y :: Places(p', y) == Places(p, y);
    MovedConserves(p, p');
    hide Places;
    forall k, y | y in Requests(p') && Stale(p', k, y) ensures Excused(p', k, y) {
      assert Stale(p, k, y);
    }
  }

  lemma ToldKeepsInv(p: Process, y: Expiry, now: nat)
    requires ProcessInv(p, now) && y.time == now
    ensures ProcessInv(Told(p, y), now + 1)
  {
    var p' := Told(p, y);
    forall x ensures Places(p', x) == One(x in Requests(p')) {
      assert Places(p, x) == One(x in Requests(p));
    }
    forall key, x | x in Requests(p') && Stale(p', key, x) ensures Excused(p', key, x) {
      assert x in Requests(p) ==> Stale(p, key, x);
    }
  }

  // ---------- the invariant of the whole ----------

  /**
   Only the parent ever has the hook, so all that the children are sent stems from expiries
   that the parent finished.
   */
  ghost predicate OnlyParentPublishes(s: State)
  {
    && s.parent.hooked == s.running
    && (forall c :: c in s.kids ==> !s.kids[c].hooked && s.kids[c].told == s.sent.Values)
    && (!s.running ==> s.sent == map[])
    && s.sent.Keys <= s.parent.finished
  }

  /** What was sent repeats the arguments of the expiry it stems from, later, and differs for different expiries. */
  ghost predicate SentOnce(s: State)
  {
    && (forall x :: x in s.sent ==> s.sent[x].shape == x.shape && x.time <= s.sent[x].time < s.now)
    && (forall x, y :: x in s.sent && y in s.sent && s.sent[x] == s.sent[y] ==> x == y)
  }

  ghost predicate Inv(s: State)
  {
    && ProcessInv(s.parent, s.now) && (forall c :: c in s.kids ==> ProcessInv(s.kids[c], s.now))
    && s.parent.told == {} && OnlyParentPublishes(s) && SentOnce(s)
  }

  lemma LaterStillInv(p: Process, now: nat)
    requires ProcessInv(p, now)
    ensures ProcessInv(p, now + 1)
  {
  }

  lemma ForkedKeepsInv(parent: Process, now: nat)
    requires ProcessInv(parent, now)
    ensures ProcessInv(Forked(parent), now + 1)
  {
  }

  lemma HookKeepsInv(parent: Process, now: nat)
    requires ProcessInv(parent, now)
    ensures ProcessInv(parent.(hooked := true), now + 1)
  {
    var p' := parent.(hooked := true);
    forall x ensures Places(p', x) == One(x in Requests(p')) {
      assert Places(parent, x) == One(x in Requests(parent));
    }
    forall key, x | x in Requests(p') && Stale(p', key, x) ensures Excused(p', key, x) {
      assert Stale(parent, key, x);
    }
  }

  /** A step changes neither the hooks nor what a process was told, and finishes at most the expiry that it ends. */
  lemma ActKeepsRest(p: Process, act: Act, now: nat)
    requires CanAct(p, act)
    ensures Acted(now, p, act).hooked == p.hooked && Acted(now, p, act).told == p.told
    ensures Acted(now, p, act).finished == if Ends(act) then p.finished + {act.x} else p.finished
  {
  }

  lemma StepKeepsInv(s: State, step: Step)
    requires Inv(s) && Enabled(s, step)
    ensures Inv(After(s, step))
  {
    hide ProcessInv, Acted, CanAct;
    match step
    case StartChild(c) =>
      ForkedKeepsInv(s.parent, s.now);
      LaterStillInv(s.parent, s.now);
      forall d | d in s.kids ensures ProcessInv(s.kids[d], s.now + 1) { LaterStillInv(s.kids[d], s.now); }
    case InstallHook =>
      HookKeepsInv(s.parent, s.now);
      forall d | d in s.kids ensures ProcessInv(s.kids[d], s.now + 1) { LaterStillInv(s.kids[d], s.now); }
    case In(who, act) =>
      if who.Parent? { ParentKeepsInv(s, act); } else { ChildKeepsInv(s, who.child, act); }
  }

  lemma ParentKeepsInv(s: State, act: Act)
    requires Inv(s) && CanAct(s.parent, act)
    ensures Inv(ActedIn(s, Parent, act))
  {
    hide ProcessInv, Acted, CanAct;
    ActKeepsInv(s.parent, act, s.now);
    ActKeepsRest(s.parent, act, s.now);
    var s' := ActedIn(s, Parent, act);
    forall d | d in s.kids ensures ProcessInv(s'.kids[d], s.now + 1) {
      LaterStillInv(s.kids[d], s.now);
      ToldKeepsInv(s.kids[d], Expiry(s.now, if Ends(act) then act.x.shape else Shape({}, false)), s.now);
    }
    if s.parent.hooked && Ends(act) {
      EndedIsNew(s.parent, act, s.now);
      var y := Expiry(s.now, act.x.shape);
      ValuesWith(s.sent, act.x, y);
    }
  }

  lemma ValuesWith<K(!new), V(!new)>(m: map<K, V>, x: K, y: V)
    requires x !in m
    ensures m[x := y].Values == m.Values + {y}
  {
    forall v | v in m.Values ensures v in m[x := y].Values {
      var k :| k in m && m[k] == v;
      assert m[x := y][k] == v;
    }
    assert m[x := y][x] == y;
  }

  /** An expiry ends once. */
  lemma EndedIsNew(p: Process, act: Act, now: nat)
    requires ProcessInv(p, now) && CanAct(p, act) && Ends(act)
    ensures act.x !in p.finished && act.x.time < now
  {
    assert Places(p, act.x) == One(act.x in Requests(p));
  }

  /**
   A child has no hook, so that nothing it does is published: neither an expiry of its own nor
   one that it was sent.
   */
  lemma ChildKeepsInv(s: State, c: Child, act: Act)
    requires Inv(s) && c in s.kids && CanAct(s.kids[c], act)
    ensures Inv(ActedIn(s, Kid(c), act))
    ensures ActedIn(s, Kid(c), act).sent == s.sent
  {
    hide ProcessInv, Acted, CanAct;
    ActKeepsInv(s.kids[c], act, s.now);
    ActKeepsRest(s.kids[c], act, s.now);
    LaterStillInv(s.parent, s.now);
    var s' := ActedIn(s, Kid(c), act);
    forall d | d in s.kids ensures ProcessInv(s'.kids[d], s.now + 1) {
      if d != c { LaterStillInv(s.kids[d], s.now); }
    }
  }

  // ---------- every run ----------

  lemma StepTo(run: seq<State>, i: nat) returns (step: Step)
    requires IsRun(run) && 0 < i < |run|
    ensures Enabled(run[i - 1], step) && run[i] == After(run[i - 1], step)
  {
    hide Enabled, After;
    assert Next(run[i - 1], run[i]);
    step :| Enabled(run[i - 1], step) && run[i] == After(run[i - 1], step);
  }

  lemma {:induction false} EveryStateKeepsInv(run: seq<State>, i: nat)
    requires IsRun(run) && i < |run|
    ensures Inv(run[i])
  {
    hide Inv, After, Enabled;
    if i > 0 {
      EveryStateKeepsInv(run, i - 1);
      var step := StepTo(run, i);
      StepKeepsInv(run[i - 1], step);
    } else {
      InitialInv(run[0]);
    }
  }

  lemma InitialInv(s: State)
    requires Init(s)
    ensures Inv(s)
  {
    forall x ensures Places(s.parent, x) == 0 {}
  }

  /**
   No broadcast loops. In every reachable state no child has the hook, every child
   has been sent the same, one expiry for each that the parent finished with the hook
   installed, and has each of them and each of its own in exactly one place.
   */
  lemma NoBroadcastLoops(run: seq<State>, i: nat, c: Child, x: Expiry)
    requires IsRun(run) && i < |run| && c in run[i].kids
    ensures !run[i].kids[c].hooked && run[i].kids[c].told == run[i].sent.Values
    ensures run[i].sent.Keys <= run[i].parent.finished && |run[i].sent.Values| == |run[i].sent|
    ensures Places(run[i].kids[c], x) == One(x in run[i].kids[c].own || x in run[i].sent.Values)
  {
    EveryStateKeepsInv(run, i);
    hide Inv, ProcessInv, Coherent, Timely;
    AsManyValues(run[i].sent);
  }

  lemma {:induction false} AsManyValues<K(!new), V(!new)>(m: map<K, V>)
    requires forall x, y :: x in m && y in m && m[x] == m[y] ==> x == y
    ensures |m.Values| == |m|
  {
    if m == map[] {
      assert m.Values == {};
    } else {
      var x :| x in m;
      var rest := m - {x};
      assert m.Values == rest.Values + {m[x]} && m[x] !in rest.Values;
      assert m.Keys == rest.Keys + {x};
      AsManyValues(rest);
    }
  }

  /** From when the hook is installed, exactly what the parent finishes is published, and it stays so. */
  lemma {:induction false} WhatTheParentEndsIsSent(run: seq<State>, i: nat, j: nat)
    requires IsRun(run) && i <= j < |run| && run[i].running
    ensures run[j].running && run[j].sent.Keys == run[i].sent.Keys + (run[j].parent.finished - run[i].parent.finished)
    ensures run[i].parent.finished <= run[j].parent.finished
  {
    hide Inv, After, Enabled, IsRun;
    if i < j {
      WhatTheParentEndsIsSent(run, i, j - 1);
      EveryStateKeepsInv(run, j - 1);
      var step := StepTo(run, j);
      StepSends(run[j - 1], step);
    }
  }

  lemma StepSends(s: State, step: Step)
    requires Inv(s) && Enabled(s, step) && s.running
    ensures var s' := After(s, step);
      s'.running && s.parent.finished <= s'.parent.finished &&
      s'.sent.Keys == s.sent.Keys + (s'.parent.finished - s.parent.finished)
  {
    hide ProcessInv, Acted, CanAct, SentOnce;
    if step.In? {
      ActKeepsRest(The(s, step.who), step.act, s.now);
      if step.who.Parent? && Ends(step.act) { EndedIsNew(s.parent, step.act, s.now); }
    }
  }

  /** An expiry whose thread dies in the parent never reaches the hooks, so no child hears of it. */
  lemma DeadExpiriesAreNotSent(run: seq<State>, i: nat, x: Expiry)
    requires IsRun(run) && i < |run| && x in run[i].parent.crashed
    ensures x !in run[i].sent
  {
    EveryStateKeepsInv(run, i);
    assert Places(run[i].parent, x) == One(x in Requests(run[i].parent));
  }

  ghost predicate Drained(p: Process)
  {
    p.publishing == {} && p.queued == {} && p.started == {} && p.deleting == map[]
  }

  /**
   Once a process has dealt with everything, a stale entry is left only by an expiry whose
   thread died on a KeyError.
   */
  lemma DrainedIsFreshOrCrashed(run: seq<State>, i: nat, who: Who, key: Key, x: Expiry)
    requires IsRun(run) && i < |run| && Exists(run[i], who) && x in Requests(The(run[i], who))
    requires Drained(The(run[i], who)) && Stale(The(run[i], who), key, x)
    ensures x in The(run[i], who).crashed
  {
    EveryStateKeepsInv(run, i);
    assert ProcessInv(The(run[i], who), run[i].now);
  }
}
