/**
 One run of the configuration client: inventory, early installation of important
 files, the decision what to install, the installation, and the notification of
 bundles. The tool drivers are arbitrary: every call to one may raise, may report
 any states, and may change which entries count as modified.
 */
module ClientRun {
  import opened Common
  import opened Ordering

  /** An XML entry; two entries are the same element when they are equal, which `id` decides. */
  datatype Entry = Entry(id: nat, tag: string, name: string, kind: string, timing: string, when: string)

  datatype Struct = Struct(id: nat, tag: string, name: Option<string>, entries: seq<Entry>)

  type Tool = nat

  datatype Decision = NoList | Whitelist | Blacklist

  datatype RemoveMode = NoRemoval | All | Services | Packages | Users | Conf

  datatype Setup = Setup(
    decision: Decision, decisionList: seq<(string, string)>, fromFile: bool, dryRun: bool, onlyImportant: bool,
    interactive: bool, onlyBundles: seq<string>, exceptBundles: seq<string>, remove: RemoveMode, kevlar: bool)

  /** Why an entry was handed to a tool: early, as a prerequisite of a bundle, or by Install. */
  datatype Why = Early | Prerequisite | Main

  datatype Handed = Handed(why: Why, entry: Entry)

  /** An entry was offered to a tool, which may or may not say that it can install it. */
  datatype Offer = Offer(tool: Tool, entry: Handed)

  /**
   When a moment of the run was recorded: as a phase began, before and after the
   prerequisites of a bundle, when stock was taken of what was clobbered, or after a tool was called; `Quiet`
   calls are BundleNotUpdated.
   */
  datatype Phase = Began | Important | Deciding | Installing | Judging(bundle: Struct) | Judged(bundle: Struct)
    | Repairing | Called | Quiet

  /** `answers` are the states that a tool reported when it was called. */
  datatype Moment = Moment(phase: Phase, states: map<Entry, bool>, modified: seq<Entry>, whitelist: seq<Entry>,
                           answers: map<Entry, bool>)

  /** What the prerequisite actions of a bundle were run on, and the states right afterwards. */
  datatype Ran = Ran(whitelist: seq<Entry>, modified: seq<Entry>, states: map<Entry, bool>)

  /** What a tool is told about a bundle at the end of the run. */
  datatype Note = Updated(tool: Tool, bundle: Struct) | NotUpdated(tool: Tool, bundle: Struct)

  // ---------- list helpers ----------

  /** `[x for x in s if x in keep]` */
  function Keep<T(==,!new)>(s: seq<T>, keep: set<T>): (r: seq<T>)
    ensures forall x :: x in r <==> x in s && x in keep
    ensures Distinct(s) ==> Distinct(r)
  {
    if s == [] then []
    else
      var front, last := s[..|s| - 1], s[|s| - 1];
      assert s == front + [last];
      if last in keep then Keep(front, keep) + [last] else Keep(front, keep)
  }

  /** `s.remove(x)` */
  function RemoveFirst<T(==,!new)>(s: seq<T>, x: T): (r: seq<T>)
    ensures Distinct(s) ==> Distinct(r) && forall y :: y in r <==> y in s && y != x
    ensures forall y :: y in r ==> y in s
    ensures x !in s ==> r == s
  {
    if s == [] then []
    else
      assert s == [s[0]] + s[1..];
      assert Distinct(s) ==> s[0] !in s[1..];
      if s[0] == x then s[1..] else [s[0]] + RemoveFirst(s[1..], x)
  }

  lemma DistinctAt<T(!new)>(s: seq<T>, i: nat)
    requires Distinct(s) && i < |s|
    ensures s[i] !in s[..i] && forall x :: x in s[..i + 1] <==> x in s[..i] || x == s[i]
  {
    assert s[..i + 1] == s[..i] + [s[i]];
  }

  lemma {:induction false} KeepAll<T(!new)>(s: seq<T>, keep: set<T>)
    requires forall x :: x in s ==> x in keep
    ensures Keep(s, keep) == s
  {
    if s != [] {
      assert s == s[..|s| - 1] + [s[|s| - 1]];
      KeepAll(s[..|s| - 1], keep);
    }
  }

  /** Removing an element from a filtered list is the same as filtering it out. */
  lemma {:induction false} KeepWithout<T(!new)>(s: seq<T>, keep: set<T>, keep': set<T>, x: T)
    requires Distinct(s) && forall y :: y in s ==> (y in keep' <==> y in keep && y != x)
    ensures RemoveFirst(Keep(s, keep), x) == Keep(s, keep')
  {
    if s != [] {
      var front, last := s[..|s| - 1], s[|s| - 1];
      assert s == front + [last];
      KeepWithout(front, keep, keep', x);
      if last in keep { RemoveFirstOfConcat(Keep(front, keep), last, x); }
    }
  }

  lemma {:induction false} RemoveFirstOfConcat<T(!new)>(s: seq<T>, last: T, x: T)
    requires last !in s
    ensures RemoveFirst(s + [last], x) == if last == x then s else RemoveFirst(s, x) + [last]
  {
    if s == [] {
      assert s + [last] == [last];
    } else {
      assert (s + [last])[1..] == s[1..] + [last];
      RemoveFirstOfConcat(s[1..], last, x);
    }
  }

  predicate Holds(b: Struct, es: seq<Entry>)
  {
    exists e | e in b.entries :: e in es
  }

  function Bundles(config: seq<Struct>): (r: seq<Struct>)
    ensures Distinct(config) ==> Distinct(r)
    ensures forall b :: b in r <==> b in config && b.tag == "Bundle"
  {
    Keep(config, set b | b in config && b.tag == "Bundle")
  }

  ghost predicate InSome(bs: seq<Struct>, e: Entry)
  {
    exists b :: b in bs && e in b.entries
  }

  lemma NowhereIn()
    ensures forall e :: !InSome([], e)
  {
  }

  lemma InOneMore(bs: seq<Struct>, i: nat)
    requires i < |bs|
    ensures forall e :: InSome(bs[..i + 1], e) <==> InSome(bs[..i], e) || e in bs[i].entries
  {
    assert bs[..i + 1] == bs[..i] + [bs[i]];
    forall e ensures InSome(bs[..i + 1], e) <==> InSome(bs[..i], e) || e in bs[i].entries {
      if InSome(bs[..i], e) {
        var b :| b in bs[..i] && e in b.entries;
        assert b in bs[..i + 1];
      }
      assert bs[i] in bs[..i + 1];
    }
  }

  function EntriesOf(config: seq<Struct>): (r: set<Entry>)
    ensures forall e :: e in r <==> exists b :: b in config && e in b.entries
  {
    set b, e | b in config && e in b.entries :: e
  }

  // ---------- decision lists ----------

  /** Matching of `(tag, name)` against a specification with shell wildcards; `glob` is the wildcard match. */
  predicate MatchesEntry(glob: (string, string) -> bool, spec: (string, string), e: Entry)
  {
    spec == (e.tag, e.name) || (glob(e.tag, spec.0) && glob(e.name, spec.1))
  }

  predicate MatchesWhiteList(glob: (string, string) -> bool, e: Entry, list: seq<(string, string)>)
  {
    exists i | 0 <= i < |list| :: MatchesEntry(glob, list[i], e)
  }

  predicate PassesBlackList(glob: (string, string) -> bool, e: Entry, list: seq<(string, string)>)
  {
    !exists i | 0 <= i < |list| :: MatchesEntry(glob, list[i], e)
  }

  /** The server's decision list forbids touching the entry. */
  predicate Suppressed(glob: (string, string) -> bool, setup: Setup, e: Entry)
  {
    !setup.fromFile &&
    match setup.decision
    case NoList => false
    case Whitelist => !MatchesWhiteList(glob, e, setup.decisionList)
    case Blacklist => !PassesBlackList(glob, e, setup.decisionList)
  }

  /** The bundle passes the -b and -B options. */
  predicate Selected(setup: Setup, b: Struct)
  {
    OnlySelected(setup, b) && (setup.exceptBundles == [] || b.name.None? || b.name.value !in setup.exceptBundles)
  }

  predicate OnlySelected(setup: Setup, b: Struct)
  {
    setup.onlyBundles == [] || (b.name.Some? && b.name.value in setup.onlyBundles)
  }

  /** The bundle's files are looked at for early installation. */
  predicate EarlyParent(setup: Setup, p: Struct)
  {
    p.name.Some? && p.name.value != "" && !(p.name.value in setup.exceptBundles && p.name.value !in setup.onlyBundles)
  }

  function ToRemove(mode: RemoveMode, extra: seq<Entry>): seq<Entry>
  {
    match mode
    case NoRemoval => []
    case All => extra
    case Services => Keep(extra, set e | e in extra && e.tag == "Service")
    case Packages => Keep(extra, set e | e in extra && e.tag == "Package")
    case Users => Keep(extra, set e | e in extra && (e.tag == "POSIXUser" || e.tag == "POSIXGroup"))
    case Conf => Keep(extra, set e | e in extra && e.tag == "Conf")
  }

  predicate PreAction(a: Entry, modified: bool)
  {
    a.tag == "Action" && (a.timing == "pre" || a.timing == "both") && (modified || a.when == "always")
  }

  /** Something in the bundle is to be installed or was modified. */
  predicate Touched(b: Struct, whitelist: seq<Entry>, modified: seq<Entry>)
  {
    b.tag == "Bundle" && exists item | item in b.entries :: item in whitelist || item in modified
  }

  /** The actions that the bundle wants run first. */
  function PreActions(b: Struct, whitelist: seq<Entry>, modified: seq<Entry>): set<Entry>
  {
    set a | a in b.entries && PreAction(a, Touched(b, whitelist, modified))
  }

  /** A prerequisite action of the bundle was not good right after they were run. */
  ghost predicate Failed(b: Struct, ran: Ran)
  {
    exists a :: a in PreActions(b, ran.whitelist, ran.modified) && !(a in ran.states && ran.states[a])
  }

  /** All prerequisite actions of the bundle were offered to all tools at a time that the history records. */
  ghost predicate WereRun(b: Struct, ran: Ran, tools: seq<Tool>, offered: set<Offer>, history: seq<Moment>)
  {
    && (forall a, t :: a in PreActions(b, ran.whitelist, ran.modified) && t in tools ==>
          Offer(t, Handed(Prerequisite, a)) in offered)
    && exists i, j :: JudgedWithin(b, ran, history, i, j)
  }

  /** The history records the judgement on the bundle, and between its beginning and its end only calls of tools. */
  ghost predicate JudgedWithin(b: Struct, ran: Ran, history: seq<Moment>, i: int, j: int)
  {
    && 0 <= i < j < |history|
    && history[i].phase == Judging(b) && history[i].whitelist == ran.whitelist && history[i].modified == ran.modified
    && history[j].phase == Judged(b) && history[j].states == ran.states
    && history[j].states == history[i].states + Answers(history[..j], i + 1)
    && forall k :: i < k < j ==> Loud(history[k].phase)
  }

  /** The bundles that no failed prerequisite forced off. */
  ghost function Standing(bundles: seq<Struct>, verdicts: map<Struct, Ran>): set<Struct>
  {
    set b | b in bundles && !(b in verdicts && Failed(b, verdicts[b]))
  }

  ghost predicate OnlyPrerequisites(hs: set<Handed>)
  {
    forall h :: h in hs ==> h.why.Prerequisite? && h.entry.tag == "Action"
  }

  lemma StillPrerequisites(h0: set<Handed>, h1: set<Handed>, h2: set<Handed>)
    requires OnlyPrerequisites(h1 - h0) && OnlyPrerequisites(h2 - h1)
    ensures OnlyPrerequisites(h2 - h0)
  {
  }

  function SelectedBundles(setup: Setup, config: seq<Struct>): seq<Struct>
  {
    Keep(config, set b | b in config && Selected(setup, b))
  }

  /**
   What the bundles make of the configuration and the whitelist. Every selected
   bundle has a verdict on its prerequisites; the whitelist keeps exactly the
   entries of selected structures that no failed bundle holds; and without -b and -B
   the failed bundles are gone from the configuration itself.
   */
  ghost predicate Decided(setup: Setup, config: seq<Struct>, whitelist: seq<Entry>,
                          config': seq<Struct>, whitelist': seq<Entry>, verdicts: map<Struct, Ran>)
  {
    && (forall b :: b in verdicts <==> b in config && b.tag == "Bundle" && Selected(setup, b))
    && (forall e :: e in whitelist' <==>
          e in whitelist && e in EntriesOf(SelectedBundles(setup, config)) && !ForcedOff(verdicts, e))
    && config' == (if setup.onlyBundles == [] && setup.exceptBundles == []
                   then Keep(config, Standing(config, verdicts)) else config)
  }

  lemma DecidedShrinks(setup: Setup, config: seq<Struct>, whitelist: seq<Entry>,
                       config': seq<Struct>, whitelist': seq<Entry>, verdicts: map<Struct, Ran>)
    requires Decided(setup, config, whitelist, config', whitelist', verdicts)
    ensures forall e :: e in whitelist' ==> e in whitelist
  {
    hide ForcedOff;
  }

  /** No entry of a bundle whose prerequisites failed is on the whitelist. */
  ghost predicate NoneOfFailed(verdicts: map<Struct, Ran>, whitelist: seq<Entry>)
  {
    forall b, e :: b in verdicts && Failed(b, verdicts[b]) && e in b.entries ==> e !in whitelist
  }

  lemma NoneOfFailedIsLeft(setup: Setup, config: seq<Struct>, whitelist: seq<Entry>,
                           config': seq<Struct>, whitelist': seq<Entry>, verdicts: map<Struct, Ran>)
    requires Decided(setup, config, whitelist, config', whitelist', verdicts)
    ensures NoneOfFailed(verdicts, whitelist')
  {
    assert forall e :: e in whitelist' ==> !ForcedOff(verdicts, e);
  }

  lemma NoneOfFailedInFewer(verdicts: map<Struct, Ran>, whitelist: seq<Entry>, fewer: seq<Entry>)
    requires NoneOfFailed(verdicts, whitelist) && forall e :: e in fewer ==> e in whitelist
    ensures NoneOfFailed(verdicts, fewer)
  {
  }

  /**
   The loop over the bundles after i of them: who has a verdict, what is left of the whitelist
   and of the list of bundles.
   */
  ghost predicate Filtered(snapshot: seq<Struct>, i: nat, started: seq<Entry>, whitelist: seq<Entry>,
                           verdicts: map<Struct, Ran>, bundles: seq<Struct>)
  {
    && i <= |snapshot| && Distinct(snapshot) && Distinct(whitelist)
    && (forall b :: b in verdicts <==> b in snapshot[..i] && b.tag == "Bundle")
    && (forall e :: e in whitelist <==> e in started && !ForcedOff(verdicts, e))
    && bundles == Keep(snapshot, Standing(snapshot, verdicts))
  }

  /** An entry of a bundle whose prerequisites failed. */
  ghost predicate ForcedOff(verdicts: map<Struct, Ran>, e: Entry)
  {
    exists b :: b in verdicts && Failed(b, verdicts[b]) && e in b.entries
  }

  lemma Tracked(config: seq<Struct>, known: set<Entry>, b: Struct)
    requires EntriesOf(config) <= known && b in config
    ensures forall e :: e in b.entries ==> e in known
  {
  }

  lemma FilterStart(setup: Setup, config: seq<Struct>, whitelist: seq<Entry>, started: seq<Entry>)
    requires Distinct(config) && Distinct(whitelist)
    requires started == Keep(whitelist, EntriesOf(SelectedBundles(setup, config)))
    ensures Filtered(SelectedBundles(setup, config), 0, started, started, map[], SelectedBundles(setup, config))
    ensures forall b :: b in SelectedBundles(setup, config) ==> b in config
    ensures setup.onlyBundles == [] && setup.exceptBundles == [] ==> SelectedBundles(setup, config) == config
  {
    var snapshot := SelectedBundles(setup, config);
    KeepAll(snapshot, Standing(snapshot, map[]));
    if setup.onlyBundles == [] && setup.exceptBundles == [] {
      KeepAll(config, set b | b in config && Selected(setup, b));
    }
  }

  lemma FilterEnd(setup: Setup, config: seq<Struct>, whitelist: seq<Entry>, started: seq<Entry>, whitelist': seq<Entry>,
                  verdicts: map<Struct, Ran>, bundles: seq<Struct>, config': seq<Struct>)
    requires Distinct(config)
    requires started == Keep(whitelist, EntriesOf(SelectedBundles(setup, config)))
    requires var snapshot := SelectedBundles(setup, config);
      Filtered(snapshot, |snapshot|, started, whitelist', verdicts, bundles)
    requires setup.onlyBundles == [] && setup.exceptBundles == [] ==> SelectedBundles(setup, config) == config
    requires config' == if setup.onlyBundles == [] && setup.exceptBundles == [] then bundles else config
    ensures Decided(setup, config, whitelist, config', whitelist', verdicts)
    ensures Distinct(config') && Distinct(whitelist') && EntriesOf(config') <= EntriesOf(config)
  {
    hide ForcedOff, Standing, EntriesOf, Distinct, Selected;
    var snapshot := SelectedBundles(setup, config);
    assert snapshot[..|snapshot|] == snapshot;
    FewerEntries(config', config);
  }

  lemma FewerEntries(fewer: seq<Struct>, config: seq<Struct>)
    requires forall b :: b in fewer ==> b in config
    ensures EntriesOf(fewer) <= EntriesOf(config)
  {
  }

  lemma FilterStep(snapshot: seq<Struct>, i: nat, started: seq<Entry>, w: seq<Entry>, v: map<Struct, Ran>,
                   bs: seq<Struct>, w': seq<Entry>, v': map<Struct, Ran>, bs': seq<Struct>)
    requires Filtered(snapshot, i, started, w, v, bs) && i < |snapshot|
    requires ProcessedBundle(snapshot[i], w, v, bs, w', v', bs')
    ensures Filtered(snapshot, i + 1, started, w', v', bs')
  {
    hide RemoveFirst, Keep, Failed;
    DistinctAt(snapshot, i);
    if snapshot[i] in Standing(snapshot, v') {
      assert Standing(snapshot, v') == Standing(snapshot, v);
    } else {
      KeepWithout(snapshot, Standing(snapshot, v), Standing(snapshot, v'), snapshot[i]);
    }
    hide Standing, Distinct, Failed;
    var b := snapshot[i];
    forall e | e in started
      ensures ForcedOff(v', e) <==> ForcedOff(v, e) || (b in v' && Failed(b, v'[b]) && e in b.entries)
    {
      if ForcedOff(v, e) {
        var c :| c in v && Failed(c, v[c]) && e in c.entries;
        assert v'[c] == v[c];
      }
      if ForcedOff(v', e) {
        var c :| c in v' && Failed(c, v'[c]) && e in c.entries;
        assert c != b ==> v[c] == v'[c];
      }
    }
  }

  /** One bundle processed: its verdict, and that it is off the lists exactly if its prerequisites failed. */
  ghost predicate ProcessedBundle(bundle: Struct, w: seq<Entry>, v: map<Struct, Ran>, bs: seq<Struct>,
                                  w': seq<Entry>, v': map<Struct, Ran>, bs': seq<Struct>)
  {
    && (bundle.tag == "Bundle" ==> bundle in v' && v' == v[bundle := v'[bundle]])
    && (bundle.tag != "Bundle" ==> v' == v)
    && var off := bundle.tag == "Bundle" && Failed(bundle, v'[bundle]);
       && bs' == (if off then RemoveFirst(bs, bundle) else bs)
       && Distinct(w')
       && forall e :: e in w' <==> e in w && !(off && e in bundle.entries)
  }

  function PromptKeys(entries: seq<Entry>): (r: seq<string>)
    ensures |r| == |entries|
  {
    if entries == [] then []
    else PromptKeys(entries[..|entries| - 1]) + [entries[|entries| - 1].tag + ":" + entries[|entries| - 1].name]
  }

  /** The order in which a prompt goes through entries: `entries.sort(key=tag + ":" + name)`. */
  function PromptOrder(entries: seq<Entry>): (r: seq<Entry>)
    ensures forall e :: e in r <==> e in entries
    ensures Distinct(entries) ==> Distinct(r)
  {
    var p := Order(PromptKeys(entries), LexLe);
    PermCovers(p, entries);
    Apply(p, entries)
  }

  lemma PermCovers(p: seq<nat>, entries: seq<Entry>)
    requires IsPerm(p, |entries|)
    ensures forall e :: e in Apply(p, entries) <==> e in entries
    ensures Distinct(entries) ==> Distinct(Apply(p, entries))
  {
    forall e | e in entries ensures e in Apply(p, entries) {
      var k :| 0 <= k < |entries| && entries[k] == e;
      var i := PermHits(p, |entries|, k);
      assert Apply(p, entries)[i] == e;
    }
  }

  /** Install hands out whitelisted entries, and clobbered ones that are not blacklisted. */
  ghost predicate OnlyMain(hs: set<Handed>, whitelist: seq<Entry>, blacklist: seq<Entry>)
  {
    forall h :: h in hs ==> h.why.Main? && (h.entry in whitelist || h.entry !in blacklist)
  }

  // ---------- what the tools are told about bundles ----------

  /** The bundles that -b allows and that no tool modified. */
  function NotModified(setup: Setup, config: seq<Struct>, mb: seq<Struct>): set<Struct>
  {
    set b | b in Bundles(config) && OnlySelected(setup, b) && b !in mb
  }

  function Independents(config: seq<Struct>): set<Struct>
  {
    set b | b in config && b.tag == "Independent"
  }

  /** Each of the tools was told once more of each bundle in `updated` and in `others`, and nothing else was said. */
  ghost predicate Told(before: multiset<Note>, after: multiset<Note>, tools: seq<Tool>, updated: set<Struct>,
                       others: set<Struct>)
  {
    forall n :: after[n] == before[n] +
      if n.tool in tools && n.bundle in (if n.Updated? then updated else others) then 1 else 0
  }

  lemma ToldTwice(n0: multiset<Note>, n1: multiset<Note>, n2: multiset<Note>, tools: seq<Tool>,
                  u1: set<Struct>, o1: set<Struct>, u2: set<Struct>, o2: set<Struct>)
    requires Told(n0, n1, tools, u1, o1) && Told(n1, n2, tools, u2, o2)
    requires u1 !! u2 && o1 !! o2
    ensures Told(n0, n2, tools, u1 + u2, o1 + o2)
  {
  }

  lemma ToldOneMore(n0: multiset<Note>, n1: multiset<Note>, n2: multiset<Note>, tools: seq<Tool>,
                    told: set<Struct>, b: Struct, updated: bool)
    requires Told(n0, n1, tools, if updated then told else {}, if updated then {} else told) && b !in told
    requires Told(n1, n2, tools, if updated then {b} else {}, if updated then {} else {b})
    ensures Told(n0, n2, tools, if updated then told + {b} else {}, if updated then {} else told + {b})
  {
  }

  lemma ToldBoth(n0: multiset<Note>, n1: multiset<Note>, n2: multiset<Note>, tools: seq<Tool>, updated: set<Struct>,
                 others: set<Struct>)
    requires Told(n0, n1, tools, updated, {}) && Told(n1, n2, tools, {}, others)
    ensures Told(n0, n2, tools, updated, others)
  {
  }

  lemma ToldNothing(n0: multiset<Note>, tools: seq<Tool>)
    ensures Told(n0, n0, tools, {}, {})
  {
  }

  /** The bundles that may still turn out to be modified. */
  ghost function Untouched(all: seq<Struct>, mbundles: seq<Struct>, add: seq<Struct>): set<Struct>
  {
    set b | b in all && b !in mbundles && b !in add
  }

  /** The bundles of a list that -b allows. */
  function Eligible(setup: Setup, bs: seq<Struct>): (r: set<Struct>)
    ensures forall b :: b in r <==> b in bs && OnlySelected(setup, b)
  {
    set b | b in bs && OnlySelected(setup, b)
  }

  // ---------- prerequisites ----------

  /** The prerequisite actions of a bundle were offered to every tool, and nothing else was. */
  ghost predicate RanPrerequisites(b: Struct, ran: Ran, tools: seq<Tool>, before: set<Offer>, after: set<Offer>)
  {
    after == before + set t, a | t in tools && a in PreActions(b, ran.whitelist, ran.modified) ::
      Offer(t, Handed(Prerequisite, a))
  }

  ghost predicate AllWereRun(verdicts: map<Struct, Ran>, tools: seq<Tool>, offered: set<Offer>, history: seq<Moment>)
  {
    forall b :: b in verdicts ==> WereRun(b, verdicts[b], tools, offered, history)
  }

  /** Exactly the selected bundles have had their prerequisites run. */
  ghost predicate HaveVerdicts(setup: Setup, config: seq<Struct>, verdicts: map<Struct, Ran>)
  {
    forall b :: b in verdicts <==> b in config && b.tag == "Bundle" && Selected(setup, b)
  }

  lemma DecidedHaveVerdicts(setup: Setup, config: seq<Struct>, whitelist: seq<Entry>,
                            config': seq<Struct>, whitelist': seq<Entry>, verdicts: map<Struct, Ran>)
    requires Decided(setup, config, whitelist, config', whitelist', verdicts)
    ensures HaveVerdicts(setup, config, verdicts)
  {
  }

  lemma NoVerdicts(tools: seq<Tool>, offered: set<Offer>, history: seq<Moment>, whitelist: seq<Entry>)
    ensures AllWereRun(map[], tools, offered, history) && NoneOfFailed(map[], whitelist)
  {
  }

  lemma StillRun(verdicts: map<Struct, Ran>, tools: seq<Tool>, o: set<Offer>, o': set<Offer>, h: seq<Moment>,
                 h': seq<Moment>)
    requires AllWereRun(verdicts, tools, o, h) && o <= o' && h <= h'
    ensures AllWereRun(verdicts, tools, o', h')
  {
    hide PreActions, JudgedWithin;
    forall b | b in verdicts ensures WereRun(b, verdicts[b], tools, o', h') {
      assert WereRun(b, verdicts[b], tools, o, h);
      var i, j :| JudgedWithin(b, verdicts[b], h, i, j);
      StaysOnRecord(b, verdicts[b], h, h', i, j);
    }
  }

  lemma StaysOnRecord(b: Struct, ran: Ran, h: seq<Moment>, h': seq<Moment>, i: int, j: int)
    requires JudgedWithin(b, ran, h, i, j) && h <= h'
    ensures JudgedWithin(b, ran, h', i, j)
  {
    hide Answers;
    assert h'[..j] == h[..j];
  }

  lemma OneMoreWasRun(verdicts: map<Struct, Ran>, b: Struct, ran: Ran, tools: seq<Tool>,
                      o: set<Offer>, o': set<Offer>, h: seq<Moment>, h': seq<Moment>)
    requires AllWereRun(verdicts, tools, o, h) && h <= h'
    requires RanPrerequisites(b, ran, tools, o, o') && exists i, j :: JudgedWithin(b, ran, h', i, j)
    ensures AllWereRun(verdicts, tools, o', h') && AllWereRun(verdicts[b := ran], tools, o', h')
  {
    hide PreActions, JudgedWithin;
    StillRun(verdicts, tools, o, o', h, h');
    assert WereRun(b, ran, tools, o', h');
  }

  /** The judgement that begins and ends like this is on record. */
  lemma IsOnRecord(b: Struct, ran: Ran, h: seq<Moment>, judging: Moment, h': seq<Moment>, judged: Moment)
    requires judging.phase == Judging(b) && judging.whitelist == ran.whitelist && judging.modified == ran.modified
    requires judged.phase == Judged(b) && judged.states == ran.states
    requires Only(h + [judging], h', false) && judged.states == judging.states + Answers(h', |h| + 1)
    ensures JudgedWithin(b, ran, h' + [judged], |h|, |h'|) && OnlyCalls(h, h' + [judged])
  {
    hide Answers, OnlyCalls;
    var all := h' + [judged];
    BeginsWith(h, judging, h');
    forall k | |h| <= k < |all| ensures all[k] == if k < |h'| then h'[k] else judged {}
    forall k | |h| < k < |h'| ensures Loud(all[k].phase) { LoudWithin(h + [judging], h', k); }
    hide Only;
    assert all[..|h'|] == h';
    OnlyCallsToTheEnd(h, h', judged);
  }

  lemma BeginsWith(h: seq<Moment>, m: Moment, h': seq<Moment>)
    requires h + [m] <= h'
    ensures h <= h' && |h| < |h'| && h'[|h|] == m
  {
    assert (h + [m])[|h|] == m;
  }

  lemma LoudWithin(h: seq<Moment>, h': seq<Moment>, k: nat)
    requires Only(h, h', false) && |h| <= k < |h'|
    ensures Loud(h'[k].phase)
  {
  }

  lemma OnlyCallsToTheEnd(h: seq<Moment>, h': seq<Moment>, last: Moment)
    requires h <= h' && IsCall(last.phase) && forall k :: |h| <= k < |h'| ==> IsCall(h'[k].phase)
    ensures OnlyCalls(h, h' + [last])
  {
  }

  ghost function Given(why: Why, entries: seq<Entry>): set<Handed>
  {
    set e | e in entries :: Handed(why, e)
  }

  ghost function Offers(tools: seq<Tool>, why: Why, entries: seq<Entry>): set<Offer>
  {
    set t, e | t in tools && e in entries :: Offer(t, Handed(why, e))
  }

  lemma FewerGiven(why: Why, fewer: seq<Entry>, entries: seq<Entry>)
    requires forall e :: e in fewer ==> e in entries
    ensures Given(why, fewer) <= Given(why, entries)
  {
    forall h | h in Given(why, fewer) ensures h in Given(why, entries) {
      assert h.entry in entries && h == Handed(why, h.entry);
    }
  }

  lemma NothingOffered(why: Why, entries: seq<Entry>)
    ensures Offers([], why, entries) == {}
  {
  }

  lemma OfferedToOneMore(tools: seq<Tool>, t: nat, why: Why, entries: seq<Entry>)
    requires t < |tools|
    ensures Offers(tools[..t + 1], why, entries) ==
      Offers(tools[..t], why, entries) + set e | e in entries :: Offer(tools[t], Handed(why, e))
  {
    assert tools[..t + 1] == tools[..t] + [tools[t]];
    forall o: Offer
      ensures o in Offers(tools[..t + 1], why, entries) <==>
        o in Offers(tools[..t], why, entries) || o in set e | e in entries :: Offer(tools[t], Handed(why, e))
    {
      assert forall ts: seq<Tool> :: o in Offers(ts, why, entries) <==>
        o.tool in ts && o.entry.why == why && o.entry.entry in entries;
    }
  }

  /** What running the actions on the list comes to, if they are the prerequisites of the bundle. */
  lemma RanTheActions(b: Struct, ran: Ran, actions: seq<Entry>, tools: seq<Tool>, before: set<Offer>)
    requires forall a :: a in actions <==> a in PreActions(b, ran.whitelist, ran.modified)
    requires forall e :: e in b.entries ==> e in ran.states
    ensures RanPrerequisites(b, ran, tools, before, before + Offers(tools, Prerequisite, actions))
    ensures Failed(b, ran) <==> exists a | a in actions :: !ran.states[a]
    ensures OnlyPrerequisites(Given(Prerequisite, actions))
  {
    hide Touched;
    assert forall a :: a in PreActions(b, ran.whitelist, ran.modified) ==> a in b.entries && a.tag == "Action";
  }

  // ---------- the history of a run ----------

  /** The last moment of a phase. */
  ghost function LastOf(history: seq<Moment>, phase: Phase): Option<Moment>
  {
    if history == [] then None
    else
      var last := history[|history| - 1];
      if last.phase == phase then Some(last) else LastOf(history[..|history| - 1], phase)
  }

  ghost predicate Begun(history: seq<Moment>, phase: Phase)
  {
    LastOf(history, phase).Some?
  }

  /** The entries that were bad when a phase began, the last time that it did. */
  ghost function BadAt(history: seq<Moment>, phase: Phase): set<Entry>
  {
    match LastOf(history, phase)
    case None => {}
    case Some(m) => set e | e in m.states && !m.states[e]
  }

  /** What counted as modified at the last moment before only BundleNotUpdated was called any more. */
  ghost function ModifiedInTheEnd(history: seq<Moment>): seq<Entry>
  {
    if history == [] then []
    else
      var last := history[|history| - 1];
      if last.phase == Quiet then ModifiedInTheEnd(history[..|history| - 1]) else last.modified
  }

  /** Something in the bundle counted as modified at a moment from that place of the history on. */
  ghost predicate WasModified(b: Struct, history: seq<Moment>, from: nat)
  {
    exists i, e :: from <= i < |history| && e in b.entries && e in history[i].modified
  }

  ghost predicate AllWereModified(bs: seq<Struct>, history: seq<Moment>, from: nat)
  {
    forall b :: b in bs ==> WasModified(b, history, from)
  }

  lemma HoldersWereModified(bs: seq<Struct>, history: seq<Moment>, from: nat)
    requires from < |history| && forall b :: b in bs ==> Holds(b, history[|history| - 1].modified)
    ensures AllWereModified(bs, history, from)
  {
    forall b | b in bs ensures WasModified(b, history, from) {
      var e :| e in b.entries && e in history[|history| - 1].modified;
      assert from <= |history| - 1;
    }
  }

  lemma StillModified(bs: seq<Struct>, h: seq<Moment>, from: nat, h': seq<Moment>, from': nat)
    requires AllWereModified(bs, h, from) && h <= h' && from' <= from
    ensures AllWereModified(bs, h', from')
  {
    forall b | b in bs ensures WasModified(b, h', from') {
      var i, e :| from <= i < |h| && e in b.entries && e in h[i].modified;
      assert h'[i] == h[i];
    }
  }

  lemma AllOfBoth(a: seq<Struct>, b: seq<Struct>, history: seq<Moment>, from: nat)
    requires AllWereModified(a, history, from) && AllWereModified(b, history, from)
    ensures AllWereModified(a + b, history, from)
  {
    hide WasModified;
  }

  lemma BothWereModified(found: seq<Struct>, add: seq<Struct>, h0: seq<Moment>, h1: seq<Moment>, h2: seq<Moment>)
    requires h0 != [] && h0 <= h1 <= h2 && AllWereModified(add, h1, |h0| - 1)
    ensures forall from: nat :: from < |h0| && AllWereModified(found, h0, from) ==>
      AllWereModified(found + add, h2, from)
  {
    hide AllWereModified;
    forall from: nat | from < |h0| && AllWereModified(found, h0, from) ensures AllWereModified(found + add, h2, from) {
      StillModified(found, h0, from, h2, from);
      StillModified(add, h1, |h0| - 1, h2, from);
      AllOfBoth(found, add, h2, from);
    }
  }

  /** Every bundle with an entry among them is listed. */
  ghost predicate ListsAll(bundles: seq<Struct>, es: seq<Entry>, mb: seq<Struct>)
  {
    forall b, e :: b in bundles && e in b.entries && e in es ==> b in mb
  }

  lemma HoldersAreListed(bundles: seq<Struct>, es: seq<Entry>, mb: seq<Struct>)
    requires forall b :: b in bundles && Holds(b, es) ==> b in mb
    ensures ListsAll(bundles, es, mb)
  {
  }

  predicate IsCall(phase: Phase)
  {
    phase.Judging? || phase.Judged? || phase.Repairing? || phase.Called? || phase.Quiet?
  }

  /** A call that may change anything, or taking stock between such calls. */
  predicate Loud(phase: Phase)
  {
    phase.Called? || phase.Repairing?
  }

  /** From one history to a later one, nothing happened but calls of tools. */
  ghost predicate OnlyCalls(before: seq<Moment>, after: seq<Moment>)
  {
    before <= after && forall i :: |before| <= i < |after| ==> IsCall(after[i].phase)
  }

  /** All of them were quiet, or none. */
  ghost predicate Only(before: seq<Moment>, after: seq<Moment>, quiet: bool)
  {
    before <= after && forall i :: |before| <= i < |after| ==>
      if quiet then after[i].phase == Quiet else Loud(after[i].phase)
  }

  /** A phase began at this moment, and nothing happened since but calls of tools. */
  ghost predicate Since(before: seq<Moment>, m: Moment, after: seq<Moment>)
  {
    OnlyCalls(before + [m], after)
  }

  /** What the tools reported from that place of the history on, later answers before earlier ones. */
  ghost function Answers(history: seq<Moment>, from: nat): map<Entry, bool>
  {
    if |history| <= from then map[] else Answers(history[..|history| - 1], from) + history[|history| - 1].answers
  }

  lemma NoAnswers(history: seq<Moment>)
    ensures Answers(history, |history|) == map[]
  {
  }

  lemma AnswersOfOne(history: seq<Moment>, m: Moment)
    ensures Answers(history + [m], |history|) == m.answers
  {
    assert (history + [m])[..|history|] == history;
  }

  lemma {:induction false} AnswersInARow(a: seq<Moment>, b: seq<Moment>, c: seq<Moment>)
    requires Only(a, b, false) && Only(b, c, false)
    ensures Answers(c, |a|) == Answers(b, |a|) + Answers(c, |b|)
    decreases |c|
  {
    if |c| > |b| {
      AnswersInARow(a, b, c[..|c| - 1]);
    } else {
      assert c == b;
    }
  }

  lemma NothingModified(bundles: seq<Struct>)
    ensures forall b :: b in bundles ==> !Holds(b, [])
  {
  }

  lemma NoneHold(bs: seq<Struct>)
    ensures (forall b :: b in bs ==> Holds(b, [])) ==> bs == []
  {
    if bs != [] { assert bs[0] in bs && !Holds(bs[0], []); }
  }

  lemma MoreAnswers(states: map<Entry, bool>, a: map<Entry, bool>, b: map<Entry, bool>)
    ensures states + a + b == states + (a + b)
  {
  }

  ghost function AllBad(config: seq<Struct>): map<Entry, bool>
  {
    map e | e in EntriesOf(config) :: false
  }

  /** After an inventory an entry of the configuration is bad unless a tool reported it as good. */
  lemma BadUnlessReported(config: seq<Struct>, before: map<Entry, bool>, answers: map<Entry, bool>, b: Struct, e: Entry)
    requires b in config && e in b.entries
    ensures var states := before + AllBad(config) + answers;
      e in states && (states[e] <==> e in answers && answers[e])
  {
  }

  lemma NoCalls(history: seq<Moment>)
    ensures OnlyCalls(history, history)
  {
  }

  lemma OnlyNothing(history: seq<Moment>, quiet: bool)
    ensures Only(history, history, quiet)
  {
  }

  lemma CallsInARow(a: seq<Moment>, b: seq<Moment>, c: seq<Moment>)
    requires OnlyCalls(a, b) && OnlyCalls(b, c)
    ensures OnlyCalls(a, c)
  {
  }

  lemma OnlyInARow(a: seq<Moment>, b: seq<Moment>, c: seq<Moment>, quiet: bool)
    requires Only(a, b, quiet) && Only(b, c, quiet)
    ensures Only(a, c, quiet)
  {
  }

  lemma OnlyGrows(a: seq<Moment>, b: seq<Moment>, quiet: bool)
    requires Only(a, b, quiet)
    ensures a <= b
  {
  }

  lemma StockIsLoud(a: seq<Moment>, b: seq<Moment>, m: Moment)
    requires Only(a, b, false) && m.phase == Repairing
    ensures Only(a, b + [m], false)
  {
  }

  lemma {:induction false} LastBeforeCalls(before: seq<Moment>, after: seq<Moment>, phase: Phase)
    requires OnlyCalls(before, after) && !IsCall(phase)
    ensures LastOf(after, phase) == LastOf(before, phase)
  {
    if |after| > |before| {
      LastBeforeCalls(before, after[..|after| - 1], phase);
    } else {
      assert after == before;
    }
  }

  /** Calls of tools begin no phase. */
  lemma CallsAreNoPhase(before: seq<Moment>, after: seq<Moment>)
    requires Only(before, after, false)
    ensures before <= after
    ensures Begun(after, Important) == Begun(before, Important) && BadAt(after, Important) == BadAt(before, Important)
    ensures Begun(after, Deciding) == Begun(before, Deciding) && BadAt(after, Deciding) == BadAt(before, Deciding)
  {
    LastBeforeCalls(before, after, Important);
    LastBeforeCalls(before, after, Deciding);
  }

  lemma {:induction false} QuietChangesNothing(before: seq<Moment>, after: seq<Moment>)
    requires Only(before, after, true)
    ensures ModifiedInTheEnd(after) == ModifiedInTheEnd(before)
  {
    if |after| > |before| {
      QuietChangesNothing(before, after[..|after| - 1]);
    } else {
      assert after == before;
    }
  }

  /** A phase that began is the last of its kind until it begins again; the others are as they were. */
  lemma PhaseIsLast(before: seq<Moment>, m: Moment, after: seq<Moment>)
    requires Since(before, m, after) && !IsCall(m.phase)
    ensures before <= after
    ensures Begun(after, m.phase) && forall e :: e in BadAt(after, m.phase) <==> e in m.states && !m.states[e]
    ensures m.phase != Important ==>
      Begun(after, Important) == Begun(before, Important) && BadAt(after, Important) == BadAt(before, Important)
    ensures m.phase != Deciding ==>
      Begun(after, Deciding) == Begun(before, Deciding) && BadAt(after, Deciding) == BadAt(before, Deciding)
  {
    LastBeforeCalls(before + [m], after, m.phase);
    LastBeforeCalls(before + [m], after, Important);
    LastBeforeCalls(before + [m], after, Deciding);
    assert (before + [m])[..|before|] == before;
  }

  // ---------- the client ----------

  /** The chosen entries in the order of the bundle, or of a prompt. */
  ghost predicate InPromptOrder(setup: Setup, b: Struct, chosen: set<Entry>, entries: seq<Entry>)
  {
    entries == if setup.interactive then PromptOrder(Keep(b.entries, chosen)) else Keep(b.entries, chosen)
  }

  /** But for the early files, tools are handed exactly the entries offered to them that they can install. */
  ghost predicate Answered(offered: set<Offer>, able: set<Offer>, handed: set<Handed>)
  {
    && able <= offered && (forall o :: o in able ==> o.entry in handed)
    && forall h :: h in handed && !h.why.Early? ==> exists t :: Offer(t, h) in able
  }

  lemma AnswersToOffers(offered: set<Offer>, able: set<Offer>, handed: set<Handed>, t: Tool, why: Why,
                        entries: seq<Entry>, list: seq<Entry>)
    requires Answered(offered, able, handed) && forall e :: e in list ==> e in entries
    ensures Answered(offered + set e | e in entries :: Offer(t, Handed(why, e)),
      able + set e | e in list :: Offer(t, Handed(why, e)), handed + Given(why, list))
  {
    var o, a, h := offered + set e | e in entries :: Offer(t, Handed(why, e)),
      able + set e | e in list :: Offer(t, Handed(why, e)), handed + Given(why, list);
    forall x | x in h && !x.why.Early? ensures exists t' :: Offer(t', x) in a {
      if x in handed {
        var t' :| Offer(t', x) in able;
        assert Offer(t', x) in a;
      } else {
        assert Offer(t, x) in a;
      }
    }
  }

  lemma NothingGiven(why: Why, handed: set<Handed>)
    ensures handed + Given(why, []) == handed
  {
  }

  lemma EarlyAnswers(offered: set<Offer>, able: set<Offer>, handed: set<Handed>, e: Entry)
    requires Answered(offered, able, handed)
    ensures Answered(offered, able, handed + {Handed(Early, e)})
  {
  }

  class Client {
    const setup: Setup
    const glob: (string, string) -> bool
    const tools: seq<Tool>
    /** The names of the files that the tools want installed first, and which tool can verify which entry. */
    const important: set<string>
    const verifies: (Tool, Entry) -> bool
    var config: seq<Struct>
    var states: map<Entry, bool>
    var whitelist: seq<Entry>
    var blacklist: seq<Entry>
    var removal: seq<Entry>
    /** What the tools find on the machine that no entry asks for. */
    var extra: seq<Entry>
    /** The entries that the tools report as modified; theirs to change at any call. */
    var modified: seq<Entry>
    /** What was recorded of the run: its moments, what was offered to tools and what they were handed to install. */
    ghost var history: seq<Moment>
    ghost var offered: set<Offer>
    /** The offers to tools that said that they can install the entry. */
    ghost var able: set<Offer>
    ghost var handed: set<Handed>
    /** The files that left the whitelist early: verified after they were installed, or declined at the prompt. */
    ghost var verified: set<Entry>
    ghost var declined: set<Entry>
    /** For each bundle, what its prerequisite actions were run on and how the states were right after. */
    ghost var verdicts: map<Struct, Ran>
    /** What the tools were told about bundles. */
    ghost var notes: multiset<Note>

    /** Elements are distinct, and every entry of the configuration has a state. */
    ghost predicate Valid()
      reads this
    {
      && Distinct(tools) && Distinct(config) && Distinct(whitelist)
      && EntriesOf(config) <= states.Keys && Recorded()
    }

    /** The history is up to date about what is modified, and so is what tools were handed. */
    ghost predicate Recorded()
      reads this`history, this`modified, this`offered, this`able, this`handed
    {
      history != [] && history[|history| - 1].modified == modified && Answered(offered, able, handed)
    }

    ghost predicate Bad(e: Entry)
      reads this`states
    {
      e in states && !states[e]
    }

    constructor (setup: Setup, glob: (string, string) -> bool, tools: seq<Tool>, important: set<string>,
                 verifies: (Tool, Entry) -> bool, config: seq<Struct>)
      requires Distinct(tools) && Distinct(config)
      ensures this.setup == setup && this.tools == tools && this.config == config && this.glob == glob
      ensures this.important == important && this.verifies == verifies
      ensures states == map[] && whitelist == blacklist == removal == [] && Recorded()
      ensures handed == {} && offered == able == {} && verified == declined == {} && verdicts == map[]
      ensures notes == multiset{}
    {
      this.setup, this.glob, this.tools, this.config := setup, glob, tools, config;
      this.important, this.verifies := important, verifies;
      states, whitelist, blacklist, removal, extra, modified := map[], [], [], [], [], [];
      history, offered, able, handed := [Moment(Began, map[], [], [], map[])], {}, {}, {};
      verdicts, notes := map[], multiset{};
      verified, declined := {}, {};
    }

    // ----- the tools -----

    /** Any call to a tool: it may raise, report any states, and change what counts as modified. */
    method CallTool(ghost phase: Phase) returns (reported: map<Entry, bool>)
      modifies this`modified, this`history
      ensures history == old(history) + [Moment(phase, states, modified, whitelist, reported)]
    {
      modified := *;
      var raised: bool := *;
      reported := *;
      if raised { reported := map[]; }
      history := history + [Moment(phase, states, modified, whitelist, reported)];
    }

    /** `self.states.update(tool.call(...))` with the exception swallowed. */
    method UpdateFromTool(ghost quiet: bool)
      requires Answered(offered, able, handed)
      modifies this`modified, this`states, this`history
      ensures states.Keys >= old(states.Keys) && Recorded() && Only(old(history), history, quiet)
      ensures states == old(states) + Answers(history, |old(history)|) && |history| == |old(history)| + 1
    {
      var reported := CallTool(if quiet then Quiet else Called);
      AnswersOfOne(old(history), history[|history| - 1]);
      states := states + reported;
    }

    /** Asks about each entry; entries no tool handles are skipped, and the answers are arbitrary. */
    method PromptFilter(entries: seq<Entry>) returns (ordered: seq<Entry>, ret: seq<Entry>, ghost agreed: set<Entry>)
      ensures ordered == PromptOrder(entries) && ret == Keep(ordered, agreed)
      ensures forall e :: e in ret ==> e in entries
      ensures Distinct(entries) ==> Distinct(ret)
    {
      var answers: set<Entry> := *;
      ordered := PromptOrder(entries);
      ret := Keep(ordered, answers);
      agreed := answers;
    }

    /** Offers the entries to every tool in turn; each is handed those that it says it can install. */
    method DispatchInstallCalls(entries: seq<Entry>, ghost why: Why)
      requires Recorded()
      modifies this`modified, this`states, this`history, this`offered, this`able, this`handed
      ensures states.Keys >= old(states.Keys) && Recorded() && Only(old(history), history, false)
      ensures old(handed) <= handed <= old(handed) + Given(why, entries)
      ensures offered == old(offered) + Offers(tools, why, entries)
      ensures states == old(states) + Answers(history, |old(history)|)
    {
      hide Only, Given, Offers, Answers, Answered;
      OnlyNothing(history, false);
      NoAnswers(history);
      NothingOffered(why, entries);
      assert tools[..0] == [];
      for t := 0 to |tools|
        invariant states.Keys >= old(states.Keys) && Recorded() && Only(old(history), history, false)
        invariant old(handed) <= handed <= old(handed) + Given(why, entries)
        invariant offered == old(offered) + Offers(tools[..t], why, entries)
        invariant states == old(states) + Answers(history, |old(history)|)
      {
        var installable: set<Entry> := *;
        var list := Keep(entries, installable);
        OfferedToOneMore(tools, t, why, entries);
        AnswersToOffers(offered, able, handed, tools[t], why, entries, list);
        NothingGiven(why, handed);
        offered := offered + set e | e in entries :: Offer(tools[t], Handed(why, e));
        able := able + set e | e in list :: Offer(tools[t], Handed(why, e));
        if list != [] {
          FewerGiven(why, list, entries);
          handed := handed + Given(why, list);
          ghost var before := history;
          UpdateFromTool(false);
          OnlyInARow(old(history), before, history, false);
          AnswersInARow(old(history), before, history);
          MoreAnswers(old(states), Answers(before, |old(history)|), Answers(history, |before|));
        }
      }
      assert tools[..|tools|] == tools;
    }

    // ----- the phases -----

    /** Every entry starts as bad, and the tools then report what they find. */
    method Inventory()
      requires Distinct(tools) && Distinct(config) && Distinct(whitelist) && Recorded()
      modifies this`modified, this`states, this`history
      ensures Valid() && states.Keys >= old(states.Keys) && Only(old(history), history, false)
      ensures states == old(states) + AllBad(config) + Answers(history, |old(history)|)
      ensures |history| == |old(history)| + |tools|
    {
      hide Only, Answers, EntriesOf, Distinct;
      OnlyNothing(history, false);
      NoAnswers(history);
      states := states + map e | e in EntriesOf(config) :: false;
      assert states == old(states) + AllBad(config) + map[];
      hide AllBad;
      for t := 0 to |tools|
        invariant Valid() && states.Keys >= old(states.Keys) && Only(old(history), history, false)
        invariant states == old(states) + AllBad(config) + Answers(history, |old(history)|)
        invariant |history| == |old(history)| + t
      {
        ghost var before := history;
        UpdateFromTool(false);
        OnlyInARow(old(history), before, history, false);
        AnswersInARow(old(history), before, history);
        MoreAnswers(old(states) + AllBad(config), Answers(before, |old(history)|), Answers(history, |before|));
      }
    }

    /** Lists a set: the iteration order of a dict is not specified. */
    method Listed(s: set<Entry>) returns (r: seq<Entry>)
      ensures Distinct(r) && forall e :: e in r <==> e in s
    {
      r := [];
      var rest := s;
      while rest != {}
        invariant Distinct(r) && rest <= s && forall e :: e in r <==> e in s && e !in rest
        decreases rest
      {
        var e :| e in rest;
        rest, r := rest - {e}, r + [e];
      }
    }

    /** `[e for e in self.states if not self.states[e]]` */
    method BadEntries() returns (r: seq<Entry>)
      ensures Distinct(r) && forall e :: e in r <==> Bad(e)
    {
      r := Listed(set e | e in states && !states[e]);
    }

    /**
     The whitelist becomes the bad entries that the decision list allows, and the
     important ones among them are installed straight away. What was bad and is allowed
     is on the whitelist afterwards, unless it was verified or declined in between.
     */
    method InstallImportant()
      requires Valid() && verified == declined == {}
      modifies this`modified, this`states, this`whitelist, this`history, this`handed, this`verified, this`declined
      ensures Valid() && EarlyInstalls(old(states), old(handed))
      ensures !setup.dryRun && !setup.interactive ==>
        forall p :: p in config && EarlyParent(setup, p) ==> EarlyDone(old(states), p, handed)
      ensures Since(old(history), Moment(Important, old(states), old(modified), old(whitelist), map[]), history)
    {
      hide OnlyCalls, Answers, EarlyParent, Suppressed, Urgent, EntriesOf, Distinct, EarlyState;
      ghost var began := Moment(Important, states, modified, whitelist, map[]);
      history := history + [began];
      NoCalls(history);
      var bad := BadEntries();
      whitelist := Keep(bad, set e | e in bad && !Suppressed(glob, setup, e));
      EarlyBegins(states, handed, whitelist);
      if setup.dryRun && !setup.onlyImportant { return; }
      for i := 0 to |config|
        invariant Valid() && EarlyInstalls(old(states), old(handed)) && Since(old(history), began, history)
        invariant !setup.dryRun && !setup.interactive ==>
          forall j :: 0 <= j < i && EarlyParent(setup, config[j]) ==> EarlyDone(old(states), config[j], handed)
      {
        if EarlyParent(setup, config[i]) {
          ghost var before := history;
          InstallImportantOf(config[i], old(states), old(handed));
          CallsInARow(old(history) + [began], before, history);
        }
      }
    }

    /** The body of the loop over the bundles: each of its files in turn. */
    method InstallImportantOf(parent: Struct, ghost before: map<Entry, bool>, ghost done: set<Handed>)
      requires Valid() && EarlyInstalls(before, done)
      modifies this`modified, this`states, this`whitelist, this`history, this`handed, this`verified, this`declined
      ensures Valid() && EarlyInstalls(before, done) && OnlyCalls(old(history), history) && handed >= old(handed)
      ensures !setup.dryRun && !setup.interactive ==> EarlyDone(before, parent, handed)
    {
      hide OnlyCalls, EarlyInstalls, Valid;
      NoCalls(history);
      for k := 0 to |parent.entries|
        invariant Valid() && EarlyInstalls(before, done) && OnlyCalls(old(history), history) && handed >= old(handed)
        invariant !setup.dryRun && !setup.interactive ==>
          forall j :: 0 <= j < k && Urgent(parent.entries[j]) && Allowed(before, parent.entries[j]) ==>
            Handed(Early, parent.entries[j]) in handed
      {
        ghost var then_ := history;
        ghost var _ := InstallIfImportant(parent.entries[k], before, done);
        CallsInARow(old(history), then_, history);
      }
    }

    /** The entry was bad and the decision list allows touching it. */
    ghost predicate Allowed(before: map<Entry, bool>, e: Entry)
    {
      e in before && !before[e] && !Suppressed(glob, setup, e)
    }

    /** A file that some tool wants installed first and some tool can verify. */
    ghost predicate Urgent(e: Entry)
    {
      e.tag == "Path" && e.kind == "file" && e.name in important && exists t :: t in tools && verifies(t, e)
    }

    /** Every such file of the bundle that may be touched has been handed to a tool. */
    ghost predicate EarlyDone(before: map<Entry, bool>, p: Struct, given: set<Handed>)
    {
      forall e :: e in p.entries && Urgent(e) && Allowed(before, e) ==> Handed(Early, e) in given
    }

    /**
     The whitelist holds exactly what was bad and is allowed, but for the files that were
     verified after they were handed to a tool, or declined; nothing else was touched.
     */
    ghost predicate EarlyInstalls(before: map<Entry, bool>, done: set<Handed>)
      reads this
    {
      EarlyState(before, done, states, whitelist, handed, verified, declined)
    }

    ghost predicate EarlyState(before: map<Entry, bool>, done: set<Handed>, now: map<Entry, bool>, listed: seq<Entry>,
                               given: set<Handed>, good: set<Entry>, refused: set<Entry>)
    {
      && now.Keys == before.Keys
      && (forall e :: e in listed <==> Allowed(before, e) && e !in good && e !in refused)
      && (forall e :: e in now && !Allowed(before, e) ==> now[e] == before[e])
      && (forall h :: h in given - done ==>
            h.why.Early? && Urgent(h.entry) && Allowed(before, h.entry) && !setup.dryRun)
      && (forall e :: e in good ==> Handed(Early, e) in given)
      && (forall e :: e in refused ==> Urgent(e) && setup.interactive)
      && done <= given
    }

    lemma EarlyBegins(before: map<Entry, bool>, given: set<Handed>, listed: seq<Entry>)
      requires forall e :: e in listed <==> Allowed(before, e)
      ensures EarlyState(before, given, before, listed, given, {}, {})
    {
    }

    lemma EarlyGiven(before: map<Entry, bool>, done: set<Handed>, now: map<Entry, bool>, listed: seq<Entry>,
                     given: set<Handed>, good: set<Entry>, refused: set<Entry>, e: Entry, result: Option<bool>)
      requires EarlyState(before, done, now, listed, given, good, refused)
      requires Urgent(e) && e in listed && !setup.dryRun
      ensures EarlyState(before, done, if result.Some? then now[e := result.value] else now, listed,
                given + {Handed(Early, e)}, good, refused)
      ensures e in now
    {
      hide Urgent, Suppressed;
    }

    lemma EarlyLeft(before: map<Entry, bool>, done: set<Handed>, now: map<Entry, bool>, listed: seq<Entry>,
                    given: set<Handed>, good: set<Entry>, refused: set<Entry>, e: Entry, verifies: bool)
      requires EarlyState(before, done, now, listed, given, good, refused) && Distinct(listed)
      requires if verifies then Handed(Early, e) in given else Urgent(e) && setup.interactive
      ensures EarlyState(before, done, now, RemoveFirst(listed, e), given,
                if verifies then good + {e} else good, if verifies then refused else refused + {e})
      ensures Distinct(RemoveFirst(listed, e))
    {
      hide Urgent, Suppressed, RemoveFirst, Distinct;
    }

    lemma StillAllowed(before: map<Entry, bool>, done: set<Handed>, now: map<Entry, bool>, listed: seq<Entry>,
                       given: set<Handed>, good: set<Entry>, refused: set<Entry>, e: Entry)
      requires EarlyState(before, done, now, listed, given, good, refused) && e !in listed && Allowed(before, e)
      ensures Handed(Early, e) in given || setup.interactive
    {
      hide Urgent, Suppressed;
    }

    /** The body of the loop over the files; what the tools do is arbitrary. */
    method InstallIfImportant(cfile: Entry, ghost before: map<Entry, bool>, ghost done: set<Handed>)
      returns (ghost answer: Option<bool>)
      requires Valid() && EarlyInstalls(before, done)
      modifies this`modified, this`states, this`whitelist, this`history, this`handed, this`verified, this`declined
      ensures Valid() && EarlyInstalls(before, done) && OnlyCalls(old(history), history) && handed >= old(handed)
      ensures !setup.dryRun && !setup.interactive && Urgent(cfile) && Allowed(before, cfile) ==>
        Handed(Early, cfile) in handed
      ensures answer == Some(true) ==> Handed(Early, cfile) in handed && declined == old(declined)
      ensures answer == Some(false) ==> handed == old(handed) && declined == old(declined) + {cfile}
      ensures answer.Some? <==> setup.interactive && !setup.dryRun && Urgent(cfile) && old(cfile in whitelist)
    {
      answer := None;
      hide Keep, RemoveFirst, PromptOrder, Suppressed, Distinct, EntriesOf, EarlyState, Urgent, Allowed, OnlyCalls;
      NoCalls(history);
      UrgentMeans(cfile);
      if cfile.tag != "Path" || cfile.name !in important || cfile.kind != "file" { return; }
      if cfile !in whitelist {
        if Allowed(before, cfile) {
          StillAllowed(before, done, states, whitelist, handed, verified, declined, cfile);
        }
        return;
      }
      var willing := Keep(tools, set t | t in tools && verifies(t, cfile));
      assert willing == [] ==> forall t :: t in tools && verifies(t, cfile) ==> t in willing;
      assert willing != [] ==> willing[0] in willing;
      if willing == [] || setup.dryRun { return; }
      if setup.interactive {
        var _, agreed, yes := PromptFilter([cfile]);
        answer := Some(cfile in yes);
        OneAsked(cfile, yes);
        if agreed == [] {
          EarlyLeft(before, done, states, whitelist, handed, verified, declined, cfile, false);
          whitelist := RemoveFirst(whitelist, cfile);
          declined := declined + {cfile};
          return;
        }
      }
      InstallFile(cfile, before, done);
      var good: bool := *;
      if good {
        EarlyLeft(before, done, states, whitelist, handed, verified, declined, cfile, true);
        whitelist := RemoveFirst(whitelist, cfile);
        verified := verified + {cfile};
      }
    }

    lemma OneAsked(e: Entry, yes: set<Entry>)
      ensures Keep(PromptOrder([e]), yes) == [] <==> e !in yes
    {
      var kept := Keep(PromptOrder([e]), yes);
      assert kept != [] ==> kept[0] in kept;
      assert e in yes ==> e in kept;
    }

    lemma UrgentMeans(e: Entry)
      ensures Urgent(e) <==>
        e.tag == "Path" && e.kind == "file" && e.name in important && exists t :: t in tools && verifies(t, e)
    {
    }

    /** `self.states[cfile] = tools[0].InstallPath(cfile)`, which may raise. */
    method InstallFile(cfile: Entry, ghost before: map<Entry, bool>, ghost done: set<Handed>)
      requires Valid() && EarlyInstalls(before, done) && Urgent(cfile) && cfile in whitelist && !setup.dryRun
      modifies this`modified, this`states, this`history, this`handed
      ensures Valid() && EarlyInstalls(before, done) && OnlyCalls(old(history), history)
      ensures handed == old(handed) + {Handed(Early, cfile)}
      ensures |history| == |old(history)| + 1 && var answers := history[|old(history)|].answers;
        states == old(states) + answers && answers.Keys <= {cfile} && (cfile in answers && answers[cfile] ==>
        cfile in modified)
    {
      hide Suppressed, Distinct, EntriesOf, EarlyState, Urgent;
      var good: Option<bool> := *;
      modified := *;
      EarlyGiven(before, done, states, whitelist, handed, verified, declined, cfile, good);
      EarlyAnswers(offered, able, handed, cfile);
      handed := handed + {Handed(Early, cfile)};
      if good.Some? {
        states := states[cfile := good.value];
        if good.value { modified := modified + [cfile]; }
      }
      history := history +
        [Moment(Called, states, modified, whitelist, if good.Some? then map[cfile := good.value] else map[])];
    }

    /**
     What there is to decide about: the extra entries of the kind to be removed and what is bad;
     nothing in a dry run.
     */
    method PrepareLists() returns (candidates: seq<Entry>)
      modifies this`whitelist, this`removal, this`extra
      ensures whitelist == if setup.dryRun then [] else old(whitelist)
      ensures removal == if setup.dryRun then [] else if setup.remove.NoRemoval? then old(removal)
        else ToRemove(setup.remove, extra)
      ensures forall e :: e in candidates <==> Bad(e)
    {
      if setup.remove != NoRemoval {
        extra := *;
        removal := ToRemove(setup.remove, extra);
      }
      candidates := BadEntries();
      if setup.dryRun { whitelist, removal := [], []; }
    }

    /**
     Decides what Install may touch: the whitelist loses the entries of bundles that
     are not selected, of bundles whose prerequisites failed, and those the user
     declines; exactly what was bad and is not on it ends up on the blacklist.
     */
    method Decide()
      returns (ghost passed: seq<Entry>, ghost unwanted: seq<Entry>, ghost yes: set<Entry>, ghost gone: set<Entry>)
      requires Valid() && verdicts == map[]
      modifies this`config, this`modified, this`states, this`whitelist, this`blacklist, this`removal, this`extra
      modifies this`history, this`offered, this`able, this`handed, this`verdicts
      ensures Valid() && states.Keys >= old(states.Keys)
      ensures Since(old(history), Moment(Deciding, old(states), old(modified), old(whitelist), map[]), history)
      ensures handed >= old(handed) && OnlyPrerequisites(handed - old(handed))
      ensures Decided(setup, old(config), if setup.dryRun then [] else old(whitelist), config, passed, verdicts)
      ensures whitelist == if setup.interactive then Keep(PromptOrder(passed), yes) else passed
      ensures forall e :: e in whitelist ==> e in old(whitelist)
      ensures forall e :: e in blacklist <==> e in old(blacklist) || (old(Bad(e)) && e !in whitelist)
      ensures NoneOfFailed(verdicts, whitelist) && AllWereRun(verdicts, tools, offered, history)
      ensures HaveVerdicts(setup, old(config), verdicts)
      ensures unwanted ==
        if setup.dryRun then [] else if setup.remove.NoRemoval? then old(removal) else ToRemove(setup.remove, extra)
      ensures removal == if setup.interactive then Keep(PromptOrder(unwanted), gone) else unwanted
    {
      hide NoneOfFailed, Keep, Decided, OnlyPrerequisites, ToRemove, EntriesOf, AllWereRun, OnlyCalls, HaveVerdicts,
        ForcedOff, Selected, Failed, Answered, PromptOrder;
      ghost var began := Moment(Deciding, states, modified, whitelist, map[]);
      history := history + [began];
      var candidates := PrepareLists();
      ghost var allowed := whitelist;
      FilterBundles();
      DecidedShrinks(setup, old(config), allowed, config, whitelist, verdicts);
      NoneOfFailedIsLeft(setup, old(config), allowed, config, whitelist, verdicts);
      passed, unwanted := whitelist, removal;
      yes, gone := SettleLists(candidates);
      NoneOfFailedInFewer(verdicts, passed, whitelist);
    }

    /** What the user declines leaves the whitelist, and what is bad and not on it goes on the blacklist. */
    method SettleLists(candidates: seq<Entry>) returns (ghost yes: set<Entry>, ghost gone: set<Entry>)
      requires Distinct(whitelist)
      modifies this`whitelist, this`blacklist, this`removal
      ensures setup.interactive ==> whitelist == Keep(PromptOrder(old(whitelist)), yes)
      ensures setup.interactive ==> removal == Keep(PromptOrder(old(removal)), gone)
      ensures Distinct(whitelist) && forall e :: e in whitelist ==> e in old(whitelist)
      ensures !setup.interactive ==> whitelist == old(whitelist) && removal == old(removal)
      ensures forall e :: e in removal ==> e in old(removal)
      ensures forall e :: e in blacklist <==> e in old(blacklist) || (e in candidates && e !in whitelist)
    {
      yes, gone := {}, {};
      if setup.interactive {
        var _, w, agreed := PromptFilter(whitelist);
        var _, r, remove := PromptFilter(removal);
        whitelist, removal, yes, gone := w, r, agreed, remove;
      }
      blacklist := blacklist + Keep(candidates, set e | e in candidates && e !in whitelist);
    }

    /**
     Bundle selection and the prerequisite actions. Without -b and -B the list of bundles is the
     configuration itself.
     */
    method FilterBundles()
      requires Valid() && verdicts == map[]
      modifies this`config, this`modified, this`states, this`whitelist, this`history, this`offered, this`able,
        this`handed,
        this`verdicts
      ensures Valid() && states.Keys >= old(states.Keys) && OnlyCalls(old(history), history)
      ensures handed >= old(handed) && OnlyPrerequisites(handed - old(handed))
      ensures Decided(setup, old(config), old(whitelist), config, whitelist, verdicts)
      ensures AllWereRun(verdicts, tools, offered, history) && HaveVerdicts(setup, old(config), verdicts)
    {
      hide Keep, SelectedBundles, EntriesOf, Filtered, Decided, ProcessedBundle, Distinct, OnlyCalls, AllWereRun,
        HaveVerdicts;
      var aliased := setup.onlyBundles == [] && setup.exceptBundles == [];
      var bundles := SelectedBundles(setup, config);
      whitelist := Keep(whitelist, EntriesOf(bundles));
      var snapshot := bundles;
      ghost var started := whitelist;
      FilterStart(setup, config, old(whitelist), started);
      NoCalls(history);
      NoVerdicts(tools, offered, history, whitelist);
      for i := 0 to |snapshot|
        invariant states.Keys >= old(states.Keys) && Recorded() && OnlyCalls(old(history), history)
        invariant handed >= old(handed) && OnlyPrerequisites(handed - old(handed))
        invariant Filtered(snapshot, i, started, whitelist, verdicts, bundles) && Distinct(whitelist)
        invariant AllWereRun(verdicts, tools, offered, history)
        invariant config == if aliased then bundles else old(config)
      {
        ghost var w, v, bs, h, before := whitelist, verdicts, bundles, handed, history;
        Tracked(old(config), states.Keys, snapshot[i]);
        bundles := ProcessBundle(snapshot[i], bundles, aliased);
        FilterStep(snapshot, i, started, w, v, bs, whitelist, verdicts, bundles);
        StillPrerequisites(old(handed), h, handed);
        CallsInARow(old(history), before, history);
      }
      FilterEnd(setup, old(config), old(whitelist), started, whitelist, verdicts, bundles, config);
      DecidedHaveVerdicts(setup, old(config), old(whitelist), config, whitelist, verdicts);
    }

    /** The body of the loop over the bundles: a bundle whose prerequisites fail is forced off. */
    method ProcessBundle(bundle: Struct, bundles: seq<Struct>, aliased: bool) returns (rest: seq<Struct>)
      requires Distinct(whitelist) && Recorded() && forall e :: e in bundle.entries ==> e in states
      requires aliased ==> config == bundles
      requires AllWereRun(verdicts, tools, offered, history)
      modifies this`config, this`modified, this`states, this`whitelist, this`history, this`offered, this`able,
        this`handed,
        this`verdicts
      ensures states.Keys >= old(states.Keys) && Distinct(whitelist) && Recorded() && OnlyCalls(old(history), history)
      ensures handed >= old(handed) && OnlyPrerequisites(handed - old(handed))
      ensures ProcessedBundle(bundle, old(whitelist), old(verdicts), bundles, whitelist, verdicts, rest)
      ensures bundle.tag == "Bundle" ==> verdicts[bundle] == Ran(old(whitelist), old(modified), states)
      ensures RanPrerequisites(bundle, Ran(old(whitelist), old(modified), states), tools, old(offered), offered)
      ensures AllWereRun(verdicts, tools, offered, history)
      ensures config == if aliased then rest else old(config)
    {
      hide RemoveFirst, PreActions, Failed, AllWereRun, JudgedWithin, RanPrerequisites;
      rest := bundles;
      var ok := RunPrerequisites(bundle);
      OneMoreWasRun(old(verdicts), bundle, Ran(whitelist, old(modified), states), tools,
        old(offered), offered, old(history), history);
      if bundle.tag == "Bundle" && !ok {
        rest := RemoveFirst(rest, bundle);
        if aliased { config := rest; }
        DropFromWhitelist(bundle);
      }
    }

    /** Runs the actions that a bundle wants run first, whether or not they are on the whitelist. */
    method RunPrerequisites(bundle: Struct) returns (ok: bool)
      requires Recorded() && forall e :: e in bundle.entries ==> e in states
      modifies this`modified, this`states, this`history, this`offered, this`able, this`handed, this`verdicts
      ensures states.Keys >= old(states.Keys) && Recorded() && OnlyCalls(old(history), history)
      ensures handed >= old(handed) && OnlyPrerequisites(handed - old(handed))
      ensures RanPrerequisites(bundle, Ran(whitelist, old(modified), states), tools, old(offered), offered)
      ensures exists i, j :: JudgedWithin(bundle, Ran(whitelist, old(modified), states), history, i, j)
      ensures ok <==> !Failed(bundle, Ran(whitelist, old(modified), states))
      ensures verdicts ==
        if bundle.tag == "Bundle" then old(verdicts)[bundle := Ran(whitelist, old(modified), states)] else old(verdicts)
    {
      hide Only, OnlyCalls, Offers, Given, Failed, RanPrerequisites, PreActions, JudgedWithin, InPromptOrder,
        Answered;
      ghost var judging := Moment(Judging(bundle), states, modified, whitelist, map[]);
      history := history + [judging];
      var actions := ActionsToRun(bundle);
      DispatchInstallCalls(actions, Prerequisite);
      ok := forall a :: a in actions ==> states[a];
      ghost var then_, judged := history, Moment(Judged(bundle), states, modified, whitelist, map[]);
      history := history + [judged];
      ghost var ran := Ran(whitelist, old(modified), states);
      RanTheActions(bundle, ran, actions, tools, old(offered));
      IsOnRecord(bundle, ran, old(history), judging, then_, judged);
      assert JudgedWithin(bundle, ran, history, |old(history)|, |then_|);
      if bundle.tag == "Bundle" { verdicts := verdicts[bundle := ran]; }
    }

    /** The prompt for them only orders the actions: what it returns is sorted, but none is left out. */
    method ActionsToRun(bundle: Struct) returns (actions: seq<Entry>)
      ensures forall a :: a in actions <==> a in PreActions(bundle, whitelist, modified)
      ensures forall a :: a in actions ==> a in bundle.entries
      ensures InPromptOrder(setup, bundle, PreActions(bundle, whitelist, modified), actions)
    {
      var bmodified := Touched(bundle, whitelist, modified);
      actions := Keep(bundle.entries, set a | a in bundle.entries && PreAction(a, bmodified));
      if setup.interactive {
        var ordered, _, _ := PromptFilter(actions);
        actions := ordered;
      }
    }

    /** Takes the entries of a bundle off the whitelist, one after the other. */
    method DropFromWhitelist(bundle: Struct)
      requires Distinct(whitelist)
      modifies this`whitelist
      ensures Distinct(whitelist) && forall e :: e in whitelist <==> e in old(whitelist) && e !in bundle.entries
    {
      var drop := Keep(whitelist, set e | e in whitelist && e in bundle.entries);
      for i := 0 to |drop|
        invariant Distinct(whitelist)
        invariant forall e :: e in whitelist <==> e in old(whitelist) && e !in drop[..i]
      {
        whitelist := RemoveFirst(whitelist, drop[i]);
      }
      assert drop[..|drop|] == drop;
    }

    /** Tells every tool about one bundle. */
    method TellTools(b: Struct, updated: bool)
      requires Distinct(tools) && Recorded()
      modifies this`modified, this`states, this`history, this`notes
      ensures states.Keys >= old(states.Keys) && Recorded() && Only(old(history), history, !updated)
      ensures Told(old(notes), notes, tools, if updated then {b} else {}, if updated then {} else {b})
      ensures |history| == |old(history)| + |tools|
    {
      hide Only, Answers;
      OnlyNothing(history, !updated);
      for t := 0 to |tools|
        invariant states.Keys >= old(states.Keys) && Recorded() && Only(old(history), history, !updated)
        invariant Told(old(notes), notes, tools[..t], if updated then {b} else {}, if updated then {} else {b})
        invariant |history| == |old(history)| + t
      {
        DistinctAt(tools, t);
        notes := notes + multiset{if updated then Updated(tools[t], b) else NotUpdated(tools[t], b)};
        ghost var before := history;
        UpdateFromTool(!updated);
        OnlyInARow(old(history), before, history, !updated);
      }
      assert tools[..|tools|] == tools;
    }

    /** Tells every tool about each of the structures that passes the test. */
    method TellAbout(bs: seq<Struct>, chosen: set<Struct>, updated: bool)
      requires Distinct(tools) && Distinct(bs) && Recorded() && forall b :: b in chosen ==> b in bs
      modifies this`modified, this`states, this`history, this`notes
      ensures states.Keys >= old(states.Keys) && Recorded() && Only(old(history), history, !updated)
      ensures Told(old(notes), notes, tools, if updated then chosen else {}, if updated then {} else chosen)
    {
      hide Told, Distinct, Only;
      ToldNothing(notes, tools);
      OnlyNothing(history, !updated);
      ghost var told: set<Struct> := {};
      for i := 0 to |bs|
        invariant states.Keys >= old(states.Keys) && Recorded() && Only(old(history), history, !updated)
        invariant told == set b | b in bs[..i] && b in chosen
        invariant Told(old(notes), notes, tools, if updated then told else {}, if updated then {} else told)
      {
        DistinctAt(bs, i);
        if bs[i] in chosen {
          ghost var before, then_ := notes, history;
          TellTools(bs[i], updated);
          OnlyInARow(old(history), then_, history, !updated);
          ToldOneMore(old(notes), before, notes, tools, told, bs[i], updated);
          told := told + {bs[i]};
        }
        assert told == set b | b in bs[..i + 1] && b in chosen;
      }
      assert bs[..|bs|] == bs;
      assert told == chosen;
    }

    /**
     Calls BundleUpdated until no tool modifies an entry of a further bundle. On
     return the two lists hold every bundle with a modified entry, none twice, and
     each bundle on them that -b allows has been reported to each tool once.
     */
    method GetAllModifiedBundles(mbundles: seq<Struct>, all: seq<Struct>) returns (add: seq<Struct>)
      requires Distinct(tools) && Distinct(config) && all == Bundles(config) && Recorded()
      requires forall b :: b in mbundles ==> b in all
      modifies this`modified, this`states, this`history, this`notes
      ensures states.Keys >= old(states.Keys) && Recorded() && Only(old(history), history, false)
      ensures Distinct(add) && forall b :: b in add ==> b in all && b !in mbundles
      ensures mbundles == [] ==> add == [] && modified == old(modified)
      ensures mbundles != [] ==> forall b :: b in all && Holds(b, modified) ==> b in mbundles || b in add
      ensures Told(old(notes), notes, tools, Eligible(setup, mbundles + add), {})
      ensures AllWereModified(add, history, |old(history)| - 1)
    {
      hide Told, Holds, Keep, OnlySelected, Only, AllWereModified;
      HoldersWereModified([], history, |history| - 1);
      var new_ := mbundles;
      add := [];
      ToldNothing(notes, tools);
      OnlyNothing(history, false);
      ghost var told, none: set<Struct> := {}, {};
      while new_ != []
        invariant states.Keys >= old(states.Keys) && Recorded() && Only(old(history), history, false)
        invariant Distinct(add) && forall b :: b in add ==> b in all && b !in mbundles
        invariant forall b :: b in new_ ==> b in mbundles || b in add
        invariant Told(old(notes), notes, tools, told, {})
        invariant AllWereModified(add, history, |old(history)| - 1)
        invariant told !! Eligible(setup, new_) && told + Eligible(setup, new_) == Eligible(setup, mbundles + add)
        invariant mbundles == [] ==> new_ == [] && add == [] && modified == old(modified)
        invariant mbundles != [] && new_ == [] ==> forall b :: b in all && Holds(b, modified) ==>
          b in mbundles || b in add
        decreases Untouched(all, mbundles, add), new_ != []
      {
        ghost var before, then_, reported := notes, history, Eligible(setup, new_);
        TellAbout(all, Eligible(setup, new_), true);
        OnlyInARow(old(history), then_, history, false);
        OnlyGrows(then_, history, false);
        OnlyGrows(old(history), history, false);
        StillModified(add, then_, |old(history)| - 1, history, |old(history)| - 1);
        ToldTwice(old(notes), before, notes, tools, told, none, reported, none);
        assert none + none == none;
        told := told + reported;
        new_ := Keep(all, set b | b in all && Holds(b, modified) && b !in mbundles && b !in add);
        HoldersWereModified(new_, history, |old(history)| - 1);
        AllOfBoth(add, new_, history, |old(history)| - 1);
        Extend(setup, mbundles, add, new_);
        ghost var rest := Untouched(all, mbundles, add);
        add := add + new_;
        if new_ == [] {
          assert Untouched(all, mbundles, add) == rest;
        } else {
          assert new_[0] in rest && new_[0] !in Untouched(all, mbundles, add);
        }
      }
      assert Eligible(setup, new_) == {};
      assert told == Eligible(setup, mbundles + add);
    }

    /**
     Installs the whitelist, repairs what that clobbered, and tells the tools about
     the bundles. `mb` are the bundles found modified: all those that hold an entry
     that counted as modified when the last tool had been told of a modified bundle.
     */
    method Install() returns (ghost mb: seq<Struct>)
      requires Valid()
      modifies this`modified, this`states, this`history, this`offered, this`able, this`handed, this`notes
      ensures Valid() && states.Keys >= old(states.Keys)
      ensures Since(old(history), Moment(Installing, old(states), old(modified), old(whitelist), map[]), history)
      ensures handed >= old(handed) && OnlyMain(handed - old(handed), whitelist, blacklist)
      ensures offered >= old(offered) + Offers(tools, Main, whitelist)
      ensures Distinct(mb) && forall b :: b in mb ==> b in Bundles(config)
      ensures ListsAll(Bundles(config), ModifiedInTheEnd(history), mb)
      ensures AllWereModified(mb, history, |old(history)|)
      ensures Told(old(notes), notes, tools, Eligible(setup, mb), NotModified(setup, config, mb) + Independents(config))
    {
      hide Told, Holds, OnlySelected, EntriesOf, Only, OnlyCalls, Eligible, NotModified, Independents, Bundles,
        ModifiedInTheEnd, Offers, OnlyMain, RepairedSince, Repaired, Answers, Distinct, AllWereModified, ListsAll;
      ghost var began := Moment(Installing, states, modified, whitelist, map[]);
      history := history + [began];
      ghost var h0 := history;
      var mbundles := InstallWhitelist();
      ghost var h1, settled := history, history;
      OnlyGrows(h0, h1, false);
      mb, settled := FindAndTell(mbundles);
      OnlyInARow(h0, h1, settled, false);
      InTheEnd(old(history), began, settled, history);
    }

    /** Finds the other bundles that are modified and tells the tools about all; `settled` is the history in between. */
    method FindAndTell(found: seq<Struct>) returns (ghost mb: seq<Struct>, ghost settled: seq<Moment>)
      requires Valid() && Distinct(found) && forall b :: b in found ==> b in Bundles(config)
      requires found == [] ==> forall b :: b in Bundles(config) ==> !Holds(b, modified)
      modifies this`modified, this`states, this`history, this`notes
      ensures states.Keys >= old(states.Keys) && Recorded()
      ensures Only(old(history), settled, false) && Only(settled, history, true) && settled != []
      ensures Distinct(mb) && forall b :: b in mb ==> b in Bundles(config)
      ensures ListsAll(Bundles(config), settled[|settled| - 1].modified, mb)
      ensures forall from: nat :: from < |old(history)| && AllWereModified(found, old(history), from) ==>
        AllWereModified(mb, history, from)
      ensures Told(old(notes), notes, tools, Eligible(setup, mb), NotModified(setup, config, mb) + Independents(config))
    {
      hide Told, Holds, OnlySelected, EntriesOf, Only, Eligible, NotModified, Independents, Bundles, Answers,
        AllWereModified, ListsAll;
      var mbundles := found;
      var add := GetAllModifiedBundles(mbundles, Bundles(config));
      Extend(setup, [], mbundles, add);
      mbundles := mbundles + add;
      mb := mbundles;
      assert [] + mb == mb;
      settled := history;
      HoldersAreListed(Bundles(config), modified, mb);
      ghost var before := notes;
      TellRest(mbundles);
      OnlyGrows(old(history), settled, false);
      OnlyGrows(settled, history, true);
      BothWereModified(found, add, old(history), settled, history);
      ToldBoth(old(notes), before, notes, tools, Eligible(setup, mb),
        NotModified(setup, config, mb) + Independents(config));
    }

    /** Installs the whitelist and repairs what that clobbered; returns the bundles found modified in between. */
    method InstallWhitelist() returns (mbundles: seq<Struct>)
      requires Valid()
      modifies this`modified, this`states, this`history, this`offered, this`able, this`handed
      ensures Valid() && states.Keys >= old(states.Keys) && Only(old(history), history, false)
      ensures handed >= old(handed) && OnlyMain(handed - old(handed), whitelist, blacklist)
      ensures offered >= old(offered) + Offers(tools, Main, whitelist)
      ensures Distinct(mbundles) && forall b :: b in mbundles ==> b in Bundles(config)
      ensures mbundles == [] ==> forall b :: b in Bundles(config) ==> !Holds(b, modified)
      ensures AllWereModified(mbundles, history, |old(history)| - 1)
      ensures mbundles != [] && !setup.interactive ==> RepairedSince(|old(history)|, mbundles)
    {
      hide Holds, EntriesOf, Only, Distinct, Offers, Repaired, AllWereModified;
      DispatchInstallCalls(whitelist, Main);
      OnlyGrows(old(history), history, false);
      var bundles := Bundles(config);
      mbundles := Keep(bundles, set b | b in bundles && Holds(b, modified));
      HoldersWereModified(mbundles, history, |old(history)| - 1);
      if modified != [] {
        ghost var before := history;
        RepairClobbered(mbundles);
        OnlyInARow(old(history), before, history, false);
        OnlyGrows(old(history), before, false);
        OnlyGrows(before, history, false);
        StillModified(mbundles, before, |old(history)| - 1, history, |old(history)| - 1);
        if !setup.interactive { RepairedEarlier(|old(history)|, |before|, mbundles); }
      } else {
        NothingModified(bundles);
        NoneHold(mbundles);
      }
    }

    /** Tells the tools that the remaining bundles, and everything outside bundles, were not modified. */
    method TellRest(mbundles: seq<Struct>)
      requires Valid()
      modifies this`modified, this`states, this`history, this`notes
      ensures states.Keys >= old(states.Keys) && Recorded() && Only(old(history), history, true)
      ensures Told(old(notes), notes, tools, {}, NotModified(setup, config, mbundles) + Independents(config))
    {
      hide Told, OnlySelected, EntriesOf, Only;
      TellAbout(Bundles(config), NotModified(setup, config, mbundles), false);
      ghost var before, then_, none: set<Struct> := notes, history, {};
      TellAbout(Keep(config, Independents(config)), Independents(config), false);
      OnlyInARow(old(history), then_, history, true);
      ToldTwice(old(notes), before, notes, tools, none, NotModified(setup, config, mbundles), none,
        Independents(config));
      assert none + none == none;
    }

    /** Takes stock of the modified bundles again and reinstalls what turned bad, blacklisted entries excepted. */
    method RepairClobbered(mbundles: seq<Struct>)
      requires Valid() && forall b :: b in mbundles ==> b in config
      modifies this`modified, this`states, this`history, this`offered, this`able, this`handed
      ensures Valid() && states.Keys >= old(states.Keys) && Only(old(history), history, false)
      ensures handed >= old(handed) && OnlyMain(handed - old(handed), whitelist, blacklist)
      ensures offered >= old(offered)
      ensures mbundles == [] ==> modified == old(modified)
      ensures !setup.interactive ==> RepairedSince(|old(history)|, mbundles)
    {
      hide Distinct, Only, EntriesOf, Repaired;
      TakeStock(mbundles);
      ghost var stock, before := states, history;
      history := history + [Moment(Repairing, states, modified, whitelist, map[])];
      StockIsLoud(old(history), before, history[|before|]);
      OnlyGrows(old(history), before, false);
      forall b, e | b in mbundles && e in b.entries ensures e in states { Tracked(config, states.Keys, b); }
      var clobbered := Clobbered(mbundles);
      if clobbered != [] && !setup.interactive {
        ghost var then_ := history;
        DispatchInstallCalls(clobbered, Main);
        OnlyInARow(old(history), then_, history, false);
        OnlyGrows(then_, history, false);
      }
      assert history[|before|].phase == Repairing && history[|before|].states == stock;
      if !setup.interactive {
        AllRepaired(mbundles, stock, clobbered);
        RepairOnRecord(|old(history)|, mbundles, |before|);
      }
    }

    /** The entries of the bundles that are bad and not blacklisted. */
    method Clobbered(mbundles: seq<Struct>) returns (clobbered: seq<Entry>)
      requires forall b, e :: b in mbundles && e in b.entries ==> e in states
      ensures forall e :: e in clobbered <==> e !in blacklist && Bad(e) && InSome(mbundles, e)
      ensures mbundles == [] ==> clobbered == []
    {
      hide InSome;
      clobbered := [];
      NowhereIn();
      for b := 0 to |mbundles|
        invariant forall e :: e in clobbered <==> e !in blacklist && Bad(e) && InSome(mbundles[..b], e)
        invariant b == 0 ==> clobbered == []
      {
        var entries := mbundles[b].entries;
        clobbered := clobbered + Keep(entries, set e | e in entries && !states[e] && e !in blacklist);
        InOneMore(mbundles, b);
      }
      assert mbundles[..|mbundles|] == mbundles;
    }

    lemma AllRepaired(mbundles: seq<Struct>, stock: map<Entry, bool>, clobbered: seq<Entry>)
      requires offered >= Offers(tools, Main, clobbered) || clobbered == []
      requires forall e :: e in clobbered <==>
        e !in blacklist && e in stock && !stock[e] && InSome(mbundles, e)
      ensures Repaired(mbundles, stock, offered)
    {
      if clobbered != [] { AllOffered(tools, clobbered, offered); }
      hide Offers;
    }

    /** Every entry of the bundles that was bad and is not blacklisted has been offered to every tool. */
    ghost predicate Repaired(mbundles: seq<Struct>, stock: map<Entry, bool>, to: set<Offer>)
      reads this`blacklist
    {
      forall b, e, t :: b in mbundles && e in b.entries && e in stock && !stock[e] && e !in blacklist && t in tools ==>
        Offer(t, Handed(Main, e)) in to
    }

    /** When stock was taken is on record, and what was bad then has been repaired. */
    ghost predicate RepairedSince(from: nat, mbundles: seq<Struct>)
      reads this`history, this`offered, this`blacklist
    {
      exists i | from <= i < |history| ::
        history[i].phase == Repairing && Repaired(mbundles, history[i].states, offered)
    }

    lemma RepairOnRecord(from: nat, mbundles: seq<Struct>, i: nat)
      requires from <= i < |history| && history[i].phase == Repairing && Repaired(mbundles, history[i].states, offered)
      ensures RepairedSince(from, mbundles)
    {
    }

    lemma RepairedEarlier(from: nat, later: nat, mbundles: seq<Struct>)
      requires RepairedSince(later, mbundles) && from <= later
      ensures RepairedSince(from, mbundles)
    {
      hide Repaired;
    }

    /** Every tool takes inventory of every modified bundle. */
    method TakeStock(mbundles: seq<Struct>)
      requires Valid()
      modifies this`modified, this`states, this`history
      ensures Valid() && states.Keys >= old(states.Keys) && Only(old(history), history, false)
      ensures mbundles == [] ==> modified == old(modified)
      ensures |history| == |old(history)| + |tools| * |mbundles|
    {
      hide Distinct, Only, EntriesOf, Answers;
      OnlyNothing(history, false);
      for t := 0 to |tools|
        invariant Valid() && states.Keys >= old(states.Keys) && Only(old(history), history, false)
        invariant mbundles == [] ==> modified == old(modified)
        invariant |history| == |old(history)| + t * |mbundles|
      {
        for b := 0 to |mbundles|
          invariant Valid() && states.Keys >= old(states.Keys) && Only(old(history), history, false)
          invariant mbundles == [] ==> modified == old(modified)
          invariant |history| == |old(history)| + t * |mbundles| + b
        {
          ghost var then_ := history;
          UpdateFromTool(false);
          OnlyInARow(old(history), then_, history, false);
        }
      }
    }

    /** An entry of a bundle that -b and -B select, and of none in which a prerequisite action failed. */
    ghost predicate Passes(bundles: seq<Struct>, ran: map<Struct, Ran>, e: Entry)
    {
      && (exists b :: b in bundles && Selected(setup, b) && e in b.entries)
      && forall b :: b in ran && Failed(b, ran[b]) ==> e !in b.entries
    }

    /**
     A whole run on a fresh client. What was bad at first and is allowed by the decision list is on the
     whitelist, unless it was verified early; of that, without -n, -i and -I, exactly what `Passes` stays and
     is offered to every tool. What the decision list suppresses is never handed to a tool, unless it is an
     Action that runs as a prerequisite; Install touches nothing that was bad when Decide started and is off
     the whitelist, and exactly that is on the blacklist; every selected bundle had all its prerequisite
     actions offered to all tools. In the end, with -k, anything that was modified makes for a new inventory.
     */
    method Execute() returns (ghost settled: seq<Moment>, ghost found: map<Entry, bool>)
      requires Distinct(tools) && Distinct(config) && Distinct(whitelist) && Recorded()
      requires handed == {} && verified == declined == {} && verdicts == map[] && blacklist == []
      modifies this
      ensures Begun(history, Important) && (!setup.onlyImportant ==> Begun(history, Deciding))
      ensures forall h :: h in handed && Suppressed(glob, setup, h.entry) && h.entry in BadAt(history, Important) ==>
        h.why.Prerequisite? && h.entry.tag == "Action"
      ensures forall h :: h in handed && h.why.Early? ==> Urgent(h.entry) && !Suppressed(glob, setup, h.entry)
      ensures forall h :: h in handed && h.why.Main? && h.entry in BadAt(history, Deciding) ==> h.entry in whitelist
      ensures forall e :: e in whitelist ==>
        e in BadAt(history, Important) && !Suppressed(glob, setup, e) && e !in verified && e !in declined
      ensures forall e :: e in verified ==> Handed(Early, e) in handed
      ensures forall e :: e in declined ==> Urgent(e) && setup.interactive
      ensures !setup.dryRun && !setup.interactive ==>
        forall p, e | p in old(config) && EarlyParent(setup, p) && e in p.entries && Urgent(e) ::
          e in BadAt(history, Important) && !Suppressed(glob, setup, e) ==> Handed(Early, e) in handed
      ensures !setup.onlyImportant && !setup.dryRun && !setup.interactive ==>
        forall e | e in BadAt(history, Important) && !Suppressed(glob, setup, e) && e !in verified ::
          e in whitelist <==> Passes(old(config), verdicts, e)
      ensures setup.onlyImportant ==>
        forall e | e in BadAt(history, Important) && !Suppressed(glob, setup, e) ::
          e in whitelist || e in verified || e in declined
      ensures !setup.onlyImportant ==>
        forall e, t :: e in whitelist && t in tools ==> Offer(t, Handed(Main, e)) in offered
      ensures setup.onlyImportant ==> (forall h :: h in handed ==> h.why.Early?) && blacklist == [] && verdicts == map[]
      ensures !setup.onlyImportant ==> forall e :: e in blacklist <==> e in BadAt(history, Deciding) && e !in whitelist
      ensures !setup.onlyImportant ==> HaveVerdicts(setup, old(config), verdicts)
      ensures AllWereRun(verdicts, tools, offered, history) && NoneOfFailed(verdicts, whitelist)
      ensures Answered(offered, able, handed)
      ensures settled != [] && settled <= history
      ensures if settled[|settled| - 1].modified != [] && !setup.dryRun && setup.kevlar then
          (|history| == |settled| + |tools| && states == found + AllBad(config) + Answers(history, |settled|))
        else history == settled && states == found
    {
      hide Suppressed, EntriesOf, Distinct, AllWereRun, NoneOfFailed, HaveVerdicts, BadAt, Begun, Urgent, Passes,
        EarlyParent, AllBad, Answers;
      InventoryAndImportant();
      NoVerdicts(tools, offered, history, whitelist);
      ghost var early, bad := handed, BadAt(history, Important);
      if !setup.onlyImportant {
        DecideAndInstall();
        assert forall h :: h in handed ==> h in early || h in handed - early;
      }
      assert BadAt(history, Important) == bad;
      settled, found := history, states;
      assert Recorded();
      hide Valid;
      if modified != [] { ReInventory(); }
    }

    /** The beginning of a run: what was bad when the early installation began, and what became of it. */
    method InventoryAndImportant()
      requires Distinct(tools) && Distinct(config) && Distinct(whitelist) && Recorded()
      requires handed == {} && verified == declined == {}
      modifies this`modified, this`states, this`whitelist, this`history, this`handed, this`verified, this`declined
      ensures Valid() && Begun(history, Important)
      ensures forall h :: h in handed ==>
        h.why.Early? && Urgent(h.entry) && !Suppressed(glob, setup, h.entry) && h.entry in BadAt(history, Important)
      ensures forall e :: e in whitelist <==>
        e in BadAt(history, Important) && !Suppressed(glob, setup, e) && e !in verified && e !in declined
      ensures forall e :: e in verified ==> Handed(Early, e) in handed
      ensures forall e :: e in declined ==> Urgent(e) && setup.interactive
      ensures forall e :: e in BadAt(history, Important) && Suppressed(glob, setup, e) ==> Bad(e)
      ensures !setup.dryRun && !setup.interactive ==>
        forall p, e | p in config && EarlyParent(setup, p) && e in p.entries && Urgent(e) ::
          e in BadAt(history, Important) && !Suppressed(glob, setup, e) ==> Handed(Early, e) in handed
    {
      hide Suppressed, EntriesOf, Distinct, BadAt, Begun, Only, OnlyCalls, Answers, Urgent, EarlyParent;
      Inventory();
      ghost var before, began, states0 := history, Moment(Important, states, modified, whitelist, map[]), states;
      InstallImportant();
      PhaseIsLast(before, began, history);
      assert forall e :: Allowed(states0, e) <==> e in BadAt(history, Important) && !Suppressed(glob, setup, e);
    }

    /** Takes inventory again, with -k only and never in a dry run. */
    method ReInventory()
      requires Valid() && AllWereRun(verdicts, tools, offered, history)
      modifies this`modified, this`states, this`history
      ensures Valid() && AllWereRun(verdicts, tools, offered, history)
      ensures Begun(history, Important) == old(Begun(history, Important))
      ensures Begun(history, Deciding) == old(Begun(history, Deciding))
      ensures BadAt(history, Important) == old(BadAt(history, Important))
      ensures BadAt(history, Deciding) == old(BadAt(history, Deciding))
      ensures old(history) <= history
      ensures setup.dryRun || !setup.kevlar ==> history == old(history) && states == old(states)
      ensures !setup.dryRun && setup.kevlar ==> |history| == |old(history)| + |tools|
      ensures !setup.dryRun && setup.kevlar ==>
        states == old(states) + AllBad(config) + Answers(history, |old(history)|)
    {
      hide EntriesOf, Distinct, AllWereRun, BadAt, Begun, Only, Answers;
      if !setup.dryRun && setup.kevlar {
        ghost var before := history;
        Inventory();
        OnlyGrows(before, history, false);
        CallsAreNoPhase(before, history);
        StillRun(verdicts, tools, offered, offered, before, history);
      }
    }

    /** The part of the run that -i skips. */
    method DecideAndInstall()
      requires Valid() && verdicts == map[] && blacklist == []
      modifies this`config, this`modified, this`states, this`whitelist, this`blacklist, this`removal, this`extra
      modifies this`history, this`offered, this`able, this`handed, this`verdicts, this`notes
      ensures Valid()
      ensures Begun(history, Important) == old(Begun(history, Important)) && Begun(history, Deciding)
      ensures BadAt(history, Important) == old(BadAt(history, Important))
      ensures forall e :: e in BadAt(history, Deciding) <==> old(Bad(e))
      ensures handed >= old(handed)
      ensures forall h :: h in handed - old(handed) ==> h.why.Main? || (h.why.Prerequisite? && h.entry.tag == "Action")
      ensures forall h :: h in handed - old(handed) && h.why.Main? && h.entry in BadAt(history, Deciding) ==>
        h.entry in whitelist
      ensures forall e :: e in whitelist ==> e in old(whitelist)
      ensures !setup.dryRun && !setup.interactive ==>
        forall e :: e in old(whitelist) ==> (e in whitelist <==> Passes(old(config), verdicts, e))
      ensures forall e, t :: e in whitelist && t in tools ==> Offer(t, Handed(Main, e)) in offered
      ensures forall e :: e in blacklist <==> e in BadAt(history, Deciding) && e !in whitelist
      ensures HaveVerdicts(setup, old(config), verdicts) && AllWereRun(verdicts, tools, offered, history)
      ensures NoneOfFailed(verdicts, whitelist)
    {
      hide Decided, Told, EntriesOf, Distinct, Holds, AllWereRun, NoneOfFailed, HaveVerdicts, BadAt, Begun, OnlyCalls,
        Answers, Passes, Offers;
      ghost var h2, m2, h := history, Moment(Deciding, states, modified, whitelist, map[]), handed;
      ghost var passed, _, _, _ := Decide();
      PhaseIsLast(h2, m2, history);
      if !setup.dryRun { DecidedPasses(old(config), old(whitelist), config, passed, verdicts); }
      ghost var before, h3, m3, pre := offered, history, Moment(Installing, states, modified, whitelist, map[]), handed;
      var _ := Install();
      PhaseIsLast(h3, m3, history);
      StillRun(verdicts, tools, before, offered, h3, history);
      AllOffered(tools, whitelist, offered);
      assert forall g :: g in handed - h ==> g in pre - h || g in handed - pre;
    }

    lemma DecidedPasses(config0: seq<Struct>, whitelist0: seq<Entry>, config1: seq<Struct>, passed: seq<Entry>,
                        ran: map<Struct, Ran>)
      requires Decided(setup, config0, whitelist0, config1, passed, ran)
      ensures forall e :: e in whitelist0 ==> (e in passed <==> Passes(config0, ran, e))
    {
      hide Selected, Failed;
      forall e ensures e in EntriesOf(SelectedBundles(setup, config0)) <==>
        exists b :: b in config0 && Selected(setup, b) && e in b.entries {}
      forall e ensures ForcedOff(ran, e) <==> exists b :: b in ran && Failed(b, ran[b]) && e in b.entries {}
    }
  }

  lemma AllOffered(tools: seq<Tool>, entries: seq<Entry>, offered: set<Offer>)
    requires offered >= Offers(tools, Main, entries)
    ensures forall e, t :: e in entries && t in tools ==> Offer(t, Handed(Main, e)) in offered
  {
  }

  /** After a phase began there were calls, and at last only quiet ones. */
  lemma InTheEnd(before: seq<Moment>, began: Moment, settled: seq<Moment>, after: seq<Moment>)
    requires began.phase != Quiet && Only(before + [began], settled, false) && Only(settled, after, true)
    ensures Since(before, began, after)
    ensures settled != [] && ModifiedInTheEnd(after) == settled[|settled| - 1].modified
  {
    QuietChangesNothing(settled, after);
    assert settled[|settled| - 1].phase != Quiet;
  }

  /**
   What Install says, read per bundle: each bundle that -b allows gets exactly one of the two
   notes from each tool.
   */
  lemma OneNotePerToolAndBundle(setup: Setup, config: seq<Struct>, tools: seq<Tool>, before: multiset<Note>,
                                after: multiset<Note>, mb: seq<Struct>, t: Tool, b: Struct)
    requires Told(before, after, tools, Eligible(setup, mb), NotModified(setup, config, mb) + Independents(config))
    requires t in tools && b in Bundles(config)
    ensures after[Updated(t, b)] - before[Updated(t, b)] == if OnlySelected(setup, b) && b in mb then 1 else 0
    ensures after[NotUpdated(t, b)] - before[NotUpdated(t, b)] == if OnlySelected(setup, b) && b !in mb then 1 else 0
  {
    hide OnlySelected;
  }

  /**
   What Decide says, read per bundle: a failed one keeps nothing on the whitelist, and leaves
   an unfiltered configuration.
   */
  lemma FailedBundleIsOff(setup: Setup, config: seq<Struct>, whitelist: seq<Entry>, config': seq<Struct>,
                          whitelist': seq<Entry>, verdicts: map<Struct, Ran>, b: Struct)
    requires Decided(setup, config, whitelist, config', whitelist', verdicts)
    requires b in verdicts && Failed(b, verdicts[b])
    ensures forall e :: e in whitelist' ==> e !in b.entries
    ensures b in config' <==> setup.onlyBundles != [] || setup.exceptBundles != []
  {
    forall e | e in whitelist' ensures e !in b.entries {
      assert !ForcedOff(verdicts, e);
    }
  }

  lemma Extend(setup: Setup, mbundles: seq<Struct>, add: seq<Struct>, new_: seq<Struct>)
    requires Distinct(add) && Distinct(new_) && forall b :: b in new_ ==> b !in mbundles && b !in add
    ensures Distinct(add + new_)
    ensures Eligible(setup, mbundles + (add + new_)) == Eligible(setup, mbundles + add) + Eligible(setup, new_)
    ensures Eligible(setup, mbundles + add) !! Eligible(setup, new_)
  {
    var s := add + new_;
    forall i, j | 0 <= i < j < |s| ensures s[i] != s[j] {
      assert j >= |add| ==> s[j] in new_;
      assert i < |add| ==> s[i] in add;
    }
  }
}
