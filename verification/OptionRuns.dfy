/** What every step of option parsing keeps, and what the namespace holds when parsing is over. */
module OptionRuns {
  import opened Common
  import opened OptionModel
  import opened Ordering

  // ---------- the world ----------

  /** Every option that can ever be added. */
  ghost function AllOpts(w: World): set<Opt>
  {
    {w.main} + set c, i | c in w.options && 0 <= i < |w.options[c]| :: w.options[c][i]
  }

  /** Every component that some option can load. */
  ghost function AllComps(w: World): set<Comp>
  {
    set o, n | o in AllOpts(w) && o.kind.Component? && n in o.kind.mapping :: o.kind.mapping[n]
  }

  /** Options have their own place in the namespace; the main config file is not named in a config file. */
  ghost predicate WellFormed(w: World)
  {
    && (forall o, p :: o in AllOpts(w) && p in AllOpts(w) && o.dest == p.dest ==> o == p)
    && (forall o :: o in AllOpts(w) ==> !Reserved(o.dest))
    && w.main.kind.Store? && w.main.cf.None? && w.main.cli
  }

  predicate Occurs(argv: seq<Arg>, dest: string) { exists i :: 0 <= i < |argv| && argv[i].dest == dest }

  /** The default of an option: environment, else config files, else the declared default. */
  function Precedence(w: World, cfp: map<Key, Value>, o: Opt): Option<Value>
  {
    var environment := o.env != "" && o.env in w.environ;
    var configured := o.cf.Some? && o.cf.value in cfp;
    if !environment && !configured then o.hard
    else Some(if environment then w.environ[o.env] else cfp[o.cf.value])
  }

  /** What all the files read say, later ones before earlier ones. */
  function Merged(w: World, readLog: seq<(string, Option<Value>)>): map<Key, Value>
  {
    if readLog == [] then map[] else Merged(w, readLog[..|readLog| - 1]) + Contents(w, readLog[|readLog| - 1].1)
  }

  // ---------- the invariant ----------

  predicate HasDest(options: seq<Opt>, dest: string) { exists i :: 0 <= i < |options| && options[i].dest == dest }

  predicate HasAll(options: seq<Opt>, os: seq<Opt>) { forall i :: 0 <= i < |os| ==> os[i] in options }

  ghost predicate Core(w: World, s: State)
  {
    && (forall o :: o in s.options ==> o in AllOpts(w))
    && (forall o :: o in s.options ==> o in s.defaultsSet && Default(s, o) == Precedence(w, s.cfp, o))
    && (forall o :: o in s.defaults ==> o in s.options)
    && (forall d :: d in s.ns ==> Reserved(d) || HasDest(s.options, d))
    && (forall o :: o in AllOpts(w) && o.dest in s.configFiles ==> o.kind.ConfigFile? || o == w.main)
    && (forall o :: o in s.final ==> o in s.options) && s.stale <= s.final
    && Distinct(s.options)
    && s.cfp == Merged(w, s.readLog) && Logged(s.readLog, s.configFiles)
  }

  /** Each config file was read for an option of its own. */
  ghost predicate Logged(readLog: seq<(string, Option<Value>)>, configFiles: seq<string>)
  {
    && Distinct(configFiles) && |readLog| == |configFiles|
    && forall i :: 0 <= i < |readLog| ==> readLog[i].0 == configFiles[i]
  }

  lemma LoggedOneMore(readLog: seq<(string, Option<Value>)>, configFiles: seq<string>, dest: string,
                      file: Option<Value>)
    requires Logged(readLog, configFiles) && dest !in configFiles
    ensures Logged(readLog + [(dest, file)], configFiles + [dest])
  {
  }

  /** Every option of a loaded component is among the options. */
  ghost predicate Loaded(w: World, s: State)
  {
    forall c :: c in s.components && c in w.options ==> HasAll(s.options, w.options[c])
  }

  function Entry(ns: map<string, Option<Value>>, dest: string): Option<Option<Value>>
  {
    if dest in ns then Some(ns[dest]) else None
  }

  /** What an ordinary option that is not on the command line is worth. */
  function Settled(o: Opt, default: Option<Value>): Option<Value>
  {
    if o.kind.Boolean? && !o.cli && Truthy(default) then Some(Flag(true)) else default
  }

  function ComponentsIn(o: Opt, v: Option<Value>): seq<Comp>
    requires o.kind.Component?
  {
    if v.None? || NamesIn(o, v.value).None? then [] else ClassesOf(o, NamesIn(o, v.value).value)
  }

  /** The entry stands for the components named by v, and all of them are loaded. */
  ghost predicate Resolves(o: Opt, v: Option<Value>, entry: Option<Value>, components: seq<Comp>)
    requires o.kind.Component?
  {
    entry == Resolved(o, v) && forall c :: c in ComponentsIn(o, v) ==> c in components
  }

  /** What the namespace may hold for an option that is not on the command line. */
  ghost predicate EntryOk(o: Opt, default: Option<Value>, entry: Option<Option<Value>>, final: bool, stale: bool,
                          inFiles: bool, readAs: bool, components: seq<Comp>)
  {
    match o.kind
    case Store => entry.Some? ==> entry.value == default
    case Boolean => entry.Some? ==> entry.value == Settled(o, default)
    case ConfigFile =>
      && (final && !stale ==> entry.Some?)
      && (entry.Some? ==> if inFiles then readAs else entry.value == default)
      && (entry.Some? && Truthy(entry.value) && final ==> inFiles || stale)
    case Component(_, _, _) =>
      if !o.cli && Truthy(default) then entry.Some? ==> final && Resolves(o, default, entry.value, components)
      else if final && !stale then entry.Some? && Resolves(o, default, entry.value, components)
      else entry.Some? ==> entry.value == default
  }

  ghost predicate Known(w: World, argv: seq<Arg>, s: State, o: Opt)
  {
    (o.cli && Occurs(argv, o.dest)) ||
    EntryOk(o, Precedence(w, s.cfp, o), Entry(s.ns, o.dest), o in s.final, o in s.stale, o.dest in s.configFiles,
      ReadAs(w, s, o), s.components)
  }

  /** A file was read for this option, the one that its default named then; the entry still names it. */
  ghost predicate ReadAs(w: World, s: State, o: Opt)
  {
    o.dest in s.ns && exists j | 0 <= j < |s.readLog| ::
      s.readLog[j] == (o.dest, s.ns[o.dest]) && s.ns[o.dest] == Precedence(w, Merged(w, s.readLog[..j]), o)
  }

  lemma ReadAsStays(w: World, s: State, t: State, o: Opt)
    requires ReadAs(w, s, o) && s.readLog <= t.readLog && o.dest in t.ns && t.ns[o.dest] == s.ns[o.dest]
    ensures ReadAs(w, t, o)
  {
    hide Precedence, Merged;
    var j :| 0 <= j < |s.readLog| && s.readLog[j] == (o.dest, s.ns[o.dest]) &&
      s.ns[o.dest] == Precedence(w, Merged(w, s.readLog[..j]), o);
    assert t.readLog[..j] == s.readLog[..j] && t.readLog[j] == s.readLog[j];
  }

  /** An option whose file was read keeps its entry, perhaps except for one whose action is at work. */
  ghost predicate KeptBut(w: World, s: State, dest: string)
  {
    forall o :: o in AllOpts(w) && o.kind.ConfigFile? && o.dest in s.configFiles && o.dest != dest ==>
      o in s.final && o.dest in s.ns
  }

  ghost predicate Kept(w: World, s: State)
  {
    forall o :: o in AllOpts(w) && o.kind.ConfigFile? && o.dest in s.configFiles ==> o in s.final && o.dest in s.ns
  }

  ghost predicate Entries(w: World, argv: seq<Arg>, s: State)
  {
    forall o :: o in s.options ==> Known(w, argv, s, o)
  }

  ghost predicate Inv(w: World, argv: seq<Arg>, s: State)
  {
    Core(w, s) && Loaded(w, s) && Entries(w, argv, s) && Kept(w, s)
  }

  ghost predicate InvBut(w: World, argv: seq<Arg>, s: State, dest: string)
  {
    Core(w, s) && Loaded(w, s) && Entries(w, argv, s) && KeptBut(w, s, dest)
  }

  // ---------- progress ----------

  ghost function NotLoaded(w: World, components: seq<Comp>): set<Comp>
  {
    set c | c in AllComps(w) && c !in components
  }

  ghost function NotRead(w: World, configFiles: seq<string>): set<Opt>
  {
    set o | o in AllOpts(w) && o.dest !in configFiles
  }

  /** The termination measure: components not yet loaded and config files not yet read. */
  ghost function Missing(w: World, s: State): nat
  {
    |NotLoaded(w, s.components)| + |NotRead(w, s.configFiles)|
  }

  /** While `parsed` stays set, nothing that a further round would have to look at changes. */
  ghost predicate Quiet(s: State, t: State)
  {
    s.parsed && t.options == s.options && t.cfp == s.cfp && t.stale == s.stale && s.ns.Keys <= t.ns.Keys
  }

  /** Nothing loaded, read or finalized is forgotten, and options go stale only when a file is read. */
  ghost predicate Grown(s: State, t: State)
  {
    && (forall c :: c in s.components ==> c in t.components) && (forall d :: d in s.configFiles ==> d in t.configFiles)
    && s.readLog <= t.readLog && s.final <= t.final && s.stale <= t.stale
    && s.options <= t.options && (forall o :: o in s.options ==> o in t.options)
    && s.configFiles <= t.configFiles && (t.configFiles == s.configFiles ==> t.stale == s.stale)
  }

  /** A step only loads and reads more, and clears `parsed` only if it did. */
  ghost predicate Forward(w: World, s: State, t: State)
  {
    && Grown(s, t)
    && Missing(w, t) <= Missing(w, s)
    && (s.parsed && !t.parsed ==> Missing(w, t) < Missing(w, s))
    && (t.parsed ==> Quiet(s, t))
  }

  ghost predicate Step(w: World, argv: seq<Arg>, s: State, t: State)
  {
    Inv(w, argv, t) && Forward(w, s, t)
  }

  lemma MissingShrinks(w: World, s: State, t: State)
    requires forall c :: c in s.components ==> c in t.components
    requires forall d :: d in s.configFiles ==> d in t.configFiles
    ensures Missing(w, t) <= Missing(w, s)
    ensures (exists c :: c in AllComps(w) && c in t.components && c !in s.components) ==> Missing(w, t) < Missing(w, s)
    ensures (exists o :: o in AllOpts(w) && o.dest in t.configFiles && o.dest !in s.configFiles) ==>
      Missing(w, t) < Missing(w, s)
  {
    SubsetIsSmaller(NotLoaded(w, t.components), NotLoaded(w, s.components));
    SubsetIsSmaller(NotRead(w, t.configFiles), NotRead(w, s.configFiles));
    if c :| c in AllComps(w) && c in t.components && c !in s.components {
      assert c in NotLoaded(w, s.components) && c !in NotLoaded(w, t.components);
    }
    if o :| o in AllOpts(w) && o.dest in t.configFiles && o.dest !in s.configFiles {
      assert o in NotRead(w, s.configFiles) && o !in NotRead(w, t.configFiles);
    }
  }

  // ---------- adding options and components ----------

  /** Everything but the options and their defaults. */
  ghost predicate SameButOptions(s: State, t: State)
  {
    && t.ns == s.ns && t.cfp == s.cfp && t.configFiles == s.configFiles
    && t.readLog == s.readLog && t.final == s.final && t.stale == s.stale
    && s.options <= t.options && (forall o :: o in s.options ==> o in t.options)
  }

  lemma HasDestGrows(options: seq<Opt>, o: Opt, dest: string)
    ensures HasDest(options + [o], dest) <==> HasDest(options, dest) || dest == o.dest
  {
    if HasDest(options, dest) {
      var i :| 0 <= i < |options| && options[i].dest == dest;
      assert (options + [o])[i].dest == dest;
    }
    assert (options + [o])[|options|] == o;
  }

  /** The default that a new option gets. */
  lemma FirstDefault(w: World, cfp: map<Key, Value>, o: Opt)
    ensures FromConfig(w, cfp, o, o.hard) == Precedence(w, cfp, o)
  {
  }

  /** The default that an option gets when a further file is read: nothing that was configured is forgotten. */
  lemma LaterDefault(w: World, cfp: map<Key, Value>, more: map<Key, Value>, o: Opt)
    ensures FromConfig(w, cfp + more, o, Precedence(w, cfp, o)) == Precedence(w, cfp + more, o)
  {
  }

  lemma NewOptionIsKnown(w: World, argv: seq<Arg>, s: State, t: State, o: Opt)
    requires WellFormed(w) && Core(w, s) && o in AllOpts(w) && o !in s.options
    requires t.ns == s.ns && t.final == s.final
    ensures Known(w, argv, t, o)
  {
    hide FromConfig, AllOpts;
    assert forall i :: 0 <= i < |s.options| ==> s.options[i] in s.options;
    assert forall p :: p in s.options ==> p.dest != o.dest;
  }

  lemma AddOptionKeeps(w: World, argv: seq<Arg>, s: State, o: Opt)
    requires WellFormed(w) && Core(w, s) && Entries(w, argv, s) && o in AllOpts(w) && AddOption(w, s, o).Ok?
    ensures var t := AddOption(w, s, o).value;
      Core(w, t) && Entries(w, argv, t) && SameButOptions(s, t) && o in t.options && t.components == s.components &&
        t.parsed == s.parsed
  {
    hide FromConfig, AllOpts, WellFormed, EntryOk, HasDest, Precedence, Reserved, Merged, Logged;
    if o !in s.options {
      var t := AddOption(w, s, o).value;
      forall d | d in t.ns ensures Reserved(d) || HasDest(t.options, d) {
        HasDestGrows(s.options, o, d);
      }
      FirstDefault(w, s.cfp, o);
      hide SomeEnv, SomeCf;
      assert t.options == s.options + [o];
      NewOptionIsKnown(w, argv, s, t, o);
      forall p | p in s.options ensures Known(w, argv, t, p) && Default(t, p) == Default(s, p) {
        assert Known(w, argv, s, p);
      }
    }
  }

  lemma {:induction false} AddEachKeeps(w: World, argv: seq<Arg>, s: State, os: seq<Opt>)
    requires WellFormed(w) && Core(w, s) && Entries(w, argv, s) && AddEach(w, s, os).Ok?
    requires forall o :: o in os ==> o in AllOpts(w)
    ensures var t := AddEach(w, s, os).value;
      Core(w, t) && Entries(w, argv, t) && SameButOptions(s, t) && HasAll(t.options, os) &&
        t.components == s.components && t.parsed == s.parsed
    decreases |os|
  {
    hide Core, Entries, AddOption;
    if os != [] {
      var t := AddOption(w, s, os[0]).value;
      AddOptionKeeps(w, argv, s, os[0]);
      AddEachKeeps(w, argv, t, os[1..]);
      assert HasAll(AddEach(w, t, os[1..]).value.options, os) by {
        assert forall i :: 1 <= i < |os| ==> os[i] == os[1..][i - 1];
      }
    }
  }

  lemma EntriesSurviveLoading(w: World, argv: seq<Arg>, s: State, c: Comp)
    requires Core(w, s) && Entries(w, argv, s)
    ensures var t := s.(components := s.components + [c]);
      Core(w, t) && Entries(w, argv, t) && Core(w, t.(parsed := false)) && Entries(w, argv, t.(parsed := false))
  {
    var t := s.(components := s.components + [c]);
    forall o | o in s.options ensures Known(w, argv, t, o) && Known(w, argv, t.(parsed := false), o) {
      assert Known(w, argv, s, o);
    }
    assert forall o :: Default(t, o) == Default(s, o) == Default(t.(parsed := false), o);
  }

  lemma AddComponentKeeps(w: World, argv: seq<Arg>, s: State, c: Comp)
    requires WellFormed(w) && Inv(w, argv, s) && AddComponent(w, s, c).Ok?
    ensures var t := AddComponent(w, s, c).value;
      Inv(w, argv, t) && SameButOptions(s, t) && c in t.components && (c in AllComps(w) ==> Forward(w, s, t))
  {
    hide Core, Entries, Missing, AllComps, Loaded, HasAll;
    var t := AddComponent(w, s, c).value;
    if c !in s.components {
      EntriesSurviveLoading(w, argv, s, c);
      if c in w.options {
        forall o | o in w.options[c] ensures o in AllOpts(w) {
          var i :| 0 <= i < |w.options[c]| && w.options[c][i] == o;
        }
        AddEachKeeps(w, argv, s.(components := s.components + [c], parsed := false), w.options[c]);
      }
      hide AddEach, AllOpts, WellFormed;
      LoadedGrows(w, s, t, c);
      MissingShrinks(w, s, t);
    }
  }

  lemma LoadedGrows(w: World, s: State, t: State, c: Comp)
    requires Loaded(w, s) && t.components == s.components + [c] && forall o :: o in s.options ==> o in t.options
    requires c in w.options ==> HasAll(t.options, w.options[c])
    ensures Loaded(w, t)
  {
  }

  lemma {:induction false} LoadEachKeeps(w: World, argv: seq<Arg>, s: State, o: Opt, names: seq<string>)
    requires WellFormed(w) && Inv(w, argv, s) && o in AllOpts(w) && o.kind.Component? && LoadEach(w, s, o, names).Ok?
    ensures var t := LoadEach(w, s, o, names).value;
      Step(w, argv, s, t) && SameButOptions(s, t) && forall c :: c in ClassesOf(o, names) ==> c in t.components
    decreases |names|
  {
    hide Inv, AddComponent, WellFormed, Missing;
    if names != [] {
      var t := LoadOne(w, s, o, names[0]).value;
      if names[0] in o.kind.mapping {
        AddComponentKeeps(w, argv, s, o.kind.mapping[names[0]]);
      }
      LoadEachKeeps(w, argv, t, o, names[1..]);
    }
  }

  // ---------- config files ----------

  lemma {:induction false} SetDefaultsSets(w: World, s: State, os: seq<Opt>)
    ensures var t := SetDefaults(w, s, os);
      && t == s.(defaults := t.defaults, defaultsSet := t.defaultsSet)
      && (forall o :: o in t.defaultsSet <==> o in s.defaultsSet || o in os)
      && (forall o :: o in t.defaults <==> o in s.defaults || (o in os && o !in s.defaultsSet))
      && (forall o :: Default(t, o) ==
            if o in os && o !in s.defaultsSet then FromConfig(w, s.cfp, o, Default(s, o)) else Default(s, o))
    decreases |os|
  {
    if os != [] {
      var u := if os[0] in s.defaultsSet then s else DefaultFromConfig(w, s, os[0]);
      hide FromConfig;
      SetDefaultsSets(w, u, os[1..]);
      assert forall o :: o in os <==> o == os[0] || o in os[1..];
    }
  }

  /** The defaults of all known options are always up to date. */
  lemma {:induction false} SetDefaultsChangesNothing(w: World, s: State, os: seq<Opt>)
    requires forall o :: o in os ==> o in s.defaultsSet
    ensures SetDefaults(w, s, os) == s
    decreases |os|
  {
    if os != [] {
      SetDefaultsChangesNothing(w, s, os[1..]);
    }
  }

  lemma ReadingKeepsCore(w: World, s: State, dest: string, file: Option<Value>, o: Opt)
    requires WellFormed(w) && Core(w, s) && o in AllOpts(w) && o.dest == dest && (o.kind.ConfigFile? || o == w.main)
    requires dest !in s.configFiles
    ensures var t := AddConfigFile(w, s, dest, file);
      && Core(w, t) && !t.parsed && t.options == s.options && t.components == s.components
      && t.final == s.final && t.stale == s.final && t.configFiles == s.configFiles + [dest]
      && t.cfp == s.cfp + Contents(w, file)
      && t.readLog == s.readLog + [(dest, file)]
      && t.ns == map d | d in s.ns && (Reserved(d) || d in s.configFiles) :: s.ns[d]
  {
    hide AllOpts, Contents, Reserved, HasDest, FromConfig, Precedence, SetDefaults, Default, Distinct, Logged;
    var t := AddConfigFile(w, s, dest, file);
    ReadingDefaults(w, s, dest, file);
    forall p | p in t.options ensures Default(t, p) == Precedence(w, t.cfp, p) {
      LaterDefault(w, s.cfp, Contents(w, file), p);
    }
    assert t.readLog[..|s.readLog|] == s.readLog;
    LoggedOneMore(s.readLog, s.configFiles, dest, file);
  }

  /** What is the same after reading a file, and the defaults that come from it. */
  lemma ReadingDefaults(w: World, s: State, dest: string, file: Option<Value>)
    requires dest !in s.configFiles
    ensures var t := AddConfigFile(w, s, dest, file);
      && t == Reset(s).(cfp := s.cfp + Contents(w, file), configFiles := s.configFiles + [dest],
            readLog := s.readLog + [(dest, file)],
                        defaults := t.defaults, defaultsSet := t.defaultsSet)
      && (forall o :: o in t.defaultsSet <==> o in s.options)
      && (forall o :: o in t.defaults ==> o in s.defaults || o in s.options)
      && (forall o :: o in s.options ==> Default(t, o) == FromConfig(w, t.cfp, o, Default(s, o)))
  {
    hide Contents, FromConfig;
    var u := Reset(s).(cfp := s.cfp + Contents(w, file), defaultsSet := {});
    SetDefaultsSets(w, u, u.options);
    assert forall o :: Default(u, o) == Default(s, o);
  }

  lemma ResetKeepsEntries(w: World, argv: seq<Arg>, s: State, t: State)
    requires WellFormed(w) && Core(w, s) && Entries(w, argv, s)
    requires t.options == s.options && t.final == s.final == t.stale && s.readLog <= t.readLog
    requires forall o :: o in s.options && o.dest in s.configFiles ==> o.dest in t.configFiles
    requires forall d :: d in t.configFiles && d !in s.configFiles ==> d !in t.ns
    requires Kept(w, s)
    requires t.ns == map d | d in s.ns && (Reserved(d) || d in s.configFiles) :: s.ns[d]
    ensures Entries(w, argv, t)
  {
    hide AllOpts, Reserved, Truthy, Resolves;
    forall p | p in s.options ensures Known(w, argv, t, p) {
      assert Known(w, argv, s, p) && !Reserved(p.dest);
      assert p.dest in t.ns ==> p.kind.ConfigFile? || p == w.main;
      if ReadAs(w, s, p) && p.dest in t.ns { ReadAsStays(w, s, t, p); }
    }
  }

  lemma OthersAreKept(w: World, s: State, t: State, o: Opt)
    requires WellFormed(w) && Kept(w, s) && o in AllOpts(w)
    requires t.configFiles == s.configFiles + [o.dest] && t.final == s.final
    requires t.ns == map d | d in s.ns && (Reserved(d) || d in s.configFiles) :: s.ns[d]
    ensures KeptBut(w, t, o.dest) && (o == w.main ==> Kept(w, t))
  {
    hide Reserved, AllOpts;
  }

  /** A new config file empties the namespace; what remains is still right. */
  lemma AddConfigFileKeeps(w: World, argv: seq<Arg>, s: State, dest: string, file: Option<Value>, o: Opt)
    requires WellFormed(w) && Inv(w, argv, s) && o in AllOpts(w) && o.dest == dest
    requires o.kind.ConfigFile? || o == w.main
    ensures Forward(w, s, AddConfigFile(w, s, dest, file)) && InvBut(w, argv, AddConfigFile(w, s, dest, file), dest)
    ensures o == w.main ==> Inv(w, argv, AddConfigFile(w, s, dest, file))
    ensures var t := AddConfigFile(w, s, dest, file);
      && t.final == s.final && t.options == s.options && dest in t.configFiles
      && (dest in s.configFiles ==> t == s)
      && (dest !in s.configFiles ==> t.stale == s.final && !t.parsed && t.readLog == s.readLog + [(dest, file)])
  {
    if dest !in s.configFiles {
      ReadingKeepsCore(w, s, dest, file, o);
      var t := AddConfigFile(w, s, dest, file);
      hide AddConfigFile, Contents, Reserved, AllOpts, AllComps, Known, Core, Entries, WellFormed;
      ResetKeepsEntries(w, argv, s, t);
      MissingShrinks(w, s, t);
      OthersAreKept(w, s, t, o);
    }
  }

  // ---------- actions ----------

  lemma StepTrans(w: World, argv: seq<Arg>, s: State, t: State, u: State)
    requires Forward(w, s, t) && Step(w, argv, t, u)
    ensures Step(w, argv, s, u)
  {
    hide Inv, Missing;
  }

  lemma NoStep(w: World, argv: seq<Arg>, s: State)
    requires Inv(w, argv, s)
    ensures Step(w, argv, s, s)
  {
    hide Inv, Missing;
  }

  /** Storing an allowed value under one option concerns no other option. */
  lemma PutKeeps(w: World, argv: seq<Arg>, s: State, o: Opt, v: Option<Value>, final: bool)
    requires WellFormed(w) && InvBut(w, argv, s, o.dest) && o in s.options
    requires o.kind.ConfigFile? ==> final || o.dest !in s.configFiles
    requires Known(w, argv, if final then PutFinal(s, o, v) else Put(s, o.dest, v), o)
    ensures Step(w, argv, s, if final then PutFinal(s, o, v) else Put(s, o.dest, v))
  {
    var t := if final then PutFinal(s, o, v) else Put(s, o.dest, v);
    InOptions(w, s, o);
    PutKeepsCore(w, s, t, o);
    PutKeepsEntries(w, argv, s, t, o);
    PutIsKept(w, s, t, o);
    SameMissing(w, s, t);
    hide Missing, AllOpts, Core, Entries, Known, WellFormed, Kept;
  }

  lemma PutKeepsCore(w: World, s: State, t: State, o: Opt)
    requires Core(w, s) && o in s.options && t.(ns := s.ns, final := s.final) == s && t.ns.Keys == s.ns.Keys + {o.dest}
    requires s.final <= t.final && forall p :: p in t.final ==> p in s.final || p == o
    ensures Core(w, t)
  {
    hide AllOpts, Precedence, Reserved, Merged, Distinct, Logged;
    forall d | d in t.ns ensures Reserved(d) || HasDest(t.options, d) {
      if d == o.dest {
        var i :| 0 <= i < |s.options| && s.options[i] == o;
        assert HasDest(t.options, d);
      }
    }
    assert forall p :: Default(t, p) == Default(s, p);
  }

  lemma PutKeepsEntries(w: World, argv: seq<Arg>, s: State, t: State, o: Opt)
    requires WellFormed(w) && Core(w, s) && Entries(w, argv, s) && o in s.options
    requires t.(ns := s.ns, final := s.final) == s
    requires forall d :: d != o.dest ==> Entry(t.ns, d) == Entry(s.ns, d)
    requires forall p :: p != o ==> (p in t.final <==> p in s.final)
    requires Known(w, argv, t, o)
    ensures Entries(w, argv, t)
  {
    hide AllOpts, EntryOk, Precedence;
    forall p | p in s.options ensures Known(w, argv, t, p) {
      assert Known(w, argv, s, p);
      if p != o { assert p.dest != o.dest && Entry(t.ns, p.dest) == Entry(s.ns, p.dest); }
    }
  }

  lemma PutIsKept(w: World, s: State, t: State, o: Opt)
    requires WellFormed(w) && KeptBut(w, s, o.dest) && o in AllOpts(w) && t.configFiles == s.configFiles
    requires forall d :: d in s.ns || d == o.dest ==> d in t.ns
    requires s.final <= t.final && (o.kind.ConfigFile? ==> o in t.final || o.dest !in s.configFiles)
    ensures Kept(w, t)
  {
    hide AllOpts;
  }

  lemma SameMissing(w: World, s: State, t: State)
    requires s.components == t.components && s.configFiles == t.configFiles
    ensures Missing(w, t) == Missing(w, s)
  {
  }

  /** What the parser may call an action with: an argument for the option, or the option's default. */
  ghost predicate MayCall(w: World, argv: seq<Arg>, s: State, o: Opt, v: Option<Value>, fromCli: bool)
  {
    (o.cli && Occurs(argv, o.dest)) ||
    (!fromCli && o.kind.ConfigFile? && v == Precedence(w, s.cfp, o) && o.dest !in s.configFiles) ||
    (!fromCli && !o.kind.ConfigFile? && v == Precedence(w, s.cfp, o) &&
      ((!o.cli && Truthy(v)) || (o.kind.Component? && o !in s.final)))
  }

  /** What an argument v for o does to the namespace. */
  ghost predicate Obeys(s: State, o: Opt, v: Value)
  {
    o.dest in s.ns &&
    match o.kind
    case Store => s.ns[o.dest] == Some(v)
    case ConfigFile => o in s.final && s.ns[o.dest] == Some(v) && (Truthy(Some(v)) ==> o.dest in s.configFiles)
    case Boolean => s.ns[o.dest] == Some(Flag(!Truthy(o.hard)))
    case Component(_, _, _) => o in s.final && Resolves(o, Some(v), s.ns[o.dest], s.components)
  }

  /** While `parsed` stays set, only the entry of o changes. */
  ghost predicate OnlyEntryOf(s: State, t: State, dest: string)
  {
    t.parsed ==> forall d :: d in s.ns && d != dest ==> d in t.ns && t.ns[d] == s.ns[d]
  }

  /** The effect of one call of an action. */
  ghost predicate Called(w: World, argv: seq<Arg>, s: State, t: State, o: Opt, v: Option<Value>, fromCli: bool)
  {
    && Step(w, argv, s, t) && OnlyEntryOf(s, t, o.dest) && o.dest in t.ns
    && (o.kind.Component? || o.kind.ConfigFile? ==> o in t.final)
    && (fromCli && v.Some? ==> Obeys(t, o, v.value))
  }

  lemma CallStoreKeeps(w: World, argv: seq<Arg>, s: State, o: Opt, v: Option<Value>, fromCli: bool, parser: bool)
    requires o.kind.Store? || o.kind.Boolean?
    requires WellFormed(w) && Inv(w, argv, s) && o in s.options && MayCall(w, argv, s, o, v, fromCli)
    requires Call(w, s, o, v, fromCli, parser).Ok?
    ensures Called(w, argv, s, Call(w, s, o, v, fromCli, parser).value, o, v, fromCli)
  {
    hide Step, AllOpts, FromConfig, Core, Loaded, Entries, Occurs;
    PutKeeps(w, argv, s, o, Call(w, s, o, v, fromCli, parser).value.ns[o.dest], false);
  }

  lemma CallConfigFileKeeps(w: World, argv: seq<Arg>, s: State, o: Opt, v: Option<Value>, fromCli: bool, parser: bool)
    requires o.kind.ConfigFile?
    requires WellFormed(w) && Inv(w, argv, s) && o in s.options && MayCall(w, argv, s, o, v, fromCli)
    requires Call(w, s, o, v, fromCli, parser).Ok?
    ensures Called(w, argv, s, Call(w, s, o, v, fromCli, parser).value, o, v, fromCli)
  {
    hide Inv, Known, AllOpts, FromConfig, Occurs, AddConfigFile, Missing, Truthy, WellFormed;
    InvParts(w, argv, s, o);
    var a := if Truthy(v) then AddConfigFile(w, s, o.dest, v) else s;
    hide InvBut;
    if Truthy(v) { ReadingForOption(w, argv, s, o, v); } else { NoStep(w, argv, s); }
    var t := PutFinal(a, o, v);
    if !(o.cli && Occurs(argv, o.dest)) { FirstReading(w, argv, s, a, o, v); }
    ConfigFilesAreKnown(w, argv, t, o);
    PutKeeps(w, argv, a, o, v, true);
    hide Forward;
    StepTrans(w, argv, s, a, t);
  }

  /** The file is read, or it has been; the option keeps its place in between. */
  lemma ReadingForOption(w: World, argv: seq<Arg>, s: State, o: Opt, v: Option<Value>)
    requires WellFormed(w) && Inv(w, argv, s) && o in s.options && o in AllOpts(w) && o.kind.ConfigFile?
    ensures var a := AddConfigFile(w, s, o.dest, v);
      && Forward(w, s, a) && InvBut(w, argv, a, o.dest) && o in a.options && o.dest in a.configFiles
      && a.final == s.final && !(a.parsed && !s.parsed)
      && (o.dest !in s.configFiles ==> a.readLog == s.readLog + [(o.dest, v)] && !a.parsed)
      && (o.dest in s.configFiles ==> a == s)
  {
    hide Inv, InvBut, AllOpts, AddConfigFile, Missing, WellFormed;
    AddConfigFileKeeps(w, argv, s, o.dest, v, o);
  }

  /** What an option that is not given is read as. */
  lemma FirstReading(w: World, argv: seq<Arg>, s: State, a: State, o: Opt, v: Option<Value>)
    requires Inv(w, argv, s) && v == Precedence(w, s.cfp, o)
    ensures a.readLog == s.readLog + [(o.dest, v)] ==> ReadAs(w, PutFinal(a, o, v), o)
  {
    hide Precedence, Entries, Loaded, Kept;
    if a.readLog == s.readLog + [(o.dest, v)] {
      assert a.readLog[..|s.readLog|] == s.readLog && a.readLog[|s.readLog|] == (o.dest, v);
    }
  }

  lemma InvParts(w: World, argv: seq<Arg>, s: State, o: Opt)
    requires Inv(w, argv, s) && o in s.options
    ensures InvBut(w, argv, s, o.dest) && o in AllOpts(w)
  {
  }

  lemma ConfigFilesAreKnown(w: World, argv: seq<Arg>, s: State, o: Opt)
    requires o.kind.ConfigFile? && o.dest in s.ns
    requires (o.cli && Occurs(argv, o.dest)) || (
      if o.dest in s.configFiles then ReadAs(w, s, o)
      else s.ns[o.dest] == Precedence(w, s.cfp, o) && !Truthy(s.ns[o.dest]))
    ensures Known(w, argv, s, o)
  {
  }

  lemma ResolvedIsKnown(w: World, argv: seq<Arg>, s: State, a: State, o: Opt, v: Option<Value>, fromCli: bool)
    requires o.kind.Component? && MayCall(w, argv, s, o, v, fromCli) && s.stale <= s.final
    requires a.stale == s.stale && a.cfp == s.cfp && Resolves(o, v, Resolved(o, v), a.components)
    ensures Known(w, argv, PutFinal(a, o, Resolved(o, v)), o)
  {
    hide Occurs, FromConfig, Resolves, Resolved;
    if !(o.cli && Occurs(argv, o.dest)) {
      assert EntryOk(o, v, Some(Resolved(o, v)), true, o in s.stale, o.dest in a.configFiles, false, a.components);
    }
  }

  lemma CallComponentKeeps(w: World, argv: seq<Arg>, s: State, o: Opt, v: Option<Value>, fromCli: bool, parser: bool)
    requires o.kind.Component?
    requires WellFormed(w) && Inv(w, argv, s) && o in s.options && MayCall(w, argv, s, o, v, fromCli)
    requires Call(w, s, o, v, fromCli, parser).Ok?
    ensures Called(w, argv, s, Call(w, s, o, v, fromCli, parser).value, o, v, fromCli)
  {
    hide Inv, WellFormed, LoadEach, Missing, MayCall, Step, ClassesOf, Called;
    if v.Some? {
      var names := NamesIn(o, v.value).value;
      LoadEachKeeps(w, argv, s, o, names) by { CoreIsInvariant(w, argv, s, o); }
      StoringClasses(w, argv, s, LoadEach(w, s, o, names).value, o, v, fromCli);
    } else {
      NoStep(w, argv, s);
      StoringClasses(w, argv, s, s, o, v, fromCli);
    }
  }

  /** All named components are loaded; what they are is stored. */
  lemma StoringClasses(w: World, argv: seq<Arg>, s: State, a: State, o: Opt, v: Option<Value>, fromCli: bool)
    requires o.kind.Component? && WellFormed(w) && Inv(w, argv, s) && o in s.options
    requires MayCall(w, argv, s, o, v, fromCli)
    requires Step(w, argv, s, a) && SameButOptions(s, a) && forall c :: c in ComponentsIn(o, v) ==> c in a.components
    ensures Called(w, argv, s, PutFinal(a, o, Resolved(o, v)), o, v, fromCli)
  {
    CoreIsInvariant(w, argv, s, o);
    hide Inv, WellFormed, AllOpts, Precedence, Occurs, Missing, Resolved, ComponentsIn, Known, MayCall;
    ResolvedIsKnown(w, argv, s, a, o, v, fromCli);
    InvParts(w, argv, a, o);
    PutKeeps(w, argv, a, o, Resolved(o, v), true);
    hide Forward;
    StepTrans(w, argv, s, a, PutFinal(a, o, Resolved(o, v)));
  }

  lemma CallKeeps(w: World, argv: seq<Arg>, s: State, o: Opt, v: Option<Value>, fromCli: bool, parser: bool)
    requires WellFormed(w) && Inv(w, argv, s) && o in s.options && MayCall(w, argv, s, o, v, fromCli)
    requires Call(w, s, o, v, fromCli, parser).Ok?
    ensures Called(w, argv, s, Call(w, s, o, v, fromCli, parser).value, o, v, fromCli)
  {
    hide Called, Call, Inv, MayCall;
    match o.kind {
      case ConfigFile => CallConfigFileKeeps(w, argv, s, o, v, fromCli, parser);
      case Component(_, _, _) => CallComponentKeeps(w, argv, s, o, v, fromCli, parser);
      case _ => CallStoreKeeps(w, argv, s, o, v, fromCli, parser);
    }
  }

  lemma InOptions(w: World, s: State, o: Opt)
    requires Core(w, s) && o in s.options
    ensures o in AllOpts(w) && o in s.defaultsSet && Default(s, o) == Precedence(w, s.cfp, o)
  {
  }

  // ---------- the passes over all options ----------

  lemma CoreIsInvariant(w: World, argv: seq<Arg>, s: State, o: Opt)
    requires Inv(w, argv, s) && o in s.options
    ensures o in AllOpts(w) && o in s.defaultsSet && Default(s, o) == Precedence(w, s.cfp, o) && Known(w, argv, s, o)
    ensures s.stale <= s.final
    ensures o.kind.ConfigFile? && o.dest in s.configFiles ==> o in s.final && o.dest in s.ns
  {
  }

  lemma SetDefaultsIsIdle(w: World, argv: seq<Arg>, s: State)
    requires Inv(w, argv, s)
    ensures SetDefaults(w, s, s.options) == s
  {
    SetDefaultsChangesNothing(w, s, s.options);
  }

  /** Storing the default of an option that the namespace lacks. */
  lemma PutDefaultKeeps(w: World, argv: seq<Arg>, s: State, o: Opt)
    requires WellFormed(w) && Inv(w, argv, s) && o in s.options && o.dest !in s.ns
    requires o.cli || !Truthy(Default(s, o))
    ensures Step(w, argv, s, Put(s, o.dest, Default(s, o)))
  {
    CoreIsInvariant(w, argv, s, o);
    hide WellFormed, Inv, Step, AllOpts, FromConfig, Occurs, Resolves;
    PutKeeps(w, argv, s, o, Default(s, o), false);
  }

  ghost predicate KeepsEntries(s: State, t: State)
  {
    t.parsed ==> forall d :: d in s.ns ==> d in t.ns && t.ns[d] == s.ns[d]
  }

  lemma ParseConfigOptionKeeps(w: World, argv: seq<Arg>, s: State, o: Opt)
    requires WellFormed(w) && Inv(w, argv, s) && o in s.options && ParseConfigOption(w, s, o).Ok?
    ensures var t := ParseConfigOption(w, s, o).value;
      Step(w, argv, s, t) && KeepsEntries(s, t) && (o.cli || o.dest in t.ns)
  {
    CoreIsInvariant(w, argv, s, o);
    hide WellFormed, Inv, Step, AllOpts, FromConfig, Occurs, Call, EntryOk, Obeys;
    if o.cli || o.dest in s.ns {
      NoStep(w, argv, s);
    } else if Truthy(Default(s, o)) {
      CallKeeps(w, argv, s, o, Default(s, o), false, true);
    } else {
      PutDefaultKeeps(w, argv, s, o);
    }
  }

  lemma {:induction false} ParseConfigOptionsKeeps(w: World, argv: seq<Arg>, s: State, os: seq<Opt>)
    requires WellFormed(w) && Inv(w, argv, s) && HasAll(s.options, os) && ParseConfigOptions(w, s, os).Ok?
    ensures var t := ParseConfigOptions(w, s, os).value;
      Step(w, argv, s, t) && KeepsEntries(s, t) && (t.parsed ==> forall o :: o in os ==> o.cli || o.dest in t.ns)
    decreases |os|
  {
    hide WellFormed, Inv, ParseConfigOption, Missing;
    if os == [] {
      NoStep(w, argv, s);
    } else {
      var t := ParseConfigOption(w, s, os[0]).value;
      ParseConfigOptionKeeps(w, argv, s, os[0]);
      ParseConfigOptionsKeeps(w, argv, t, os[1..]);
      StepTrans(w, argv, s, t, ParseConfigOptions(w, t, os[1..]).value);
      assert forall o :: o in os ==> o == os[0] || o in os[1..];
    }
  }

  lemma {:induction false} FillInKeeps(w: World, argv: seq<Arg>, s: State, os: seq<Opt>)
    requires WellFormed(w) && Inv(w, argv, s) && HasAll(s.options, os)
    ensures var t := FillIn(s, os);
      Step(w, argv, s, t) && t.parsed == s.parsed && t.options == s.options && s.ns.Keys <= t.ns.Keys &&
        (forall o :: o in os && o.cli ==> o.dest in t.ns)
    decreases |os|
  {
    hide WellFormed, Inv, Missing;
    if os == [] {
      NoStep(w, argv, s);
    } else {
      var o := os[0];
      var t := if o.cli && o.dest !in s.ns then Put(s, o.dest, Default(s, o)) else s;
      if o.cli && o.dest !in s.ns { PutDefaultKeeps(w, argv, s, o); } else { NoStep(w, argv, s); }
      FillInKeeps(w, argv, t, os[1..]);
      StepTrans(w, argv, s, t, FillIn(t, os[1..]));
      assert forall p :: p in os ==> p == os[0] || p in os[1..];
    }
  }

  // ---------- finalizing ----------

  predicate Finalizable(o: Opt) { o.kind.Component? || o.kind.ConfigFile? }

  /** While `parsed` stays set, finalizing leaves the entries of final and of ordinary options alone. */
  ghost predicate KeepsFinal(s: State, t: State)
  {
    t.parsed ==> forall o :: o in s.options && (o in s.final || !Finalizable(o)) && o.dest in s.ns ==>
      o.dest in t.ns && t.ns[o.dest] == s.ns[o.dest]
  }

  lemma FinalizeOptionKeeps(w: World, argv: seq<Arg>, s: State, o: Opt)
    requires WellFormed(w) && Inv(w, argv, s) && o in s.options && FinalizeOption(w, s, o).Ok?
    ensures var t := FinalizeOption(w, s, o).value;
      Step(w, argv, s, t) && KeepsFinal(s, t) && (Finalizable(o) ==> o in t.final)
  {
    forall p | p in s.options ensures p in AllOpts(w) && Known(w, argv, s, p) {
      CoreIsInvariant(w, argv, s, p);
    }
    CoreIsInvariant(w, argv, s, o);
    hide Inv, Step, AllOpts, FromConfig, Occurs, Call, Obeys, Resolves, Truthy;
    if Finalizable(o) && o !in s.final {
      var v := if o.dest in s.ns then s.ns[o.dest] else Default(s, o);
      assert MayCall(w, argv, s, o, v, false);
      CallKeeps(w, argv, s, o, v, false, o.cli);
    } else {
      NoStep(w, argv, s);
    }
  }

  lemma {:induction false} FinalizeKeeps(w: World, argv: seq<Arg>, s: State, os: seq<Opt>)
    requires WellFormed(w) && Inv(w, argv, s) && HasAll(s.options, os) && Finalize(w, s, os).Ok?
    ensures var t := Finalize(w, s, os).value;
      Step(w, argv, s, t) && KeepsFinal(s, t) && (forall o :: o in os && Finalizable(o) ==> o in t.final)
    decreases |os|
  {
    hide WellFormed, Inv, FinalizeOption, Missing, Finalizable;
    if os == [] {
      NoStep(w, argv, s);
    } else {
      var t := FinalizeOption(w, s, os[0]).value;
      FinalizeOptionKeeps(w, argv, s, os[0]);
      FinalizeKeeps(w, argv, t, os[1..]);
      StepTrans(w, argv, s, t, Finalize(w, t, os[1..]).value);
      assert forall o :: o in os ==> o == os[0] || o in os[1..];
    }
  }

  // ---------- the command line ----------

  /** The value of the last argument for dest. */
  function LastValue(argv: seq<Arg>, dest: string): Value
    requires Occurs(argv, dest)
  {
    if Occurs(argv[1..], dest) then LastValue(argv[1..], dest) else argv[0].value
  }

  lemma OccursFirst(argv: seq<Arg>, dest: string)
    requires argv != []
    ensures Occurs(argv, dest) <==> argv[0].dest == dest || Occurs(argv[1..], dest)
  {
    if Occurs(argv[1..], dest) {
      var i :| 0 <= i < |argv[1..]| && argv[1..][i].dest == dest;
      assert argv[i + 1].dest == dest;
    }
    if Occurs(argv, dest) {
      var i :| 0 <= i < |argv| && argv[i].dest == dest;
      assert i > 0 ==> argv[1..][i - 1].dest == dest;
    }
  }

  lemma {:induction false} LookupFinds(os: seq<Opt>, dest: string)
    ensures match Lookup(os, dest)
      case Some(o) => o in os && o.cli && o.dest == dest
      case None => forall o :: o in os && o.cli ==> o.dest != dest
  {
    if os != [] {
      LookupFinds(os[1..], dest);
    }
  }

  /** While `parsed` stays set, arguments leave alone what they do not name. */
  ghost predicate KeepsUnnamed(s: State, t: State, argv: seq<Arg>)
  {
    t.parsed ==> forall d :: d in s.ns && !Occurs(argv, d) ==> d in t.ns && t.ns[d] == s.ns[d]
  }

  lemma ObeysIsKept(s: State, t: State, o: Opt, v: Value)
    requires Obeys(s, o, v) && o.dest in t.ns && t.ns[o.dest] == s.ns[o.dest]
    requires s.final <= t.final && (forall c :: c in s.components ==> c in t.components)
    requires forall d :: d in s.configFiles ==> d in t.configFiles
    ensures Obeys(t, o, v)
  {
  }

  lemma ParseArgKeeps(w: World, all: seq<Arg>, s: State, os: seq<Opt>, arg: Arg)
    requires WellFormed(w) && Inv(w, all, s) && HasAll(s.options, os) && ParseArg(w, s, os, arg).Ok?
    requires Occurs(all, arg.dest)
    ensures var t := ParseArg(w, s, os, arg).value;
      Step(w, all, s, t) && OnlyEntryOf(s, t, arg.dest) &&
        (Lookup(os, arg.dest).Some? ==> Obeys(t, Lookup(os, arg.dest).value, arg.value))
  {
    hide WellFormed, Inv, Occurs, Call, Obeys, Missing;
    LookupFinds(os, arg.dest);
    if Lookup(os, arg.dest).Some? {
      CallKeeps(w, all, s, Lookup(os, arg.dest).value, Some(arg.value), true, true);
    } else {
      NoStep(w, all, s);
    }
  }

  ghost predicate AllObeyed(t: State, os: seq<Opt>, argv: seq<Arg>)
  {
    t.parsed ==> forall o :: o in os && o.cli && Occurs(argv, o.dest) ==> Obeys(t, o, LastValue(argv, o.dest))
  }

  lemma {:induction false} ParseArgsKeeps(w: World, all: seq<Arg>, s: State, os: seq<Opt>, argv: seq<Arg>)
    requires WellFormed(w) && Inv(w, all, s) && HasAll(s.options, os) && ParseArgs(w, s, os, argv).Ok?
    requires forall a :: a in argv ==> Occurs(all, a.dest)
    requires forall o, p :: o in os && p in os && o.dest == p.dest ==> o == p
    ensures var t := ParseArgs(w, s, os, argv).value;
      Step(w, all, s, t) && KeepsUnnamed(s, t, argv) && AllObeyed(t, os, argv)
    decreases |argv|
  {
    hide WellFormed, Inv, ParseArg, Missing, Obeys, Occurs;
    if argv == [] {
      NoStep(w, all, s);
      assert forall d :: !Occurs(argv, d) by { NothingOccurs(); }
    } else {
      var u := ParseArg(w, s, os, argv[0]).value;
      var t := ParseArgs(w, u, os, argv[1..]).value;
      ParseArgKeeps(w, all, s, os, argv[0]);
      ParseArgsKeeps(w, all, u, os, argv[1..]);
      StepTrans(w, all, s, u, t);
      forall d ensures Occurs(argv, d) <==> argv[0].dest == d || Occurs(argv[1..], d) {
        OccursFirst(argv, d);
      }
      LookupFinds(os, argv[0].dest);
      if t.parsed {
        forall o | o in os && o.cli && Occurs(argv, o.dest) ensures Obeys(t, o, LastValue(argv, o.dest)) {
          if !Occurs(argv[1..], o.dest) {
            assert Lookup(os, argv[0].dest) == Some(o);
            assert Obeys(u, o, argv[0].value);
            assert o.dest in u.ns by { ObeysHasEntry(u, o, argv[0].value); }
            ObeysIsKept(u, t, o, argv[0].value);
          }
        }
      }
    }
  }

  lemma NothingOccurs()
    ensures forall d :: !Occurs([], d)
  {
  }

  lemma ObeysHasEntry(s: State, o: Opt, v: Value)
    requires Obeys(s, o, v)
    ensures o.dest in s.ns
  {
  }

  // ---------- a round of phase 3 ----------

  /** The arguments that no option known at the start of the round takes. */
  function Remaining(os: seq<Opt>, argv: seq<Arg>): seq<Arg>
  {
    if argv == [] then []
    else (if Lookup(os, argv[0].dest).None? then [argv[0]] else []) + Remaining(os, argv[1..])
  }

  /**
   What an option is worth when parsing is over: its argument; otherwise environment, config files or
   declared default in that order. The default of a component option stands for the loaded components,
   except that it is left as it is if the namespace was emptied after the option had been finalized.
   With the same exception, the file that a config file option names has been read.
   */
  ghost predicate Settles(w: World, argv: seq<Arg>, t: State, o: Opt)
  {
    var default := Precedence(w, t.cfp, o);
    o.dest in t.ns &&
    if o.cli && Occurs(argv, o.dest) then Obeys(t, o, LastValue(argv, o.dest))
    else match o.kind
      case ConfigFile =>
        if o.dest in t.configFiles then ReadAs(w, t, o)
        else t.ns[o.dest] == default && (Truthy(default) ==> o in t.stale)
      case Component(_, _, _) =>
        if o in t.stale && (o.cli || !Truthy(default)) then t.ns[o.dest] == default
        else Resolves(o, default, t.ns[o.dest], t.components)
      case _ => t.ns[o.dest] == Settled(o, default)
  }

  lemma KnownSettles(w: World, all: seq<Arg>, argv: seq<Arg>, t: State, o: Opt)
    requires Known(w, all, t, o) && o.dest in t.ns && (Finalizable(o) ==> o in t.final)
    requires o.cli && Occurs(all, o.dest) ==> Occurs(argv, o.dest) && Obeys(t, o, LastValue(argv, o.dest))
    requires forall a :: a in argv ==> Occurs(all, a.dest)
    ensures Settles(w, argv, t, o)
  {
    hide FromConfig, Resolves, Obeys, Truthy;
    if Occurs(argv, o.dest) {
      var i :| 0 <= i < |argv| && argv[i].dest == o.dest;
      assert argv[i] in argv;
    }
  }

  /** The option has no entry that stems from earlier arguments. */
  ghost predicate Free(all: seq<Arg>, argv: seq<Arg>, o: Opt)
  {
    o.cli && Occurs(all, o.dest) ==> Occurs(argv, o.dest)
  }

  /** `all` are the arguments of this and of earlier parses, `argv` those of this one. */
  lemma RoundKeeps(w: World, all: seq<Arg>, argv: seq<Arg>, s: State)
    requires WellFormed(w) && Inv(w, all, s) && Round(w, s, argv).Ok? && forall a :: a in argv ==> Occurs(all, a.dest)
    ensures Step(w, all, s, Round(w, s, argv).value)
    ensures Round(w, s, argv).value.parsed ==>
      forall o | o in s.options :: (Finalizable(o) ==> o in Round(w, s, argv).value.final) &&
        (Free(all, argv, o) ==> Settles(w, argv, Round(w, s, argv).value, o))
  {
    hide Inv, Missing, FillIn, ParseArgs, ParseConfigOptions, Finalize, Obeys, Occurs, Settles, AllOpts, Finalizable;
    var os := s.options;
    forall o | o in os ensures o in AllOpts(w) { CoreIsInvariant(w, all, s, o); }
    var f := FillIn(s, os);
    FillInKeeps(w, all, s, os);
    var a := ParseArgs(w, f, os, argv).value;
    ParseArgsKeeps(w, all, f, os, argv);
    StepTrans(w, all, s, f, a);
    SetDefaultsIsIdle(w, all, a);
    var c := ParseConfigOptions(w, a, a.options).value;
    ParseConfigOptionsKeeps(w, all, a, a.options);
    StepTrans(w, all, s, a, c);
    var t := Finalize(w, c, c.options).value;
    FinalizeKeeps(w, all, c, c.options);
    StepTrans(w, all, s, c, t);
    if t.parsed {
      forall o | o in os && Free(all, argv, o) ensures Settles(w, argv, t, o) {
        CoreIsInvariant(w, all, t, o);
        assert o.dest in c.ns;
        if o.cli && Occurs(argv, o.dest) {
          ObeyedStays(a, c, o, LastValue(argv, o.dest));
          ObeyedStays(c, t, o, LastValue(argv, o.dest));
        }
        KnownSettles(w, all, argv, t, o);
      }
    }
  }

  lemma OccursAt(argv: seq<Arg>, a: Arg)
    requires a in argv
    ensures Occurs(argv, a.dest)
  {
    var i :| 0 <= i < |argv| && argv[i] == a;
  }

  lemma ObeyedStays(s: State, t: State, o: Opt, v: Value)
    requires Obeys(s, o, v) && o in s.options && t.parsed && (KeepsEntries(s, t) || KeepsFinal(s, t))
    requires s.final <= t.final && (forall c :: c in s.components ==> c in t.components)
    requires forall d :: d in s.configFiles ==> d in t.configFiles
    ensures Obeys(t, o, v)
  {
    ObeysIsKept(s, t, o, v);
  }
}
