/** What the namespace and the files read amount to, in the plain terms of the arguments and defaults. */
module OptionOutcomes {
  import opened Common
  import opened OptionModel
  import opened OptionRuns
  import opened OptionLosses
  import opened Ordering

  // ---------- components ----------

  /** How many of the first i names stand for a component. */
  ghost function KnownBefore(mapping: map<string, Comp>, names: seq<string>, i: nat): nat
    requires i <= |names|
  {
    |KnownPositions(mapping, names, i)|
  }

  ghost function KnownPositions(mapping: map<string, Comp>, names: seq<string>, i: nat): set<nat>
    requires i <= |names|
  {
    set j: nat | j < i && names[j] in mapping
  }

  /** The components that the names stand for, in their order; names that stand for none are left out. */
  ghost predicate InOrder(mapping: map<string, Comp>, names: seq<string>, classes: seq<Comp>)
  {
    && |classes| == KnownBefore(mapping, names, |names|)
    && forall i :: 0 <= i < |names| && names[i] in mapping ==>
          KnownBefore(mapping, names, i) < |classes| && classes[KnownBefore(mapping, names, i)] == mapping[names[i]]
  }

  lemma {:induction false} ClassesOfMore(o: Opt, names: seq<string>, name: string)
    requires o.kind.Component?
    ensures ClassesOf(o, names + [name]) ==
      ClassesOf(o, names) + if name in o.kind.mapping then [o.kind.mapping[name]] else []
  {
    if names == [] {
      assert [] + [name] == [name] && [name][1..] == [];
    } else {
      assert (names + [name])[1..] == names[1..] + [name];
      ClassesOfMore(o, names[1..], name);
    }
  }

  lemma KnownOneMore(mapping: map<string, Comp>, names: seq<string>, name: string)
    ensures KnownBefore(mapping, names + [name], |names| + 1) ==
      KnownBefore(mapping, names, |names|) + if name in mapping then 1 else 0
    ensures forall i :: 0 <= i <= |names| ==>
      KnownBefore(mapping, names + [name], i) == KnownBefore(mapping, names, i) <= KnownBefore(mapping, names, |names|)
  {
    var more, n := names + [name], |names|;
    forall i | 0 <= i <= n
      ensures KnownPositions(mapping, more, i) == KnownPositions(mapping, names, i) <= KnownPositions(mapping, names, n)
    {
    }
    forall i | 0 <= i <= n ensures KnownBefore(mapping, names, i) <= KnownBefore(mapping, names, n) {
      SubsetIsSmaller(KnownPositions(mapping, names, i), KnownPositions(mapping, names, n));
    }
    assert KnownPositions(mapping, more, n + 1) ==
      KnownPositions(mapping, names, n) + if name in mapping then {n} else {};
  }

  lemma InOrderMore(mapping: map<string, Comp>, names: seq<string>, name: string, classes: seq<Comp>)
    requires InOrder(mapping, names, classes)
    ensures InOrder(mapping, names + [name], classes + if name in mapping then [mapping[name]] else [])
  {
    KnownOneMore(mapping, names, name);
    hide KnownBefore;
    var n, more := |names|, classes + if name in mapping then [mapping[name]] else [];
    forall i | 0 <= i < n && names[i] in mapping
      ensures KnownBefore(mapping, names, i) < |more| && more[KnownBefore(mapping, names, i)] == mapping[names[i]]
    {
    }
    assert (names + [name])[n] == name && forall i :: 0 <= i < n ==> (names + [name])[i] == names[i];
  }

  lemma {:induction false} ClassesInOrder(o: Opt, names: seq<string>)
    requires o.kind.Component?
    ensures InOrder(o.kind.mapping, names, ClassesOf(o, names))
  {
    if names == [] {
      assert KnownPositions(o.kind.mapping, names, 0) == {};
    } else {
      hide InOrder;
      var n := |names| - 1;
      ClassesInOrder(o, names[..n]);
      assert names == names[..n] + [names[n]];
      ClassesOfMore(o, names[..n], names[n]);
      InOrderMore(o.kind.mapping, names[..n], names[n], ClassesOf(o, names[..n]));
    }
  }

  /** A list given as text is taken for the list of its characters. */
  lemma {:induction false} CharactersAre(t: string)
    ensures |Characters(t)| == |t| && forall i :: 0 <= i < |t| ==> Characters(t)[i] == [t[i]]
  {
    if t != "" { CharactersAre(t[1..]); }
  }

  /** The entry stands for the components that the value names. */
  ghost predicate StandsFor(o: Opt, v: Option<Value>, entry: Option<Value>)
    requires o.kind.Component?
  {
    var m := o.kind.mapping;
    && (v.None? ==> entry.None?)
    && (v.Some? && v.value.Names? && o.kind.isList ==>
          entry.Some? && entry.value.Classes? && InOrder(m, v.value.names, entry.value.comps))
    && (v.Some? && v.value.Text? && !o.kind.isList ==>
          entry == if v.value.text in m then Some(Class(m[v.value.text])) else None)
    && (v.Some? && v.value.Text? && o.kind.isList ==>
          entry.Some? && entry.value.Classes? &&
          InOrder(m, seq(|v.value.text|, i requires 0 <= i < |v.value.text| => [v.value.text[i]]), entry.value.comps))
  }

  lemma ResolvedStandsFor(o: Opt, v: Option<Value>)
    requires o.kind.Component?
    ensures StandsFor(o, v, Resolved(o, v))
  {
    hide ClassesOf, InOrder, Characters;
    if v.Some? && v.value.Text? {
      var t := v.value.text;
      CharactersAre(t);
      assert Characters(t) == seq(|t|, i requires 0 <= i < |t| => [t[i]]);
      OneClass(o, t);
    }
    if v.Some? && NamesIn(o, v.value).Some? { ClassesInOrder(o, NamesIn(o, v.value).value); }
  }

  lemma OneClass(o: Opt, name: string)
    requires o.kind.Component?
    ensures ClassesOf(o, [name]) == if name in o.kind.mapping then [o.kind.mapping[name]] else []
  {
    assert [name][1..] == [];
  }

  // ---------- what an option is worth ----------

  /** A flag that is given turns its declared default over. */
  predicate TurnedOver(hard: Option<Value>, entry: Option<Value>)
  {
    && (hard.None? ==> entry == Some(Flag(true)))
    && (hard.Some? && hard.value.Flag? ==> entry == Some(Flag(!hard.value.flag)))
  }

  /** A value that is neither a flag nor empty. */
  predicate NamesSome(v: Option<Value>)
  {
    v.Some? && v != Some(Text("")) && v != Some(Names([])) && v != Some(Classes([])) && !v.value.Flag?
  }

  /** What an option is worth after parsing, told by its argument, or else its default. */
  ghost predicate Plainly(w: World, argv: seq<Arg>, t: State, o: Opt)
  {
    var default := Precedence(w, t.cfp, o);
    o.dest in t.ns &&
    if Named(argv, o) then
      var last := Some(LastValue(argv, o.dest));
      match o.kind
      case Boolean => TurnedOver(o.hard, t.ns[o.dest])
      case Component(_, _, _) => StandsFor(o, last, t.ns[o.dest])
      case _ => t.ns[o.dest] == last
    else
      match o.kind
      case Store => t.ns[o.dest] == default
      case Boolean =>
        if o.cli || default.None? || default.value.Flag? then t.ns[o.dest] == default
        else NamesSome(default) ==> t.ns[o.dest] == Some(Flag(true))
      case Component(_, _, _) =>
        o !in t.stale || (!o.cli && NamesSome(default)) ==> StandsFor(o, default, t.ns[o.dest])
      case ConfigFile =>
        o.dest !in t.configFiles ==> t.ns[o.dest] == default && (NamesSome(default) ==> o in t.stale)
  }

  /** All options are, but for those that earlier arguments were given for and these are not. */
  ghost predicate AllPlainly(w: World, seen: seq<Arg>, argv: seq<Arg>, t: State)
  {
    forall o :: o in t.options && Free(seen, argv, o) ==> Plainly(w, argv, t, o)
  }

  /** The reserved places of the namespace are left alone. */
  ghost predicate KeepsReserved(before: map<string, Option<Value>>, after: map<string, Option<Value>>, argv: seq<Arg>)
  {
    forall d :: d in before && (d in ["uri", "version", "name"] || "_" <= d) && !Occurs(argv, d) ==>
      d in after && after[d] == before[d]
  }

  lemma SettlesPlainly(w: World, argv: seq<Arg>, t: State, o: Opt)
    requires Settles(w, argv, t, o)
    ensures Plainly(w, argv, t, o)
  {
    hide Precedence, Occurs, LastValue, Resolved, StandsFor;
    if o.kind.Component? {
      ResolvedStandsFor(o, Precedence(w, t.cfp, o));
      if Named(argv, o) { ResolvedStandsFor(o, Some(LastValue(argv, o.dest))); }
    }
  }

  // ---------- the files that are read ----------

  /** All arguments for the option are texts, as they are on a command line. */
  predicate GivenAsText(argv: seq<Arg>, dest: string)
  {
    forall i :: 0 <= i < |argv| && argv[i].dest == dest ==> argv[i].value.Text?
  }

  /** Some argument names a file. */
  predicate GivenName(argv: seq<Arg>, dest: string)
  {
    exists i :: 0 <= i < |argv| && argv[i].dest == dest && argv[i].value != Text("")
  }

  lemma GivenFirst(argv: seq<Arg>, dest: string)
    requires argv != []
    ensures GivenAsText(argv, dest) ==> GivenAsText(argv[1..], dest) && (argv[0].dest == dest ==> argv[0].value.Text?)
    ensures GivenName(argv, dest) <==> (argv[0].dest == dest && argv[0].value != Text("")) || GivenName(argv[1..], dest)
  {
    assert forall i :: 0 <= i < |argv| - 1 ==> argv[1..][i] == argv[i + 1];
    if GivenName(argv, dest) {
      var i :| 0 <= i < |argv| && argv[i].dest == dest && argv[i].value != Text("");
      assert i > 0 ==> argv[1..][i - 1] == argv[i];
    }
    if GivenName(argv[1..], dest) {
      var i :| 0 <= i < |argv[1..]| && argv[1..][i].dest == dest && argv[1..][i].value != Text("");
      assert argv[i + 1].dest == dest;
    }
  }

  /** An option with arguments whose action reads a config file. */
  predicate FileOption(o: Opt) { o.cli && o.kind.ConfigFile? }

  /** What the call of an action means for one config file option. */
  lemma CallReads(s: State, t: State, p: Opt, v: Option<Value>, o: Opt)
    requires Does(s, t, p, v) && o.kind.ConfigFile? && (p.dest == o.dest ==> p == o)
    ensures o.dest in t.configFiles <==> o.dest in s.configFiles || (p == o && Truthy(v))
    ensures o in t.final <==> o in s.final || p == o
  {
  }

  lemma ArgReads(w: World, all: seq<Arg>, s: State, os: seq<Opt>, arg: Arg, o: Opt)
    requires WellFormed(w) && Inv(w, all, s) && HasAll(s.options, os) && ParseArg(w, s, os, arg).Ok?
    requires o in os && FileOption(o) && (arg.dest == o.dest ==> arg.value.Text?)
    ensures var t := ParseArg(w, s, os, arg).value;
      && (o.dest in t.configFiles <==> o.dest in s.configFiles || (arg.dest == o.dest && arg.value != Text("")))
      && (o in t.final <==> o in s.final || arg.dest == o.dest)
  {
    hide WellFormed, Inv, Call, Does;
    LookupFinds(os, arg.dest);
    if Lookup(os, arg.dest).Some? {
      var p := Lookup(os, arg.dest).value;
      if p.dest == o.dest { SamePlace(w, all, s, p, o); }
      CallDoes(w, all, s, p, Some(arg.value), true, true);
      CallReads(s, Call(w, s, p, Some(arg.value), true, true).value, p, Some(arg.value), o);
    }
  }

  lemma {:induction false} ArgsRead(w: World, all: seq<Arg>, s: State, os: seq<Opt>, args: seq<Arg>, o: Opt)
    requires WellFormed(w) && Inv(w, all, s) && HasAll(s.options, os) && ParseArgs(w, s, os, args).Ok?
    requires o in os && FileOption(o) && GivenAsText(args, o.dest) && forall a :: a in args ==> Occurs(all, a.dest)
    ensures var t := ParseArgs(w, s, os, args).value;
      && (o.dest in t.configFiles <==> o.dest in s.configFiles || GivenName(args, o.dest))
      && (o in t.final <==> o in s.final || Occurs(args, o.dest))
    decreases |args|
  {
    hide WellFormed, Inv, Missing, Occurs, ParseArg, FileOption, GivenAsText, GivenName, Obeys;
    if args == [] {
      NothingOccurs();
      assert !GivenName(args, o.dest) by { NothingGiven(o.dest); }
    } else {
      var u := ParseArg(w, s, os, args[0]).value;
      GivenFirst(args, o.dest);
      OccursFirst(args, o.dest);
      ArgReads(w, all, s, os, args[0], o);
      ParseArgKeeps(w, all, s, os, args[0]);
      ArgsRead(w, all, u, os, args[1..], o);
    }
  }

  lemma NothingGiven(dest: string)
    ensures !GivenName([], dest)
  {
  }

  /** Options without arguments read no file of an option with arguments. */
  lemma {:induction false} ConfigOptionsReadOthers(w: World, all: seq<Arg>, s: State, os: seq<Opt>, o: Opt)
    requires WellFormed(w) && Inv(w, all, s) && HasAll(s.options, os) && ParseConfigOptions(w, s, os).Ok?
    requires o in s.options && FileOption(o)
    ensures o.dest in ParseConfigOptions(w, s, os).value.configFiles <==> o.dest in s.configFiles
    decreases |os|
  {
    hide WellFormed, Inv, Missing, Occurs, Call, Does;
    if os != [] {
      var p := os[0];
      var u := ParseConfigOption(w, s, p).value;
      ParseConfigOptionKeeps(w, all, s, p);
      if !p.cli && p.dest !in s.ns && Truthy(Default(s, p)) {
        if p.dest == o.dest { SamePlace(w, all, s, p, o); }
        CallDoes(w, all, s, p, Default(s, p), false, true);
        CallReads(s, u, p, Default(s, p), o);
      }
      ConfigOptionsReadOthers(w, all, u, os[1..], o);
    }
  }

  /** Finalizing reads no file of an option that is final. */
  lemma {:induction false} FinalizeReadsOthers(w: World, all: seq<Arg>, s: State, os: seq<Opt>, o: Opt)
    requires WellFormed(w) && Inv(w, all, s) && HasAll(s.options, os) && Finalize(w, s, os).Ok?
    requires o in s.options && FileOption(o) && o in s.final
    ensures o.dest in Finalize(w, s, os).value.configFiles <==> o.dest in s.configFiles
    decreases |os|
  {
    hide WellFormed, Inv, Missing, Occurs, Call, Does;
    if os != [] {
      var p := os[0];
      var u := FinalizeOption(w, s, p).value;
      FinalizeOptionKeeps(w, all, s, p);
      if Finalizable(p) && p !in s.final {
        var v := if p.dest in s.ns then s.ns[p.dest] else Default(s, p);
        if p.dest == o.dest { SamePlace(w, all, s, p, o); }
        CallDoes(w, all, s, p, v, false, p.cli);
        CallReads(s, u, p, v, o);
      }
      FinalizeReadsOthers(w, all, u, os[1..], o);
    }
  }

  /** Of the options in question exactly those that an argument names a file for are read. */
  ghost predicate ReadsAsGiven(os: seq<Opt>, argv: seq<Arg>, before: seq<string>, after: seq<string>)
  {
    forall o | o in os && FileOption(o) && Occurs(argv, o.dest) && GivenAsText(argv, o.dest) ::
      o.dest in after <==> o.dest in before || GivenName(argv, o.dest)
  }

  /** Every file that an argument names for an option has been read, unless one was before. */
  ghost predicate AllGivenRead(os: seq<Opt>, argv: seq<Arg>, files: seq<string>)
  {
    forall o | o in os && FileOption(o) && GivenAsText(argv, o.dest) && GivenName(argv, o.dest) :: o.dest in files
  }

  lemma GivenAreRead(os: seq<Opt>, argv: seq<Arg>, before: seq<string>, after: seq<string>)
    requires ReadsAsGiven(os, argv, before, after)
    ensures AllGivenRead(os, argv, after)
  {
    hide FileOption, GivenAsText;
  }

  /** In every round of the second loop the files that arguments name are read, and no default in their place. */
  lemma RoundReadsAsGiven(w: World, all: seq<Arg>, argv: seq<Arg>, s: State)
    requires WellFormed(w) && Inv(w, all, s) && Round(w, s, argv).Ok? && forall a :: a in argv ==> Occurs(all, a.dest)
    ensures ReadsAsGiven(s.options, argv, s.configFiles, Round(w, s, argv).value.configFiles)
  {
    hide WellFormed, Inv, Missing, Occurs, FillIn, ParseArgs, ParseConfigOptions, Finalize, FileOption, GivenAsText,
      GivenName;
    var os := s.options;
    forall o, q | o in os && q in os && o.dest == q.dest ensures o == q { SamePlace(w, all, s, o, q); }
    var f := FillIn(s, os);
    FillInKeeps(w, all, s, os);
    FillInReadsNothing(s, os);
    var a := ParseArgs(w, f, os, argv).value;
    ParseArgsKeeps(w, all, f, os, argv);
    SetDefaultsIsIdle(w, all, a);
    var c := ParseConfigOptions(w, a, a.options).value;
    ParseConfigOptionsKeeps(w, all, a, a.options);
    var t := Finalize(w, c, c.options).value;
    forall o | o in os && FileOption(o) && Occurs(argv, o.dest) && GivenAsText(argv, o.dest)
      ensures o.dest in t.configFiles <==> o.dest in s.configFiles || GivenName(argv, o.dest)
    {
      ArgsRead(w, all, f, os, argv, o);
      ConfigOptionsReadOthers(w, all, a, a.options, o);
      FinalizeReadsOthers(w, all, c, c.options, o);
    }
  }

  lemma {:induction false} FillInReadsNothing(s: State, os: seq<Opt>)
    ensures FillIn(s, os).configFiles == s.configFiles
    decreases |os|
  {
    if os != [] {
      FillInReadsNothing(if os[0].cli &&
        os[0].dest !in s.ns then Put(s, os[0].dest, Default(s, os[0])) else s, os[1..]);
    }
  }

  /** Reading the main file or the files of options without arguments leaves those with arguments alone. */
  ghost predicate ReadsNoneOf(os: seq<Opt>, before: seq<string>, after: seq<string>)
  {
    forall o | o in os && FileOption(o) :: o.dest in after <==> o.dest in before
  }

  lemma MainReadsNoneOf(w: World, all: seq<Arg>, s: State, file: Option<Value>)
    requires WellFormed(w) && Inv(w, all, s)
    ensures ReadsNoneOf(s.options, s.configFiles, AddConfigFile(w, s, w.main.dest, file).configFiles)
  {
    if w.main.dest !in s.configFiles { ReadingDefaults(w, s, w.main.dest, file); }
    hide Inv, AddConfigFile;
    assert w.main in AllOpts(w);
    forall o | o in s.options ensures o in AllOpts(w) { CoreIsInvariant(w, all, s, o); }
    hide AllOpts;
    if w.main.dest in s.configFiles { ReadAlready(w, s, w.main.dest, file); }
  }

  lemma FirstLoopReadsNoneOf(w: World, all: seq<Arg>, s: State)
    requires WellFormed(w) && Inv(w, all, s) && ParseConfigOptions(w, s, s.options).Ok?
    ensures ReadsNoneOf(s.options, s.configFiles, ParseConfigOptions(w, s, s.options).value.configFiles)
  {
    hide WellFormed, Inv, ParseConfigOptions, FileOption;
    forall o | o in s.options && FileOption(o)
      ensures o.dest in ParseConfigOptions(w, s, s.options).value.configFiles <==> o.dest in s.configFiles
    {
      ConfigOptionsReadOthers(w, all, s, s.options, o);
    }
  }

  lemma ReadsInTurn(os: seq<Opt>, more: seq<Opt>, argv: seq<Arg>, a: seq<string>, b: seq<string>, c: seq<string>)
    requires os <= more
    ensures ReadsNoneOf(os, a, b) && ReadsNoneOf(more, b, c) ==> ReadsNoneOf(os, a, c)
    ensures ReadsNoneOf(os, a, b) && ReadsAsGiven(more, argv, b, c) ==> ReadsAsGiven(os, argv, a, c)
    ensures ReadsAsGiven(os, argv, a, b) && ReadsAsGiven(more, argv, b, c) ==> ReadsAsGiven(os, argv, a, c)
  {
    hide FileOption, Occurs, GivenAsText, GivenName;
    assert forall i :: 0 <= i < |os| ==> os[i] == more[i];
    assert forall o :: o in os ==> o in more;
  }

  // ---------- what the files say ----------

  /** The main config file: the last argument for it, else what the environment says, else the declared default. */
  ghost function FirstFile(w: World, argv: seq<Arg>): Option<Value>
  {
    if Occurs(argv, w.main.dest) then Some(LastValue(argv, w.main.dest))
    else if w.main.env != "" && w.main.env in w.environ then Some(w.environ[w.main.env])
    else w.main.hard
  }

  ghost predicate Sets(w: World, file: Option<Value>, k: Key)
  {
    file.Some? && file.value.Text? && file.value.text in w.files && k in w.files[file.value.text]
  }

  /** A setting is that of the last file read that has it. */
  lemma {:induction false} LastFileCounts(w: World, log: seq<(string, Option<Value>)>, k: Key, i: nat)
    requires i < |log| && Sets(w, log[i].1, k) && forall j :: i < j < |log| ==> !Sets(w, log[j].1, k)
    ensures k in Merged(w, log) && Merged(w, log)[k] == w.files[log[i].1.value.text][k]
  {
    var n := |log| - 1;
    if i < n { LastFileCounts(w, log[..n], k, i); }
  }

  /** Without such a file there is no setting. */
  lemma {:induction false} NoFileCounts(w: World, log: seq<(string, Option<Value>)>, k: Key)
    requires forall j :: 0 <= j < |log| ==> !Sets(w, log[j].1, k)
    ensures k !in Merged(w, log)
  {
    if log != [] { NoFileCounts(w, log[..|log| - 1], k); }
  }

  // ---------- duplicates ----------

  predicate Clash(p: Opt, o: Opt) { (o.env != "" && p.env == o.env) || (o.cf.Some? && p.cf == o.cf) }

  /** A new option is refused exactly if one that is there has the same variable or the same place in config files. */
  lemma RefusedExactly(w: World, s: State, o: Opt)
    ensures AddOption(w, s, o).Err? <==> (o !in s.options && exists i :: 0 <= i < |s.options| && Clash(s.options[i], o))
  {
  }

  // ---------- the command line ----------

  /** Every argument belongs to some option. */
  ghost predicate AllKnown(os: seq<Opt>, argv: seq<Arg>)
  {
    forall i :: 0 <= i < |argv| ==> exists o :: o in os && o.cli && o.dest == argv[i].dest
  }

  /** Nothing remains of the arguments exactly if each of them belongs to some option. */
  lemma {:induction false} NothingRemainsExactly(os: seq<Opt>, argv: seq<Arg>)
    ensures Remaining(os, argv) == [] <==> AllKnown(os, argv)
  {
    if argv != [] {
      NothingRemainsExactly(os, argv[1..]);
      LookupFinds(os, argv[0].dest);
      assert forall i :: 0 <= i < |argv| - 1 ==> argv[1..][i] == argv[i + 1];
    }
  }
}
