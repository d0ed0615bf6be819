/**
 Which component options lose their default in the first parse: those finalized before a config
 file is read that only `Finalize` finds. All this can be told from the options known at the start,
 the environment, the config files and the arguments, as long as these settle for every config
 file option whether it names a file.
 */
module OptionLosses {
  import opened Common
  import opened OptionModel
  import opened OptionRuns
  import opened Ordering

  // ---------- what can be told beforehand ----------

  ghost predicate InSomeFile(w: World, p: Opt, v: Value)
  {
    p.cf.Some? && exists f :: f in w.files && p.cf.value in w.files[f] && w.files[f][p.cf.value] == v
  }

  /** Whatever files are read, the default of the option names a file, or names none. */
  ghost predicate DefaultIs(w: World, p: Opt, names: bool)
  {
    if p.env != "" && p.env in w.environ then Truthy(Some(w.environ[p.env])) == names
    else Truthy(p.hard) == names && forall v :: InSomeFile(w, p, v) ==> Truthy(Some(v)) == names
  }

  ghost predicate NeverNames(w: World, argv: seq<Arg>, p: Opt)
  {
    DefaultIs(w, p, false) && forall a :: a in argv && a.dest == p.dest ==> !Truthy(Some(a.value))
  }

  predicate Named(argv: seq<Arg>, o: Opt)
  {
    o.cli && Occurs(argv, o.dest)
  }

  /**
   A config file option known at the start that names its file whatever else is read, or is
   given on the command line.
   */
  ghost predicate Foreseen(w: World, argv: seq<Arg>, start: seq<Opt>, p: Opt)
  {
    NeverNames(w, argv, p) || (p in start && (Named(argv, p) || DefaultIs(w, p, true)))
  }

  ghost predicate Predictable(w: World, argv: seq<Arg>, start: seq<Opt>)
  {
    forall p :: p in AllOpts(w) && p.kind.ConfigFile? ==> Foreseen(w, argv, start, p)
  }

  /** An option with arguments that are not given: its file is read when it is finalized. */
  ghost predicate ReadLate(w: World, argv: seq<Arg>, p: Opt)
  {
    p.kind.ConfigFile? && p.cli && !Named(argv, p) && DefaultIs(w, p, true)
  }

  /** The option comes before one whose file is read late. */
  ghost predicate Lost(w: World, argv: seq<Arg>, os: seq<Opt>, o: Opt)
  {
    exists i, j | 0 <= i < j < |os| :: os[i] == o && ReadLate(w, argv, os[j])
  }

  // ---------- defaults ----------

  lemma {:induction false} MergedIsFromFiles(w: World, log: seq<(string, Option<Value>)>, p: Opt)
    requires p.cf.Some? && p.cf.value in Merged(w, log)
    ensures InSomeFile(w, p, Merged(w, log)[p.cf.value])
  {
    var file := log[|log| - 1].1;
    if p.cf.value in Contents(w, file) {
      assert file.value.text in w.files;
    } else {
      MergedIsFromFiles(w, log[..|log| - 1], p);
    }
  }

  lemma DefaultNames(w: World, log: seq<(string, Option<Value>)>, p: Opt, names: bool)
    requires DefaultIs(w, p, names)
    ensures Truthy(Precedence(w, Merged(w, log), p)) == names
  {
    hide InSomeFile;
    if p.cf.Some? && p.cf.value in Merged(w, log) { MergedIsFromFiles(w, log, p); }
  }

  // ---------- one call of an action ----------

  /** What a call with value v does to the entries, the flags and the files. */
  ghost predicate Does(s: State, t: State, o: Opt, v: Option<Value>)
  {
    var reading := o.kind.ConfigFile? && Truthy(v) && o.dest !in s.configFiles;
    && t.configFiles == (if reading then s.configFiles + [o.dest] else s.configFiles)
    && t.final == (if Finalizable(o) then s.final + {o} else s.final)
    && t.stale == (if reading then s.final else s.stale)
    && (forall d :: d in t.ns && d != o.dest ==> d in s.ns && t.ns[d] == s.ns[d])
    && (forall d :: d in s.ns && (d in s.configFiles || Reserved(d)) && d != o.dest ==> d in t.ns)
    && (o.kind.ConfigFile? ==> o.dest in t.ns && t.ns[o.dest] == v)
  }

  lemma CallDoes(w: World, argv: seq<Arg>, s: State, o: Opt, v: Option<Value>, fromCli: bool, parser: bool)
    requires WellFormed(w) && Inv(w, argv, s) && o in s.options && Call(w, s, o, v, fromCli, parser).Ok?
    ensures Does(s, Call(w, s, o, v, fromCli, parser).value, o, v)
  {
    hide Inv, WellFormed, LoadEach, Resolved, AddConfigFile, Contents, AllOpts, Truthy;
    match o.kind {
      case Component(_, _, _) =>
        hide Does;
        if v.Some? {
          var names := NamesIn(o, v.value).value;
          LoadEachKeeps(w, argv, s, o, names) by { CoreIsInvariant(w, argv, s, o); }
          StoringDoes(s, LoadEach(w, s, o, names).value, o, Resolved(o, v), v);
        } else {
          StoringDoes(s, s, o, None, v);
        }
      case ConfigFile => ConfigFileDoes(w, s, o, v);
      case _ =>
    }
  }

  lemma StoringDoes(s: State, a: State, o: Opt, result: Option<Value>, v: Option<Value>)
    requires o.kind.Component? && SameButOptions(s, a)
    ensures Does(s, PutFinal(a, o, result), o, v)
  {
  }

  lemma ConfigFileDoes(w: World, s: State, o: Opt, v: Option<Value>)
    requires o.kind.ConfigFile?
    ensures Does(s, PutFinal(if Truthy(v) then AddConfigFile(w, s, o.dest, v) else s, o, v), o, v)
  {
    hide AddConfigFile, Contents, Truthy;
    if o.dest in s.configFiles { ReadAlready(w, s, o.dest, v); } else { ReadingDefaults(w, s, o.dest, v); }
  }

  lemma ReadAlready(w: World, s: State, dest: string, file: Option<Value>)
    requires dest in s.configFiles
    ensures AddConfigFile(w, s, dest, file) == s
  {
  }

  // ---------- entries of options whose file was read ----------

  /** What is in the namespace for a file that was read, or in a reserved place, and is not given anew, stays there. */
  ghost predicate KeepsRead(s: State, t: State, argv: seq<Arg>)
  {
    forall d :: d in s.ns && (d in s.configFiles || Reserved(d)) && !Occurs(argv, d) ==> d in t.ns && t.ns[d] == s.ns[d]
  }

  /** From one state of a parse to a later one. */
  ghost predicate Onward(s: State, t: State, args: seq<Arg>)
  {
    Grown(s, t) && KeepsRead(s, t, args)
  }

  lemma KeepsReadTwice(s: State, t: State, u: State, argv: seq<Arg>)
    requires KeepsRead(s, t, argv) && KeepsRead(t, u, argv) && Grown(s, t)
    ensures KeepsRead(s, u, argv)
  {
    hide Occurs;
  }

  lemma HasPlace(w: World, all: seq<Arg>, s: State, o: Opt)
    requires WellFormed(w) && Inv(w, all, s) && o in s.options
    ensures !Reserved(o.dest)
  {
    CoreIsInvariant(w, all, s, o);
  }

  lemma DoesKeepsRead(s: State, t: State, o: Opt, v: Option<Value>, argv: seq<Arg>)
    requires Does(s, t, o, v) && !Reserved(o.dest)
    requires o.dest in s.configFiles && o.dest in s.ns ==> Occurs(argv, o.dest)
    ensures KeepsRead(s, t, argv)
  {
    hide Occurs, Reserved;
  }

  lemma {:induction false} FillInKeepsRead(s: State, os: seq<Opt>, argv: seq<Arg>)
    ensures KeepsRead(s, FillIn(s, os), argv)
    decreases |os|
  {
    hide Occurs;
    if os != [] {
      var o := os[0];
      FillInKeepsRead(if o.cli && o.dest !in s.ns then Put(s, o.dest, Default(s, o)) else s, os[1..], argv);
    }
  }

  lemma {:induction false} ArgsKeepRead(w: World, all: seq<Arg>, argv: seq<Arg>, s: State, os: seq<Opt>, args: seq<Arg>)
    requires WellFormed(w) && Inv(w, all, s) && HasAll(s.options, os) && ParseArgs(w, s, os, args).Ok?
    requires forall a :: a in args ==> Occurs(all, a.dest) && Occurs(argv, a.dest)
    ensures KeepsRead(s, ParseArgs(w, s, os, args).value, argv)
    decreases |args|
  {
    hide WellFormed, Inv, Missing, Occurs, Call, Does, Obeys;
    if args != [] {
      var u := ParseArg(w, s, os, args[0]).value;
      ParseArgKeeps(w, all, s, os, args[0]);
      LookupFinds(os, args[0].dest);
      if Lookup(os, args[0].dest).Some? {
        var o := Lookup(os, args[0].dest).value;
        CallDoes(w, all, s, o, Some(args[0].value), true, true);
        HasPlace(w, all, s, o);
        DoesKeepsRead(s, u, o, Some(args[0].value), argv);
      }
      ArgsKeepRead(w, all, argv, u, os, args[1..]);
      KeepsReadTwice(s, u, ParseArgs(w, u, os, args[1..]).value, argv);
    }
  }

  lemma {:induction false} ConfigOptionsKeepRead(w: World, all: seq<Arg>, argv: seq<Arg>, s: State, os: seq<Opt>)
    requires WellFormed(w) && Inv(w, all, s) && HasAll(s.options, os) && ParseConfigOptions(w, s, os).Ok?
    ensures KeepsRead(s, ParseConfigOptions(w, s, os).value, argv)
    decreases |os|
  {
    hide WellFormed, Inv, Missing, Occurs, Call, Does;
    if os != [] {
      var o := os[0];
      var u := ParseConfigOption(w, s, o).value;
      ParseConfigOptionKeeps(w, all, s, o);
      if !o.cli && o.dest !in s.ns && Truthy(Default(s, o)) {
        CallDoes(w, all, s, o, Default(s, o), false, true);
        HasPlace(w, all, s, o);
        DoesKeepsRead(s, u, o, Default(s, o), argv);
      }
      ConfigOptionsKeepRead(w, all, argv, u, os[1..]);
      KeepsReadTwice(s, u, ParseConfigOptions(w, u, os[1..]).value, argv);
    }
  }

  /** Only what has not been read is finalized. */
  lemma UnfinishedIsUnread(w: World, all: seq<Arg>, s: State, o: Opt)
    requires WellFormed(w) && Inv(w, all, s) && o in s.options && Finalizable(o) && o !in s.final
    ensures o.dest !in s.configFiles
  {
    CoreIsInvariant(w, all, s, o);
  }

  lemma {:induction false} FinalizeKeepsRead(w: World, all: seq<Arg>, argv: seq<Arg>, s: State, os: seq<Opt>)
    requires WellFormed(w) && Inv(w, all, s) && HasAll(s.options, os) && Finalize(w, s, os).Ok?
    ensures KeepsRead(s, Finalize(w, s, os).value, argv)
    decreases |os|
  {
    hide WellFormed, Inv, Missing, Occurs, Call, Does;
    if os != [] {
      var o := os[0];
      var u := FinalizeOption(w, s, o).value;
      FinalizeOptionKeeps(w, all, s, o);
      if Finalizable(o) && o !in s.final {
        var v := if o.dest in s.ns then s.ns[o.dest] else Default(s, o);
        UnfinishedIsUnread(w, all, s, o);
        CallDoes(w, all, s, o, v, false, o.cli);
        HasPlace(w, all, s, o);
        DoesKeepsRead(s, u, o, v, argv);
      }
      FinalizeKeepsRead(w, all, argv, u, os[1..]);
      KeepsReadTwice(s, u, Finalize(w, u, os[1..]).value, argv);
    }
  }

  lemma RoundKeepsRead(w: World, all: seq<Arg>, argv: seq<Arg>, s: State)
    requires WellFormed(w) && Inv(w, all, s) && Round(w, s, argv).Ok? && forall a :: a in argv ==> Occurs(all, a.dest)
    ensures KeepsRead(s, Round(w, s, argv).value, argv)
  {
    hide WellFormed, Inv, Missing, Occurs, FillIn, ParseArgs, ParseConfigOptions, Finalize, KeepsRead;
    var os := s.options;
    forall a | a in argv ensures Occurs(argv, a.dest) { OccursAt(argv, a); }
    forall o, q | o in os && q in os && o.dest == q.dest ensures o == q { SamePlace(w, all, s, o, q); }
    var f := FillIn(s, os);
    FillInKeeps(w, all, s, os);
    FillInKeepsRead(s, os, argv);
    var a := ParseArgs(w, f, os, argv).value;
    ParseArgsKeeps(w, all, f, os, argv);
    ArgsKeepRead(w, all, argv, f, os, argv);
    SetDefaultsIsIdle(w, all, a);
    var c := ParseConfigOptions(w, a, a.options).value;
    ParseConfigOptionsKeeps(w, all, a, a.options);
    ConfigOptionsKeepRead(w, all, argv, a, a.options);
    FinalizeKeepsRead(w, all, argv, c, c.options);
    var t := Finalize(w, c, c.options).value;
    GrownTwice(s, f, a);
    GrownTwice(s, a, c);
    KeepsReadTwice(s, f, a, argv);
    KeepsReadTwice(s, a, c, argv);
    KeepsReadTwice(s, c, t, argv);
  }

  // ---------- entries of config file options ----------

  /** Entries of config file options agree with what is known beforehand. */
  ghost predicate Tidy(w: World, argv: seq<Arg>, s: State)
  {
    forall p :: p in AllOpts(w) && p.kind.ConfigFile? && p.dest in s.ns ==> TidyEntry(w, argv, s, p)
  }

  ghost predicate TidyEntry(w: World, argv: seq<Arg>, s: State, p: Opt)
    requires p.dest in s.ns
  {
    && (NeverNames(w, argv, p) ==> !Truthy(s.ns[p.dest]))
    && (DefaultIs(w, p, true) && !Named(argv, p) ==>
          Truthy(s.ns[p.dest]) && (!p.cli ==> p in s.final && p.dest in s.configFiles))
  }

  /** A value that a config file option may be given. */
  ghost predicate Fits(w: World, argv: seq<Arg>, p: Opt, v: Option<Value>)
  {
    && (NeverNames(w, argv, p) ==> !Truthy(v))
    && (DefaultIs(w, p, true) && !Named(argv, p) ==> Truthy(v))
  }

  lemma DoesKeepsTidy(w: World, argv: seq<Arg>, s: State, t: State, o: Opt, v: Option<Value>)
    requires WellFormed(w) && Tidy(w, argv, s) && Does(s, t, o, v) && o in AllOpts(w)
    requires o.kind.ConfigFile? ==> Fits(w, argv, o, v)
    ensures Tidy(w, argv, t)
  {
    hide AllOpts, NeverNames, DefaultIs, Named, Truthy;
    forall p | p in AllOpts(w) && p.kind.ConfigFile? && p.dest in t.ns ensures TidyEntry(w, argv, t, p) {
      if p.dest != o.dest { assert TidyEntry(w, argv, s, p); }
    }
  }

  lemma PutKeepsTidy(w: World, argv: seq<Arg>, s: State, o: Opt, v: Option<Value>)
    requires WellFormed(w) && Tidy(w, argv, s) && o in AllOpts(w)
    requires o.kind.ConfigFile? ==> Fits(w, argv, o, v) && (o.cli || !Truthy(v))
    ensures Tidy(w, argv, Put(s, o.dest, v))
  {
    hide AllOpts, NeverNames, DefaultIs, Named, Truthy;
    var t := Put(s, o.dest, v);
    forall p | p in AllOpts(w) && p.kind.ConfigFile? && p.dest in t.ns ensures TidyEntry(w, argv, t, p) {
      if p.dest != o.dest { assert TidyEntry(w, argv, s, p); }
    }
  }

  /** The default of a config file option fits. */
  lemma DefaultFits(w: World, argv: seq<Arg>, s: State, o: Opt)
    requires Inv(w, argv, s) && o in s.options
    ensures o in AllOpts(w) && Fits(w, argv, o, Default(s, o))
  {
    CoreIsInvariant(w, argv, s, o);
    assert s.cfp == Merged(w, s.readLog);
    if DefaultIs(w, o, true) { DefaultNames(w, s.readLog, o, true); }
    if DefaultIs(w, o, false) { DefaultNames(w, s.readLog, o, false); }
  }

  // ---------- before the first Finalize ----------

  /** No component option has been finalized that has arguments and is not given; no file has been read late. */
  ghost predicate Early(w: World, argv: seq<Arg>, s: State)
  {
    && Tidy(w, argv, s)
    && (forall o :: o in s.final && o.kind.Component? && o.cli ==> Named(argv, o))
    && (forall p :: p in AllOpts(w) && ReadLate(w, argv, p) ==> p !in s.final && p.dest !in s.configFiles)
  }

  /** The file of a config file option has been read, or the option has been given with arguments that name none. */
  ghost predicate Dealt(argv: seq<Arg>, s: State, p: Opt)
  {
    p in s.final && (p.dest in s.configFiles ||
      (Named(argv, p) && forall a :: a in argv && a.dest == p.dest ==> !Truthy(Some(a.value))))
  }

  // ---------- after the first Finalize ----------

  /** All config file options that name a file have been dealt with, and stale are those that were foreseen. */
  ghost predicate Late(w: World, argv: seq<Arg>, s: State, start: seq<Opt>)
  {
    && Tidy(w, argv, s)
    && (forall p :: p in AllOpts(w) && p.kind.ConfigFile? && !NeverNames(w, argv, p) ==> Dealt(argv, s, p))
    && (forall o :: o in s.stale && o.kind.Component? && o.cli ==> Named(argv, o) || Lost(w, argv, start, o))
    && (forall o :: Lost(w, argv, start, o) && Finalizable(o) ==> o in s.stale)
  }

  ghost predicate Stage(w: World, argv: seq<Arg>, s: State, start: seq<Opt>, late: bool)
  {
    if late then Late(w, argv, s, start) else Early(w, argv, s)
  }

  /** What may be called outside `Finalize`: arguments, and options without arguments. */
  ghost predicate MayDo(w: World, argv: seq<Arg>, s: State, o: Opt, v: Option<Value>, late: bool)
  {
    && (o.kind.ConfigFile? ==> Fits(w, argv, o, v))
    && (if late then o.kind.ConfigFile? && Truthy(v) ==> o.dest in s.configFiles else o.cli ==> Named(argv, o))
  }

  lemma DoesKeepsStage(w: World, argv: seq<Arg>, s: State, t: State, o: Opt, v: Option<Value>, start: seq<Opt>,
                       late: bool)
    requires WellFormed(w) && Stage(w, argv, s, start, late) && Does(s, t, o, v) && o in AllOpts(w)
    requires MayDo(w, argv, s, o, v, late)
    ensures Stage(w, argv, t, start, late)
  {
    DoesKeepsTidy(w, argv, s, t, o, v);
    hide AllOpts, NeverNames, DefaultIs, Named, Truthy, Tidy, Lost;
  }

  lemma PutKeepsStage(w: World, argv: seq<Arg>, s: State, o: Opt, v: Option<Value>, start: seq<Opt>, late: bool)
    requires WellFormed(w) && Stage(w, argv, s, start, late) && o in AllOpts(w)
    requires o.kind.ConfigFile? ==> Fits(w, argv, o, v) && (o.cli || !Truthy(v))
    ensures Stage(w, argv, Put(s, o.dest, v), start, late)
  {
    PutKeepsTidy(w, argv, s, o, v);
    hide AllOpts, NeverNames, DefaultIs, Named, Truthy, Tidy, Lost;
  }

  lemma DealtStays(argv: seq<Arg>, s: State, t: State)
    requires Grown(s, t)
    ensures forall p :: Dealt(argv, s, p) ==> Dealt(argv, t, p)
  {
  }

  lemma ConfigOptionKeepsStage(w: World, argv: seq<Arg>, s: State, o: Opt, start: seq<Opt>, late: bool)
    requires WellFormed(w) && Inv(w, argv, s) && Stage(w, argv, s, start, late) && o in s.options
    requires ParseConfigOption(w, s, o).Ok?
    ensures Stage(w, argv, ParseConfigOption(w, s, o).value, start, late)
  {
    DefaultFits(w, argv, s, o);
    hide Inv, WellFormed, AllOpts, Call, Does, Fits, NeverNames;
    if !o.cli && o.dest !in s.ns {
      var v := Default(s, o);
      if Truthy(v) {
        CallDoes(w, argv, s, o, v, false, true);
        assert MayDo(w, argv, s, o, v, late) by {
          if late && o.kind.ConfigFile? { LateIsRead(w, argv, s, start, o, v); }
        }
        hide Stage;
        DoesKeepsStage(w, argv, s, Call(w, s, o, v, false, true).value, o, v, start, late);
      } else {
        hide Stage;
        PutKeepsStage(w, argv, s, o, v, start, late);
      }
    }
  }

  lemma LateIsRead(w: World, argv: seq<Arg>, s: State, start: seq<Opt>, o: Opt, v: Option<Value>)
    requires Late(w, argv, s, start) && o in AllOpts(w) && o.kind.ConfigFile? && !o.cli && Fits(w, argv, o, v)
    requires Truthy(v)
    ensures o.dest in s.configFiles
  {
    hide NeverNames, AllOpts, Lost;
    assert Dealt(argv, s, o);
  }

  lemma {:induction false} ConfigOptionsKeepStage(w: World, argv: seq<Arg>, s: State, os: seq<Opt>, start: seq<Opt>,
                                                  late: bool)
    requires WellFormed(w) && Inv(w, argv, s) && Stage(w, argv, s, start, late) && HasAll(s.options, os)
    requires ParseConfigOptions(w, s, os).Ok?
    ensures Stage(w, argv, ParseConfigOptions(w, s, os).value, start, late)
    decreases |os|
  {
    hide WellFormed, Inv, Stage, ParseConfigOption, Missing;
    if os != [] {
      ConfigOptionKeepsStage(w, argv, s, os[0], start, late);
      ParseConfigOptionKeeps(w, argv, s, os[0]);
      ConfigOptionsKeepStage(w, argv, ParseConfigOption(w, s, os[0]).value, os[1..], start, late);
    }
  }

  lemma {:induction false} FillInKeepsStage(w: World, argv: seq<Arg>, s: State, os: seq<Opt>, start: seq<Opt>,
                                            late: bool)
    requires WellFormed(w) && Inv(w, argv, s) && Stage(w, argv, s, start, late) && HasAll(s.options, os)
    ensures Stage(w, argv, FillIn(s, os), start, late)
    decreases |os|
  {
    hide WellFormed, Inv, Stage, Missing, Fits;
    if os != [] {
      var o := os[0];
      if o.cli && o.dest !in s.ns {
        DefaultFits(w, argv, s, o);
        PutKeepsStage(w, argv, s, o, Default(s, o), start, late);
        PutDefaultKeeps(w, argv, s, o);
        FillInKeepsStage(w, argv, Put(s, o.dest, Default(s, o)), os[1..], start, late);
      } else {
        FillInKeepsStage(w, argv, s, os[1..], start, late);
      }
    }
  }

  lemma ArgKeepsStage(w: World, argv: seq<Arg>, s: State, os: seq<Opt>, arg: Arg, start: seq<Opt>, late: bool)
    requires WellFormed(w) && Inv(w, argv, s) && Stage(w, argv, s, start, late) && HasAll(s.options, os)
    requires ParseArg(w, s, os, arg).Ok? && arg in argv
    ensures var t := ParseArg(w, s, os, arg).value;
      Stage(w, argv, t, start, late) && forall p :: p in os && p.cli && p.kind.ConfigFile? && p.dest == arg.dest ==>
        DealtWith(t, p, arg)
  {
    LookupFinds(os, arg.dest);
    OccursAt(argv, arg);
    if Lookup(os, arg.dest).Some? {
      var o, v := Lookup(os, arg.dest).value, Some(arg.value);
      CoreIsInvariant(w, argv, s, o);
      forall p | p in os ensures p in AllOpts(w) { CoreIsInvariant(w, argv, s, p); }
      assert forall p :: p in os && p.dest == o.dest ==> p == o;
      hide Inv, WellFormed, AllOpts, Call, Occurs, Truthy;
      CallDoes(w, argv, s, o, v, true, true);
      assert MayDo(w, argv, s, o, v, late) by {
        assert Named(argv, o);
        if late && o.kind.ConfigFile? && Truthy(v) { assert Dealt(argv, s, o); }
      }
      hide Stage;
      DoesKeepsStage(w, argv, s, Call(w, s, o, v, true, true).value, o, v, start, late);
    }
  }

  /** The option has been finalized, and the file that the argument names has been read unless one was before. */
  predicate DealtWith(s: State, p: Opt, arg: Arg)
  {
    p in s.final && (Truthy(Some(arg.value)) ==> p.dest in s.configFiles)
  }

  lemma {:induction false} ArgsKeepStage(w: World, argv: seq<Arg>, s: State, os: seq<Opt>, args: seq<Arg>,
                                         start: seq<Opt>, late: bool)
    requires WellFormed(w) && Inv(w, argv, s) && Stage(w, argv, s, start, late) && HasAll(s.options, os)
    requires ParseArgs(w, s, os, args).Ok? && forall a :: a in args ==> a in argv
    ensures var t := ParseArgs(w, s, os, args).value;
      Stage(w, argv, t, start, late) &&
      forall p, a :: p in os && p.cli && p.kind.ConfigFile? && a in args && p.dest == a.dest ==> DealtWith(t, p, a)
    decreases |args|
  {
    hide WellFormed, Inv, Stage, ParseArg, Missing, Truthy;
    if args != [] {
      var u := ParseArg(w, s, os, args[0]).value;
      var t := ParseArgs(w, u, os, args[1..]).value;
      ArgKeepsStage(w, argv, s, os, args[0], start, late);
      OccursAt(argv, args[0]);
      ParseArgKeeps(w, argv, s, os, args[0]);
      ArgsKeepStage(w, argv, u, os, args[1..], start, late);
      forall a | a in args[1..] ensures Occurs(argv, a.dest) { OccursAt(argv, a); }
      forall o, q | o in os && q in os && o.dest == q.dest ensures o == q { SamePlace(w, argv, s, o, q); }
      ParseArgsKeeps(w, argv, u, os, args[1..]);
      assert forall p :: DealtWith(u, p, args[0]) ==> DealtWith(t, p, args[0]);
    }
  }

  lemma SamePlace(w: World, argv: seq<Arg>, s: State, o: Opt, q: Opt)
    requires WellFormed(w) && Inv(w, argv, s) && o in s.options && q in s.options && o.dest == q.dest
    ensures o == q
  {
    CoreIsInvariant(w, argv, s, o);
    CoreIsInvariant(w, argv, s, q);
  }

  // ---------- the first Finalize ----------

  /** How far the first Finalize has come after k options. */
  ghost predicate Mid(w: World, argv: seq<Arg>, s: State, os: seq<Opt>, k: nat)
  {
    && k <= |os| && Distinct(os) && Tidy(w, argv, s)
    && (forall p :: p in AllOpts(w) && p.kind.ConfigFile? && !NeverNames(w, argv, p) ==> DealtBy(w, argv, s, os, k, p))
    && (forall o :: o in s.final && o.kind.Component? && o.cli ==> Named(argv, o) || o in os[..k])
    && (forall o :: o in os[..k] && Finalizable(o) ==> o in s.final)
    && (forall o :: o in s.stale && o.kind.Component? && o.cli ==> Named(argv, o) || Lost(w, argv, os[..k], o))
    && (forall o :: Lost(w, argv, os[..k], o) && Finalizable(o) ==> o in s.stale)
  }

  /** An option whose file is read late is dealt with when its turn comes, all others are already. */
  ghost predicate DealtBy(w: World, argv: seq<Arg>, s: State, os: seq<Opt>, k: nat, p: Opt)
    requires k <= |os|
  {
    if ReadLate(w, argv, p) && p !in os[..k] then p in os && p !in s.final && p.dest !in s.configFiles
    else Dealt(argv, s, p)
  }

  lemma LostOneMore(w: World, argv: seq<Arg>, os: seq<Opt>, k: nat, o: Opt)
    requires k < |os|
    ensures Lost(w, argv, os[..k + 1], o) <==> Lost(w, argv, os[..k], o) || (ReadLate(w, argv, os[k]) && o in os[..k])
  {
    hide ReadLate;
    if Lost(w, argv, os[..k + 1], o) {
      var i, j :| 0 <= i < j < k + 1 && os[..k + 1][i] == o && ReadLate(w, argv, os[..k + 1][j]);
      assert os[..k][i] == o;
      assert j < k ==> os[..k][j] == os[..k + 1][j];
    }
    if ReadLate(w, argv, os[k]) && o in os[..k] {
      var i :| 0 <= i < k && os[..k][i] == o;
      assert os[..k + 1][i] == o && os[..k + 1][k] == os[k];
    }
    if Lost(w, argv, os[..k], o) {
      var i, j :| 0 <= i < j < k && os[..k][i] == o && ReadLate(w, argv, os[..k][j]);
      assert os[..k + 1][i] == o && os[..k + 1][j] == os[..k][j];
    }
  }

  lemma LostIsInList(w: World, argv: seq<Arg>, os: seq<Opt>, o: Opt)
    requires Lost(w, argv, os, o)
    ensures o in os
  {
  }

  /** An option that `Finalize` passes over. */
  lemma MidSkips(w: World, argv: seq<Arg>, s: State, os: seq<Opt>, k: nat)
    requires Mid(w, argv, s, os, k) && k < |os| && (Finalizable(os[k]) ==> os[k] in s.final) && os[k] in AllOpts(w)
    ensures Mid(w, argv, s, os, k + 1)
  {
    DistinctElement(os, k);
    hide AllOpts, NeverNames, Named, Tidy, Lost, Distinct, Dealt;
    forall o ensures Lost(w, argv, os[..k + 1], o) <==>
      Lost(w, argv, os[..k], o) || (ReadLate(w, argv, os[k]) && o in os[..k]) {
      LostOneMore(w, argv, os, k, o);
    }
    LateNames(w, argv, os[k]);
    assert !ReadLate(w, argv, os[k]);
    hide ReadLate;
    forall p | p in AllOpts(w) && p.kind.ConfigFile? && !NeverNames(w, argv, p)
      ensures DealtBy(w, argv, s, os, k + 1, p) {
      assert DealtBy(w, argv, s, os, k, p);
    }
  }

  lemma LateNames(w: World, argv: seq<Arg>, p: Opt)
    ensures ReadLate(w, argv, p) ==> !NeverNames(w, argv, p)
  {
  }

  lemma DistinctElement(os: seq<Opt>, k: nat)
    requires Distinct(os) && k < |os|
    ensures os[k] !in os[..k] && forall o :: o in os[..k + 1] <==> o in os[..k] || o == os[k]
  {
    assert os[..k + 1] == os[..k] + [os[k]];
  }

  lemma MidFiles(w: World, argv: seq<Arg>, s: State, t: State, os: seq<Opt>, k: nat, v: Option<Value>)
    requires WellFormed(w) && Mid(w, argv, s, os, k) && k < |os| && Finalizable(os[k]) && os[k] !in s.final
    requires os[k] in AllOpts(w)
    requires Does(s, t, os[k], v) && (os[k].kind.ConfigFile? ==> Fits(w, argv, os[k], v))
    ensures forall p :: p in AllOpts(w) && p.kind.ConfigFile? && !NeverNames(w, argv, p) ==>
      DealtBy(w, argv, t, os, k + 1, p)
  {
    var o := os[k];
    DistinctElement(os, k);
    hide AllOpts, NeverNames, DefaultIs, Tidy, Lost, Distinct, Named, Truthy;
    forall p | p in AllOpts(w) && p.kind.ConfigFile? && !NeverNames(w, argv, p)
      ensures DealtBy(w, argv, t, os, k + 1, p) {
      assert DealtBy(w, argv, s, os, k, p);
    }
  }

  lemma MidStale(w: World, argv: seq<Arg>, s: State, t: State, os: seq<Opt>, k: nat, v: Option<Value>)
    requires Mid(w, argv, s, os, k) && k < |os| && Finalizable(os[k]) && os[k] !in s.final && os[k] in AllOpts(w)
    requires Does(s, t, os[k], v) && (os[k].kind.ConfigFile? ==> Fits(w, argv, os[k], v))
    requires forall q :: Lost(w, argv, os[..k + 1], q) <==>
      Lost(w, argv, os[..k], q) || (ReadLate(w, argv, os[k]) && q in os[..k])
    requires forall q :: Lost(w, argv, os[..k], q) ==> q in os[..k]
    ensures forall q :: q in t.stale && q.kind.Component? && q.cli ==> Named(argv, q) || Lost(w, argv, os[..k + 1], q)
    ensures forall q :: Lost(w, argv, os[..k + 1], q) && Finalizable(q) ==> q in t.stale
  {
    var o := os[k];
    DistinctElement(os, k);
    LateNames(w, argv, o);
    assert o.kind.ConfigFile? && !NeverNames(w, argv, o) ==> DealtBy(w, argv, s, os, k, o);
    hide AllOpts, NeverNames, Tidy, Lost, Distinct, DefaultIs, Named;
    assert ReadLate(w, argv, o) <==> o.kind.ConfigFile? && Truthy(v) && o.dest !in s.configFiles;
  }

  /** An option whose action `Finalize` calls. */
  lemma MidCalls(w: World, argv: seq<Arg>, s: State, t: State, os: seq<Opt>, k: nat, v: Option<Value>)
    requires WellFormed(w) && Mid(w, argv, s, os, k) && k < |os| && Finalizable(os[k]) && os[k] !in s.final
    requires os[k] in AllOpts(w)
    requires Does(s, t, os[k], v) && (os[k].kind.ConfigFile? ==> Fits(w, argv, os[k], v))
    ensures Mid(w, argv, t, os, k + 1)
  {
    var o := os[k];
    DoesKeepsTidy(w, argv, s, t, o, v);
    DistinctElement(os, k);
    LateNames(w, argv, o);
    forall q ensures Lost(w, argv, os[..k + 1], q) <==>
      Lost(w, argv, os[..k], q) || (ReadLate(w, argv, o) && q in os[..k]) {
      LostOneMore(w, argv, os, k, q);
      if Lost(w, argv, os[..k], q) { LostIsInList(w, argv, os[..k], q); }
    }
    MidFiles(w, argv, s, t, os, k, v);
    MidStale(w, argv, s, t, os, k, v);
    hide AllOpts, NeverNames, Tidy, Lost, Distinct, DefaultIs, Named, DealtBy, ReadLate, Fits;
  }

  /** What `Finalize` calls the action of a config file option with. */
  lemma FinalValueFits(w: World, argv: seq<Arg>, s: State, o: Opt)
    requires Inv(w, argv, s) && Tidy(w, argv, s) && o in s.options && o.kind.ConfigFile?
    ensures Fits(w, argv, o, if o.dest in s.ns then s.ns[o.dest] else Default(s, o))
  {
    DefaultFits(w, argv, s, o);
    hide AllOpts, NeverNames, DefaultIs, Named;
    if o.dest in s.ns { assert TidyEntry(w, argv, s, o); }
  }

  lemma {:induction false} FirstFinalize(w: World, argv: seq<Arg>, s: State, os: seq<Opt>, k: nat)
    requires WellFormed(w) && Inv(w, argv, s) && HasAll(s.options, os) && Mid(w, argv, s, os, k)
    requires Finalize(w, s, os[k..]).Ok?
    ensures Mid(w, argv, Finalize(w, s, os[k..]).value, os, |os|)
    decreases |os| - k
  {
    if k < |os| {
      var o := os[k];
      var t := FinalizeOption(w, s, o).value;
      CoreIsInvariant(w, argv, s, o);
      if Finalizable(o) && o !in s.final {
        var v := if o.dest in s.ns then s.ns[o.dest] else Default(s, o);
        if o.kind.ConfigFile? { FinalValueFits(w, argv, s, o); }
        CallDoes(w, argv, s, o, v, false, o.cli);
        MidCalls(w, argv, s, t, os, k, v);
      } else {
        MidSkips(w, argv, s, os, k);
      }
      FinalizeOptionKeeps(w, argv, s, o);
      hide Inv, WellFormed, Mid, FinalizeOption, Missing;
      assert os[k..][1..] == os[k + 1..];
      FirstFinalize(w, argv, t, os, k + 1);
    }
  }

  /** Before the first Finalize: all config file options but those that are read late have been dealt with. */
  ghost predicate Ready(w: World, argv: seq<Arg>, s: State, start: seq<Opt>)
  {
    && Early(w, argv, s) && start <= s.options && Predictable(w, argv, start)
    && forall p :: p in AllOpts(w) && p.kind.ConfigFile? && !NeverNames(w, argv, p) && !ReadLate(w, argv, p) ==>
          Dealt(argv, s, p)
  }

  lemma ReadyIsMid(w: World, argv: seq<Arg>, s: State, start: seq<Opt>)
    requires Ready(w, argv, s, start) && Inv(w, argv, s)
    ensures Mid(w, argv, s, s.options, 0)
  {
    hide NeverNames, DefaultIs, Tidy, AllOpts, Loaded, Entries, Dealt;
    forall p | p in AllOpts(w) && p.kind.ConfigFile? && !NeverNames(w, argv, p)
      ensures DealtBy(w, argv, s, s.options, 0, p) {
      assert Foreseen(w, argv, start, p);
      assert forall i :: 0 <= i < |start| ==> start[i] == s.options[i];
    }
  }

  /** Options that the parser learns of later are not before any that are read late. */
  lemma LostFromTheStart(w: World, argv: seq<Arg>, start: seq<Opt>, os: seq<Opt>, o: Opt)
    requires start <= os && Distinct(os) && forall p :: p in os && ReadLate(w, argv, p) ==> p in start
    ensures Lost(w, argv, os, o) <==> Lost(w, argv, start, o)
  {
    hide ReadLate;
    if Lost(w, argv, os, o) {
      var i, j :| 0 <= i < j < |os| && os[i] == o && ReadLate(w, argv, os[j]);
      assert os[j] in start;
      var m :| 0 <= m < |start| && start[m] == os[j];
      assert os[m] == os[j] && m == j;
      assert start[i] == o && ReadLate(w, argv, start[j]);
    }
    if Lost(w, argv, start, o) {
      var i, j :| 0 <= i < j < |start| && start[i] == o && ReadLate(w, argv, start[j]);
      assert os[i] == o && ReadLate(w, argv, os[j]);
    }
  }

  lemma MidIsLate(w: World, argv: seq<Arg>, t: State, os: seq<Opt>, start: seq<Opt>)
    requires Mid(w, argv, t, os, |os|) && Predictable(w, argv, start) && start <= os
    requires forall o :: o in os ==> o in AllOpts(w)
    ensures Late(w, argv, t, start)
  {
    assert os[..|os|] == os;
    forall p | p in os && ReadLate(w, argv, p) ensures p in start {
      LateNames(w, argv, p);
      assert Foreseen(w, argv, start, p);
    }
    forall o ensures Lost(w, argv, os, o) <==> Lost(w, argv, start, o) { LostFromTheStart(w, argv, start, os, o); }
    hide AllOpts, NeverNames, DefaultIs, Tidy, Lost, Named;
    forall p | p in AllOpts(w) && p.kind.ConfigFile? && !NeverNames(w, argv, p) ensures Dealt(argv, t, p) {
      assert DealtBy(w, argv, t, os, |os|, p);
    }
  }

  // ---------- later rounds ----------

  lemma FinalizeOptionStaysLate(w: World, argv: seq<Arg>, s: State, o: Opt, start: seq<Opt>)
    requires WellFormed(w) && Inv(w, argv, s) && Late(w, argv, s, start) && o in s.options
    requires FinalizeOption(w, s, o).Ok?
    ensures Late(w, argv, FinalizeOption(w, s, o).value, start)
  {
    CoreIsInvariant(w, argv, s, o);
    if Finalizable(o) && o !in s.final {
      var v := if o.dest in s.ns then s.ns[o.dest] else Default(s, o);
      if o.kind.ConfigFile? { FinalValueFits(w, argv, s, o); }
      CallDoes(w, argv, s, o, v, false, o.cli);
      hide Inv, WellFormed, AllOpts, Call, Lost, Does, NeverNames, Tidy;
      assert o.kind.ConfigFile? && !NeverNames(w, argv, o) ==> Dealt(argv, s, o);
      hide Late;
      DoesKeepsStage(w, argv, s, FinalizeOption(w, s, o).value, o, v, start, true);
    }
  }

  lemma {:induction false} FinalizeStaysLate(w: World, argv: seq<Arg>, s: State, os: seq<Opt>, start: seq<Opt>)
    requires WellFormed(w) && Inv(w, argv, s) && Late(w, argv, s, start) && HasAll(s.options, os)
    requires Finalize(w, s, os).Ok?
    ensures Late(w, argv, Finalize(w, s, os).value, start)
    decreases |os|
  {
    hide WellFormed, Inv, Late, FinalizeOption, Missing;
    if os != [] {
      FinalizeOptionStaysLate(w, argv, s, os[0], start);
      FinalizeOptionKeeps(w, argv, s, os[0]);
      FinalizeStaysLate(w, argv, FinalizeOption(w, s, os[0]).value, os[1..], start);
    }
  }

  // ---------- rounds ----------

  /** What is known of a state between the first loop and the second, or between rounds of the second. */
  ghost predicate Between(w: World, argv: seq<Arg>, s: State, start: seq<Opt>, late: bool)
  {
    && Stage(w, argv, s, start, late) && start <= s.options && Predictable(w, argv, start)
    && forall p :: p in AllOpts(w) && p.kind.ConfigFile? && !NeverNames(w, argv, p) && !p.cli ==> Dealt(argv, s, p)
  }

  /** The arguments have dealt with the config file options that they name. */
  lemma ArgsMakeReady(w: World, argv: seq<Arg>, s: State, a: State, start: seq<Opt>)
    requires Between(w, argv, s, start, false) && Grown(s, a) && Early(w, argv, a)
    requires forall p, x :: p in start && p.cli && p.kind.ConfigFile? && x in argv && p.dest == x.dest ==>
      DealtWith(a, p, x)
    ensures Ready(w, argv, a, start)
  {
    DealtStays(argv, s, a);
    hide AllOpts, NeverNames, Tidy, Early;
    forall p | p in AllOpts(w) && p.kind.ConfigFile? && !NeverNames(w, argv, p) && !ReadLate(w, argv, p)
      ensures Dealt(argv, a, p) {
      if p.cli {
        assert Foreseen(w, argv, start, p) && Named(argv, p);
        var i :| 0 <= i < |argv| && argv[i].dest == p.dest;
        assert DealtWith(a, p, argv[i]);
      } else {
        assert Dealt(argv, s, p);
      }
    }
  }

  /** Every round of the second loop leaves it at what was foreseen. */
  lemma RoundMakesLate(w: World, argv: seq<Arg>, s: State, start: seq<Opt>, late: bool)
    requires WellFormed(w) && Inv(w, argv, s) && Between(w, argv, s, start, late) && Round(w, s, argv).Ok?
    ensures Between(w, argv, Round(w, s, argv).value, start, true)
  {
    hide WellFormed, Inv, Missing, Stage, FillIn, ParseArgs, ParseConfigOptions, Finalize, Predictable, Late,
      Early, Mid;
    var os := s.options;
    var f := FillIn(s, os);
    FillInKeeps(w, argv, s, os);
    FillInKeepsStage(w, argv, s, os, start, late);
    forall a | a in argv ensures Occurs(argv, a.dest) { OccursAt(argv, a); }
    forall o, q | o in os && q in os && o.dest == q.dest ensures o == q { SamePlace(w, argv, s, o, q); }
    var a := ParseArgs(w, f, os, argv).value;
    ParseArgsKeeps(w, argv, f, os, argv);
    ArgsKeepStage(w, argv, f, os, argv, start, late);
    SetDefaultsIsIdle(w, argv, a);
    var c := ParseConfigOptions(w, a, a.options).value;
    ParseConfigOptionsKeeps(w, argv, a, a.options);
    ConfigOptionsKeepStage(w, argv, a, a.options, start, late);
    var t := Finalize(w, c, c.options).value;
    FinalizeKeeps(w, argv, c, c.options);
    GrownTwice(s, f, a);
    GrownTwice(s, a, c);
    GrownTwice(s, c, t);
    assert Between(w, argv, c, start, late) by { DealtStays(argv, s, c); }
    if late {
      assert Late(w, argv, c, start) by { StageIs(w, argv, c, start, true); }
      FinalizeStaysLate(w, argv, c, c.options, start);
    } else {
      StageIs(w, argv, a, start, false);
      FirstRound(w, argv, s, a, c, start);
    }
    StageIs(w, argv, t, start, true);
    DealtStays(argv, s, t);
  }

  lemma StageIs(w: World, argv: seq<Arg>, s: State, start: seq<Opt>, late: bool)
    ensures Stage(w, argv, s, start, late) == if late then Late(w, argv, s, start) else Early(w, argv, s)
  {
  }

  lemma GrownTwice(s: State, t: State, u: State)
    requires Grown(s, t) && Grown(t, u)
    ensures Grown(s, u)
  {
  }

  lemma FirstRound(w: World, argv: seq<Arg>, s: State, a: State, c: State, start: seq<Opt>)
    requires WellFormed(w) && Inv(w, argv, c) && Between(w, argv, s, start, false)
    requires Between(w, argv, c, start, false) && Grown(s, a) && Grown(a, c)
    requires Early(w, argv, a) && Finalize(w, c, c.options).Ok?
    requires forall p, x :: p in s.options && p.cli && p.kind.ConfigFile? && x in argv && p.dest == x.dest ==>
      DealtWith(a, p, x)
    ensures Late(w, argv, Finalize(w, c, c.options).value, start)
  {
    forall o | o in c.options ensures o in AllOpts(w) { CoreIsInvariant(w, argv, c, o); }
    hide WellFormed, Inv, Early, Predictable, Mid, AllOpts, NeverNames;
    assert forall i :: 0 <= i < |start| ==> start[i] == s.options[i];
    ArgsMakeReady(w, argv, s, a, start);
    StillReady(w, argv, a, c, start);
    ReadyIsMid(w, argv, c, start);
    assert c.options[0..] == c.options;
    FirstFinalize(w, argv, c, c.options, 0);
    MidIsLate(w, argv, Finalize(w, c, c.options).value, c.options, start);
  }

  lemma StillReady(w: World, argv: seq<Arg>, a: State, c: State, start: seq<Opt>)
    requires Ready(w, argv, a, start) && Between(w, argv, c, start, false) && Grown(a, c)
    ensures Ready(w, argv, c, start)
  {
    DealtStays(argv, a, c);
    hide AllOpts, NeverNames, Early, ReadLate, Predictable, Dealt;
  }

  // ---------- the first parse ----------

  /** The main config file has just been read, with an empty namespace. */
  lemma BeginsEarly(w: World, argv: seq<Arg>, s: State)
    requires WellFormed(w) && s.final == {} && s.configFiles == [w.main.dest] && forall d :: d in s.ns ==> Reserved(d)
    ensures Early(w, argv, s)
  {
    assert w.main in AllOpts(w);
    hide Reserved, AllOpts, NeverNames;
    assert forall p :: p in AllOpts(w) && p.kind.ConfigFile? ==> p.dest !in s.ns && p.dest != w.main.dest;
  }

  /** One round of the first loop, and what is known when it was the last. */
  lemma FirstLoop(w: World, argv: seq<Arg>, s: State, start: seq<Opt>)
    requires WellFormed(w) && Inv(w, argv, s) && Early(w, argv, s) && start <= s.options && Predictable(w, argv, start)
    requires ParseConfigOptions(w, s, s.options).Ok?
    ensures var t := ParseConfigOptions(w, s, s.options).value;
      Early(w, argv, t) && start <= t.options && (t.parsed ==> Between(w, argv, t, start, false))
  {
    hide WellFormed, Inv, Missing, Early, ParseConfigOptions, Predictable;
    var t := ParseConfigOptions(w, s, s.options).value;
    StageIs(w, argv, s, start, false);
    ParseConfigOptionsKeeps(w, argv, s, s.options);
    ConfigOptionsKeepStage(w, argv, s, s.options, start, false);
    StageIs(w, argv, t, start, false);
    if t.parsed {
      assert forall i :: 0 <= i < |start| ==> start[i] == s.options[i];
      AllConfiguredAreDealt(w, argv, t, start);
    }
  }

  lemma AllConfiguredAreDealt(w: World, argv: seq<Arg>, t: State, start: seq<Opt>)
    requires Early(w, argv, t) && Predictable(w, argv, start) && forall o :: o in start ==> o.cli || o.dest in t.ns
    ensures forall p :: p in AllOpts(w) && p.kind.ConfigFile? && !NeverNames(w, argv, p) && !p.cli ==> Dealt(argv, t, p)
  {
    hide AllOpts, NeverNames, DefaultIs;
    forall p | p in AllOpts(w) && p.kind.ConfigFile? && !NeverNames(w, argv, p) && !p.cli ensures Dealt(argv, t, p) {
      assert Foreseen(w, argv, start, p);
      assert TidyEntry(w, argv, t, p);
    }
  }

  /**
   What a component option with arguments that are not given is worth after the first parse, as
   can be told beforehand.
   */
  ghost predicate AsForeseen(w: World, argv: seq<Arg>, t: State, start: seq<Opt>, o: Opt)
    requires o.kind.Component?
  {
    o.dest in t.ns &&
    t.ns[o.dest] == if Lost(w, argv, start, o) then Precedence(w, t.cfp, o) else Resolved(o, Precedence(w, t.cfp, o))
  }

  ghost predicate AllAsForeseen(w: World, argv: seq<Arg>, t: State, start: seq<Opt>)
  {
    forall o | o in t.options && o.kind.Component? && o.cli && !Occurs(argv, o.dest) :: AsForeseen(w, argv, t, start, o)
  }

  lemma SettlesAsForeseen(w: World, argv: seq<Arg>, t: State, start: seq<Opt>, o: Opt)
    requires Between(w, argv, t, start, true) && o.kind.Component? && o.cli && !Occurs(argv, o.dest)
    requires Settles(w, argv, t, o)
    ensures AsForeseen(w, argv, t, start, o)
  {
    hide Lost, Tidy, NeverNames, Precedence, Resolved, Occurs, ComponentsIn, AllOpts;
    assert !Named(argv, o);
    assert o in t.stale <==> Lost(w, argv, start, o);
  }

  /** A default that was lost is not what it stands for. */
  lemma RawIsNotResolved(o: Opt, v: Option<Value>)
    requires o.kind.Component?
    ensures Resolved(o, v) == v <==> v.None?
  {
  }
}
