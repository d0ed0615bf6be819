/** The option parser as the object that it is: every method updates the fields as `OptionModel` says. */
module OptionParser {
  import opened Common
  import opened OptionModel
  import opened OptionRuns
  import opened OptionLosses
  import opened OptionOutcomes

  class Parser {
    const w: World
    var parsed: bool
    var components: seq<Comp>
    var optionList: seq<Opt>
    var defaultsSet: set<Opt>
    var configFiles: seq<string>
    var ns: map<string, Option<Value>>
    var cfp: map<Key, Value>
    /** The `default` property of the options and the `_final` flag of their actions. */
    var defaults: map<Opt, Option<Value>>
    var final: set<Opt>
    /** The arguments of the last parse. */
    var argv: Option<seq<Arg>>
    ghost var stale: set<Opt>
    ghost var readLog: seq<(string, Option<Value>)>
    /** The arguments that entries of the namespace may stem from. */
    ghost var seen: seq<Arg>

    ghost function St(): State
      reads this
    {
      State(parsed, components, optionList, defaultsSet, configFiles, ns, cfp, defaults, final, stale, readLog)
    }

    /** What parsing relies on; once everything is parsed, the namespace is what the last arguments ask for. */
    ghost predicate Valid()
      reads this
    {
      && WellFormed(w) && w.main in optionList && Inv(w, seen, St())
      && (parsed ==> argv.Some? && Finished(argv.value))
    }

    /** All arguments were taken, and every option is worth what `Settles` says unless earlier arguments still hold. */
    ghost predicate Finished(args: seq<Arg>)
      reads this
    {
      && Remaining(optionList, args) == [] && readLog != [] && w.main.dest in configFiles
      && (forall a :: a in args ==> Occurs(seen, a.dest))
      && (forall o :: o in optionList ==>
            (Finalizable(o) ==> o in final) && (Free(seen, args, o) ==> Settles(w, args, St(), o)))
    }

    /** The outcome of a method that may raise an exception. */
    ghost predicate Became(r: Outcome, error: Option<string>)
      reads this
    {
      match r
      case Ok(t) => error.None? && St() == t
      case Err(e) => error == Some(e)
    }

    constructor (w: World, ns: map<string, Option<Value>>)
      ensures this.w == w && St() == State(false, [], [], {}, [], ns, map[], map[], {}, {}, []) && argv == None
      ensures seen == []
    {
      this.w, this.ns := w, ns;
      parsed, components, optionList, defaultsSet, configFiles := false, [], [], {}, [];
      cfp, defaults, final, stale, readLog := map[], map[], {}, {}, [];
      argv, seen := None, [];
    }

    /** The end of `__init__`: the parser's own options, held by `base`, then the given components. */
    method Init(base: Comp, given: seq<Comp>) returns (error: Option<string>)
      requires WellFormed(w) && base in w.options && w.main in w.options[base] && seen == []
      requires St() == State(false, [], [], {}, [], ns, map[], map[], {}, {}, [])
      requires forall d :: d in ns ==> Reserved(d)
      modifies this
      ensures error.None? ==> Valid() && !parsed && seen == [] && configFiles == [] && final == {}
      ensures error.None? ==> base in components && forall c :: c in given ==> c in components
    {
      hide Inv, OptionModel.AddComponent;
      NewParserIsConsistent(w, [], St());
      ghost var s := St();
      error := AddComponent(base);
      if error.Some? { return; }
      AddComponentKeeps(w, [], s, base);
      GrowsBy(w, s, base);
      for i := 0 to |given|
        invariant Inv(w, [], St()) && seen == [] && !parsed && configFiles == [] && final == {}
        invariant base in components && forall c :: c in given[..i] ==> c in components
      {
        s := St();
        error := AddComponent(given[i]);
        if error.Some? { return; }
        AddComponentKeeps(w, [], s, given[i]);
        GrowsBy(w, s, given[i]);
        assert forall c :: c in given[..i + 1] ==> c in given[..i] || c == given[i];
      }
      LoadedOptions(w, [], St(), base, w.main);
      return None;
    }

    function CurrentDefault(o: Opt): Option<Value>
      reads this
    {
      if o in defaults then defaults[o] else o.hard
    }

    method DefaultFromConfig(o: Opt)
      modifies this
      ensures argv == old(argv) && seen == old(seen)
      ensures St() == OptionModel.DefaultFromConfig(w, old(St()), o)
    {
      defaults := defaults[o := FromConfig(w, cfp, o, CurrentDefault(o))];
      defaultsSet := defaultsSet + {o};
    }

    method AddOptions(options: seq<Opt>) returns (error: Option<string>)
      modifies this
      ensures argv == old(argv) && seen == old(seen)
      ensures Became(AddEach(w, old(St()).(parsed := false), options), error)
    {
      parsed := false;
      ghost var s0 := St();
      for i := 0 to |options|
        invariant argv == old(argv) && seen == old(seen)
        invariant AddEach(w, s0, options) == AddEach(w, St(), options[i..])
      {
        assert options[i..][1..] == options[i + 1..];
        var o := options[i];
        if o !in optionList {
          if o.env != "" && SomeEnv(optionList, o.env) {
            return Some("Duplicate environment variable option");
          }
          if o.cf.Some? && SomeCf(optionList, o.cf) {
            return Some("Duplicate config file option");
          }
          optionList := optionList + [o];
          DefaultFromConfig(o);
        }
      }
      return None;
    }

    method AddComponent(c: Comp) returns (error: Option<string>)
      modifies this
      ensures argv == old(argv) && seen == old(seen)
      ensures Became(OptionModel.AddComponent(w, old(St()), c), error)
    {
      if c !in components {
        components := components + [c];
        if c in w.options {
          error := AddOptions(w.options[c]);
          return;
        }
      }
      return None;
    }

    method SetDefaultsFromConfig()
      modifies this
      ensures argv == old(argv) && seen == old(seen)
      ensures St() == SetDefaults(w, old(St()), old(optionList))
    {
      for i := 0 to |optionList|
        invariant optionList == old(optionList)
        invariant argv == old(argv) && seen == old(seen)
        invariant SetDefaults(w, old(St()), optionList) == SetDefaults(w, St(), optionList[i..])
      {
        assert optionList[i..][1..] == optionList[i + 1..];
        if optionList[i] !in defaultsSet {
          DefaultFromConfig(optionList[i]);
        }
      }
    }

    method ResetNamespace()
      modifies this
      ensures argv == old(argv) && seen == old(seen)
      ensures St() == Reset(old(St()))
    {
      parsed := false;
      ns := map d | d in ns && (Reserved(d) || d in configFiles) :: ns[d];
      stale := final;
    }

    method AddConfigFile(dest: string, file: Option<Value>)
      modifies this
      ensures argv == old(argv) && seen == old(seen)
      ensures St() == OptionModel.AddConfigFile(w, old(St()), dest, file)
    {
      hide SetDefaults, Contents, Reserved;
      if dest !in configFiles {
        ResetNamespace();
        cfp := cfp + Contents(w, file);
        defaultsSet := {};
        SetDefaultsFromConfig();
        configFiles := configFiles + [dest];
        readLog := readLog + [(dest, file)];
      }
    }

    method LoadComponents(o: Opt, names: seq<string>) returns (classes: seq<Comp>, error: Option<string>)
      requires o.kind.Component?
      modifies this
      ensures argv == old(argv) && seen == old(seen)
      ensures Became(LoadEach(w, old(St()), o, names), error)
      ensures error.None? ==> classes == ClassesOf(o, names)
    {
      classes := [];
      for i := 0 to |names|
        invariant argv == old(argv) && seen == old(seen)
        invariant LoadEach(w, old(St()), o, names) == LoadEach(w, St(), o, names[i..])
        invariant classes + ClassesOf(o, names[i..]) == ClassesOf(o, names)
      {
        assert names[i..][1..] == names[i + 1..];
        if names[i] in o.kind.mapping {
          error := AddComponent(o.kind.mapping[names[i]]);
          if error.Some? { return; }
          classes := classes + [o.kind.mapping[names[i]]];
        } else if !o.kind.failSilently {
          return classes, Some("Could not load component " + names[i]);
        }
      }
      return classes, None;
    }

    /** The action of an option: `__call__` of the class that the option's kind stands for. */
    method Call(o: Opt, v: Option<Value>, fromCli: bool, parser: bool) returns (error: Option<string>)
      modifies this
      ensures argv == old(argv) && seen == old(seen)
      ensures Became(OptionModel.Call(w, old(St()), o, v, fromCli, parser), error)
    {
      error := None;
      match o.kind {
        case Store => ns := ns[o.dest := v];
        case Boolean =>
          if v.None? {
            ns := ns[o.dest := CurrentDefault(o)];
          } else if fromCli {
            ns := ns[o.dest := Some(Flag(!Truthy(o.hard)))];
          } else {
            ns := ns[o.dest := Some(Flag(Truthy(v)))];
          }
        case Component(_, _, _) =>
          var result := None;
          if v.Some? {
            if NamesIn(o, v.value).None? { return Some("TypeError"); }
            var classes;
            classes, error := LoadComponents(o, NamesIn(o, v.value).value);
            if error.Some? { return; }
            result :=
              if o.kind.isList then Some(Classes(classes)) else if classes == [] then None else Some(Class(classes[0]));
          }
          ns := ns[o.dest := result];
          final := final + {o};
        case ConfigFile =>
          if Truthy(v) {
            if !parser { return Some("AttributeError"); }
            AddConfigFile(o.dest, v);
          }
          ns := ns[o.dest := v];
          final := final + {o};
      }
    }

    method ParseConfigOptions() returns (error: Option<string>)
      modifies this
      ensures argv == old(argv) && seen == old(seen)
      ensures Became(OptionModel.ParseConfigOptions(w, old(St()), old(optionList)), error)
    {
      var options := optionList;
      for i := 0 to |options|
        invariant argv == old(argv) && seen == old(seen)
        invariant OptionModel.ParseConfigOptions(w, old(St()), options) ==
          OptionModel.ParseConfigOptions(w, St(), options[i..])
      {
        hide OptionModel.Call;
        assert options[i..][1..] == options[i + 1..];
        var o := options[i];
        if !o.cli && o.dest !in ns {
          var value := CurrentDefault(o);
          if Truthy(value) {
            error := Call(o, value, false, true);
            if error.Some? { return; }
          } else {
            ns := ns[o.dest := value];
          }
        }
      }
      return None;
    }

    method Finalize() returns (error: Option<string>)
      modifies this
      ensures argv == old(argv) && seen == old(seen)
      ensures Became(OptionModel.Finalize(w, old(St()), old(optionList)), error)
    {
      var options := optionList;
      for i := 0 to |options|
        invariant argv == old(argv) && seen == old(seen)
        invariant OptionModel.Finalize(w, old(St()), options) == OptionModel.Finalize(w, St(), options[i..])
      {
        hide OptionModel.Call;
        assert options[i..][1..] == options[i + 1..];
        var o := options[i];
        if (o.kind.Component? || o.kind.ConfigFile?) && o !in final {
          error := Call(o, if o.dest in ns then ns[o.dest] else CurrentDefault(o), false, o.cli);
          if error.Some? { return; }
        }
      }
      return None;
    }

    method SetMissingDefaults()
      modifies this
      ensures argv == old(argv) && seen == old(seen)
      ensures St() == FillIn(old(St()), old(optionList))
    {
      for i := 0 to |optionList|
        invariant optionList == old(optionList)
        invariant argv == old(argv) && seen == old(seen)
        invariant FillIn(old(St()), optionList) == FillIn(St(), optionList[i..])
      {
        assert optionList[i..][1..] == optionList[i + 1..];
        if optionList[i].cli && optionList[i].dest !in ns {
          ns := ns[optionList[i].dest := CurrentDefault(optionList[i])];
        }
      }
    }

    /** `parse_known_args` as argparse specifies it: missing defaults first, then the arguments in turn. */
    method ParseKnownArgs(args: seq<Arg>) returns (remaining: seq<Arg>, error: Option<string>)
      modifies this
      ensures argv == old(argv) && seen == old(seen)
      ensures Became(ParseArgs(w, FillIn(old(St()), old(optionList)), old(optionList), args), error)
      ensures error.None? ==> remaining == Remaining(old(optionList), args)
    {
      hide FillIn, OptionModel.Call, Lookup;
      var options := optionList;
      SetMissingDefaults();
      ghost var s0 := St();
      remaining := [];
      for i := 0 to |args|
        invariant argv == old(argv) && seen == old(seen)
        invariant ParseArgs(w, s0, options, args) == ParseArgs(w, St(), options, args[i..])
        invariant remaining + Remaining(options, args[i..]) == Remaining(options, args)
      {
        assert args[i..][1..] == args[i + 1..];
        var o := Lookup(options, args[i].dest);
        if o.Some? {
          error := Call(o.value, Some(args[i].value), true, true);
          if error.Some? { return; }
        } else {
          remaining := remaining + [args[i]];
        }
      }
      return remaining, None;
    }

    /** The body of the first loop of phase 3. */
    method ReadConfigFiles() returns (error: Option<string>)
      requires WellFormed(w) && Inv(w, seen, St())
      modifies this
      ensures argv == old(argv) && seen == old(seen)
      ensures Became(OptionModel.ParseConfigOptions(w, old(St()).(parsed := true), old(optionList)), error)
      ensures error.None? ==> Step(w, seen, old(St()).(parsed := true), St())
    {
      hide Inv, Missing, OptionModel.ParseConfigOptions;
      ParsedIsFree(w, seen, St());
      parsed := true;
      SetDefaultsIsIdle(w, seen, St());
      SetDefaultsFromConfig();
      ghost var s := St();
      error := ParseConfigOptions();
      if error.None? {
        ParseConfigOptionsKeeps(w, seen, s, s.options);
      }
    }

    /** The body of the second loop of phase 3. */
    method ParseOnce(args: seq<Arg>) returns (remaining: seq<Arg>, error: Option<string>)
      modifies this
      ensures argv == old(argv) && seen == old(seen)
      ensures Became(Round(w, old(St()).(parsed := true), args), error)
      ensures error.None? ==> remaining == Remaining(old(optionList), args)
    {
      hide FillIn, ParseArgs, SetDefaults, OptionModel.ParseConfigOptions, OptionModel.Finalize, Remaining;
      parsed := true;
      remaining, error := ParseKnownArgs(args);
      if error.Some? { return; }
      SetDefaultsFromConfig();
      error := ParseConfigOptions();
      if error.Some? { return; }
      error := Finalize();
    }

    /** What the bootstrap parser of phase 1 finds: the argument for the main config file, else its default. */
    function MainFile(args: seq<Arg>): Option<Value>
      reads this
    {
      if Occurs(args, w.main.dest) then Some(LastValue(args, w.main.dest)) else CurrentDefault(w.main)
    }

    /** Nothing has been read or finalized. */
    ghost predicate Unused()
      reads this
    {
      configFiles == [] && final == {} && forall d :: d in ns ==> Reserved(d)
    }

    /** Phase 1: reads the main config file, unless it has been read. */
    method ReadMain(args: seq<Arg>)
      requires WellFormed(w) && Inv(w, seen, St()) && w.main in optionList
      modifies this
      ensures argv == old(argv) && seen == old(seen) && Inv(w, seen, St()) && Onward(old(St()), St(), args)
      ensures St() == OptionModel.AddConfigFile(w, old(St()), w.main.dest, old(MainFile(args)))
      ensures optionList == old(optionList) && w.main.dest in configFiles && readLog != []
      ensures readLog[0] == if old(readLog) == [] then (w.main.dest, FirstFile(w, args)) else old(readLog[0])
      ensures old(Unused()) ==> final == {} && configFiles == [w.main.dest] && forall d :: d in ns ==> Reserved(d)
      ensures ReadsNoneOf(optionList, old(configFiles), configFiles)
    {
      hide Missing, WellFormed, Reserved, ReadsNoneOf;
      CoreIsInvariant(w, seen, St(), w.main);
      LogIsConsistent(w, seen, St());
      var main := MainFile(args);
      FirstFileIs(w, args, CurrentDefault(w.main), cfp);
      hide FirstFile;
      AddConfigFileKeeps(w, seen, St(), w.main.dest, main, w.main);
      if w.main.dest !in configFiles { ReadingDefaults(w, St(), w.main.dest, main); }
      MainReadsNoneOf(w, seen, St(), main);
      hide Inv;
      ghost var before := St();
      AddConfigFile(w.main.dest, main);
      ReadingIsOnward(w, before, w.main.dest, main, args);
    }

    /** The first loop of phase 3. */
    method ReadAll(ghost args: seq<Arg>, ghost start: seq<Opt>, ghost known: bool) returns (error: Option<string>)
      requires WellFormed(w) && Inv(w, seen, St()) && !parsed
      requires known ==> seen == args && Early(w, args, St()) && start <= optionList && Predictable(w, args, start)
      modifies this
      ensures argv == old(argv) && seen == old(seen)
      ensures error.None? ==> Inv(w, seen, St()) && parsed && Onward(old(St()), St(), args)
      ensures error.None? && known ==> Between(w, args, St(), start, false)
      ensures error.None? ==> ReadsNoneOf(old(optionList), old(configFiles), configFiles)
    {
      hide Inv, Missing, WellFormed, Early, Between, Predictable, OptionModel.ParseConfigOptions, Onward, ReadsNoneOf,
        ReadsAsGiven;
      SameFiles(optionList, args, configFiles);
      error := None;
      NotOnward(St(), args);
      while !parsed
        invariant argv == old(argv) && seen == old(seen) && Inv(w, seen, St()) && Onward(old(St()), St(), args)
        invariant known ==>
          Early(w, args, St()) && start <= optionList && (parsed ==> Between(w, args, St(), start, false))
        invariant old(optionList) <= optionList && ReadsNoneOf(old(optionList), old(configFiles), configFiles)
        decreases Missing(w, St()), !parsed
      {
        ghost var s, was := St().(parsed := true), St();
        ParsedIsFree(w, seen, St());
        if known { ParsedIsFreeEarly(w, args, was); }
        error := ReadConfigFiles();
        if error.Some? { return; }
        ConfigOptionsKeepRead(w, seen, args, s, s.options);
        FirstLoopReadsNoneOf(w, seen, s);
        ReadsInTurn(old(optionList), s.options, args, old(configFiles), s.configFiles, configFiles);
        MakeOnward(w, s, St(), args);
        ParsedOnward(old(St()), was, St(), args);
        if known { FirstLoop(w, args, s, start); }
      }
    }

    /** The second loop of phase 3. */
    method ParseAll(args: seq<Arg>, ghost start: seq<Opt>, ghost known: bool)
      returns (remaining: seq<Arg>, error: Option<string>)
      requires WellFormed(w) && Inv(w, seen, St()) && !parsed && forall a :: a in args ==> Occurs(seen, a.dest)
      requires known ==> seen == args && Between(w, args, St(), start, false)
      modifies this
      ensures argv == old(argv) && seen == old(seen)
      ensures error.None? ==>
        Inv(w, seen, St()) && parsed && Onward(old(St()), St(), args) && remaining == Remaining(optionList, args)
      ensures error.None? ==>
        forall o :: o in optionList ==>
          (Finalizable(o) ==> o in final) && (Free(seen, args, o) ==> Settles(w, args, St(), o))
      ensures error.None? && known ==> Between(w, args, St(), start, true)
      ensures error.None? ==> ReadsAsGiven(old(optionList), args, old(configFiles), configFiles)
      ensures error.None? ==> AllGivenRead(optionList, args, configFiles)
    {
      hide Inv, Missing, WellFormed, Between, Onward, Settles, Round, Remaining, Finalizable, Free, ReadsAsGiven,
        AllGivenRead, ReadsNoneOf;
      error, remaining := None, [];
      NotOnward(St(), args);
      ghost var late := false;
      while !parsed
        invariant argv == old(argv) && seen == old(seen) && Inv(w, seen, St()) && Onward(old(St()), St(), args)
        invariant parsed ==> late && remaining == Remaining(optionList, args)
        invariant parsed ==>
          forall o :: o in optionList ==>
            (Finalizable(o) ==> o in final) && (Free(seen, args, o) ==> Settles(w, args, St(), o))
        invariant known ==> Between(w, args, St(), start, late)
        invariant old(optionList) <= optionList && (parsed ==> AllGivenRead(optionList, args, configFiles))
        invariant if late then ReadsAsGiven(old(optionList), args, old(configFiles), configFiles)
          else St() == old(St())
        decreases Missing(w, St()), !parsed
      {
        ghost var s, was := St().(parsed := true), St();
        ParsedIsFree(w, seen, St());
        if known { ParsedIsFreeBetween(w, args, was, start, late); }
        remaining, error := ParseOnce(args);
        if error.Some? { return; }
        RoundKeeps(w, seen, args, s);
        RoundKeepsRead(w, seen, args, s);
        MakeOnward(w, s, St(), args);
        ParsedOnward(old(St()), was, St(), args);
        if known { RoundMakesLate(w, args, s, start, late); }
        RoundReadsAsGiven(w, seen, args, s);
        if late { ReadsInTurn(old(optionList), s.options, args, old(configFiles), s.configFiles, configFiles); }
        GivenAreRead(s.options, args, s.configFiles, configFiles);
        late := true;
        assert parsed ==> optionList == s.options;
      }
    }

    /** Phases 1 and 3. */
    method Phases(args: seq<Arg>, ghost start: seq<Opt>, ghost known: bool) returns (error: Option<string>)
      requires WellFormed(w) && Inv(w, seen, St()) && w.main in optionList
      requires forall a :: a in args ==> Occurs(seen, a.dest)
      requires known ==> seen == args && Unused() && start == optionList && Predictable(w, args, start)
      modifies this
      ensures argv == old(argv) && seen == old(seen)
      ensures error.None? ==> Inv(w, seen, St()) && parsed && Finished(args) && Onward(old(St()), St(), args)
      ensures error.None? ==>
        readLog[0] == if old(readLog) == [] then (w.main.dest, FirstFile(w, args)) else old(readLog[0])
      ensures error.None? && known ==> Between(w, args, St(), start, true)
      ensures error.None? ==> ReadsAsGiven(old(optionList), args, old(configFiles), configFiles)
      ensures error.None? ==> AllGivenRead(optionList, args, configFiles)
    {
      hide FirstFile, Inv, Missing, Settles, WellFormed, Remaining, Between, Early, Predictable, Onward,
        Finalizable, Free,
        Occurs, Reserved, ReadsAsGiven, AllGivenRead, ReadsNoneOf;
      ghost var s0 := St();
      ReadMain(args);
      ghost var s1 := St();
      parsed := false;
      ParsedIsFree(w, seen, s1);
      if known { BeginsEarly(w, args, St()); }
      error := ReadAll(args, start, known);
      if error.Some? { return; }
      ghost var s2 := St();
      parsed := false;
      ParsedIsFree(w, seen, s2);
      if known { ParsedIsFreeBetween(w, args, s2, start, false); }
      var remaining;
      remaining, error := ParseAll(args, start, known);
      if error.Some? { return; }
      if remaining != [] {
        return Some("Unknown options");
      }
      OnwardInTurn(s0, s1, s2, St(), args, w.main);
      return None;
    }

    /**
     `parse`, phases 1 and 3: reads the main config file unless it has been read, then parses until nothing
     new turns up. It always returns; without an error all arguments were taken, every loaded component's
     options are parsed, and every option is worth what `Settles` says. In a first parse of predictable config
     file options, exactly the component options that come before one that is read late lose their default.
     */
    method Parse(args: seq<Arg>) returns (error: Option<string>)
      requires Valid()
      modifies this
      ensures error.None? ==> Valid() && parsed && argv == Some(args)
      ensures error.None? ==> seen == if old(parsed && argv == Some(args)) then old(seen) else args + old(seen)
      ensures error.None? ==> cfp == Merged(w, readLog) && readLog != [] && Onward(old(St()), St(), args)
      ensures error.None? ==>
        readLog[0] == if old(readLog) == [] then (w.main.dest, FirstFile(w, args)) else old(readLog[0])
      ensures error.None? && old(seen == [] && Unused()) && Predictable(w, args, old(optionList)) ==>
        AllAsForeseen(w, args, St(), old(optionList))
      ensures error.None? ==> AllPlainly(w, seen, args, St()) && AllKnown(optionList, args)
      ensures error.None? && !old(parsed && argv == Some(args)) ==>
        ReadsAsGiven(old(optionList), args, old(configFiles), configFiles) &&
        AllGivenRead(optionList, args, configFiles)
      ensures error.None? ==> KeepsReserved(old(ns), ns, args)
    {
      hide FirstFile, Inv, Missing, WellFormed, Remaining, Merged, Between, Predictable, Onward, AllAsForeseen,
        Settles, Occurs,
        Finalizable, Free, Reserved, AllPlainly, AllKnown, KeepsReserved,
        ReadsAsGiven, AllGivenRead;
      NotOnward(St(), args);
      LogIsConsistent(w, seen, St());
      if parsed && argv == Some(args) {
        SettledPlainly(w, seen, args, St());
        ReservedStays(St(), St(), args);
        return None;
      }
      ghost var s0, start, known := St(), optionList, seen == [] && Unused() && Predictable(w, args, optionList);
      argv := Some(args);
      MoreSeen(w, args, seen, St());
      assert known ==> args + seen == args;
      seen := args + seen;
      error := Phases(args, start, known);
      if error.Some? { return; }
      LogIsConsistent(w, seen, St());
      GrownKeeps(s0, St(), args, w.main);
      if known { Foresight(w, args, St(), start); }
      SettledPlainly(w, seen, args, St());
      ReservedStays(s0, St(), args);
    }

    /**
     `reparse`: empties the namespace and parses again, the same arguments unless others are given. Config
     files that were read are not read again, the main one included, and what was finalized stays so: every
     component option with arguments that are not given is left at its default, the names of components in
     place of the components; only options that came with components loaded since are resolved. What the
     namespace holds for a file that was read, and is not given now, stays, even if it was given before.
     */
    method Reparse(given: Option<seq<Arg>>) returns (error: Option<string>)
      requires Valid() && (argv.Some? || (given.Some? && given.value != []))
      modifies this
      ensures error.None? ==> Valid() && parsed && ReadOnce(old(St()), St()) && old(final) <= stale
      ensures error.None? ==> argv == if given.Some? && given.value != [] then given else old(argv)
      ensures error.None? ==> KeepsRead(old(St()), St(), argv.value)
      ensures error.None? && configFiles == old(configFiles) ==> cfp == old(cfp) && stale == old(final)
      ensures error.None? && old(parsed) ==>
        forall o | o in old(optionList) && o.kind.Component? && o.cli && !Occurs(argv.value, o.dest) ::
          LeftRaw(w, St(), o)
      ensures error.None? && configFiles == old(configFiles) ==>
        forall o | o in optionList && o !in old(optionList) && o.kind.Component? && o.cli &&
          !Occurs(argv.value, o.dest) ::
          o.dest in ns && ns[o.dest] == Resolved(o, Precedence(w, cfp, o))
    {
      hide Inv, Missing, WellFormed, Merged, Onward, Settles, Occurs, Reserved, AllAsForeseen, Predictable, LeftRaw;
      ghost var s0, before := St(), seen;
      var args := if given.Some? && given.value != [] then given.value else argv.value;
      ResetKeeps(w, seen, St());
      ResetNamespace();
      seen := Surviving(seen, configFiles);
      ghost var left, s1 := seen, St();
      error := Parse(args);
      if error.Some? { return; }
      AfterReparse(w, before, left, args, s0, s1, St(), seen);
    }
  }

  lemma NewParserIsConsistent(w: World, argv: seq<Arg>, s: State)
    requires s.components == [] && s.options == [] && s.defaults == map[] && s.configFiles == []
    requires s.final == s.stale == {} && s.cfp == map[] && s.readLog == []
    requires forall d :: d in s.ns ==> Reserved(d)
    ensures Inv(w, argv, s)
  {
  }

  lemma {:induction false} AddEachKeepsComponents(w: World, s: State, os: seq<Opt>)
    requires AddEach(w, s, os).Ok?
    ensures AddEach(w, s, os).value.components == s.components && AddEach(w, s, os).value.parsed == s.parsed
    decreases |os|
  {
    if os != [] {
      AddEachKeepsComponents(w, AddOption(w, s, os[0]).value, os[1..]);
    }
  }

  lemma GrowsBy(w: World, s: State, c: Comp)
    requires OptionModel.AddComponent(w, s, c).Ok?
    ensures forall d :: d in s.components ==> d in OptionModel.AddComponent(w, s, c).value.components
    ensures !s.parsed ==> !OptionModel.AddComponent(w, s, c).value.parsed
  {
    if c !in s.components && c in w.options {
      AddEachKeepsComponents(w, s.(components := s.components + [c], parsed := false), w.options[c]);
    }
  }

  lemma SettledPlainly(w: World, seen: seq<Arg>, args: seq<Arg>, t: State)
    requires Remaining(t.options, args) == []
    requires forall o :: o in t.options && Free(seen, args, o) ==> Settles(w, args, t, o)
    ensures AllPlainly(w, seen, args, t) && AllKnown(t.options, args)
  {
    hide Settles, Free, Plainly, Occurs;
    NothingRemainsExactly(t.options, args);
    forall o | o in t.options && Free(seen, args, o) ensures Plainly(w, args, t, o) {
      SettlesPlainly(w, args, t, o);
    }
  }

  lemma ReservedStays(s: State, t: State, args: seq<Arg>)
    requires Onward(s, t, args)
    ensures KeepsReserved(s.ns, t.ns, args)
  {
    hide Occurs;
    forall d ensures (d in ["uri", "version", "name"] || "_" <= d) ==> Reserved(d) {
    }
  }

  lemma FirstFileIs(w: World, args: seq<Arg>, default: Option<Value>, cfp: map<Key, Value>)
    requires WellFormed(w) && default == Precedence(w, cfp, w.main)
    ensures FirstFile(w, args) ==
      if Occurs(args, w.main.dest) then Some(LastValue(args, w.main.dest)) else default
  {
  }

  lemma SameFiles(os: seq<Opt>, argv: seq<Arg>, files: seq<string>)
    ensures ReadsNoneOf(os, files, files)
  {
  }

  lemma NotOnward(s: State, args: seq<Arg>)
    ensures Onward(s, s, args)
  {
  }

  lemma ReadingIsOnward(w: World, s: State, dest: string, file: Option<Value>, args: seq<Arg>)
    requires Grown(s, OptionModel.AddConfigFile(w, s, dest, file))
    ensures Onward(s, OptionModel.AddConfigFile(w, s, dest, file), args)
  {
    hide Occurs;
    if dest !in s.configFiles { ReadingDefaults(w, s, dest, file); }
  }

  lemma GrownKeeps(s: State, t: State, args: seq<Arg>, o: Opt)
    requires Onward(s, t, args)
    ensures o in s.options ==> o in t.options
    ensures o.dest in s.configFiles ==> o.dest in t.configFiles
    ensures s.readLog != [] ==> t.readLog != [] && t.readLog[0] == s.readLog[0]
  {
  }

  lemma OnwardInTurn(s0: State, s1: State, s2: State, s3: State, args: seq<Arg>, o: Opt)
    requires Onward(s0, s1, args) && Onward(s1.(parsed := false), s2, args) && Onward(s2.(parsed := false), s3, args)
    requires s1.options == s0.options && ReadsNoneOf(s0.options, s0.configFiles, s1.configFiles)
    requires ReadsNoneOf(s1.options, s1.configFiles, s2.configFiles)
    requires ReadsAsGiven(s2.options, args, s2.configFiles, s3.configFiles)
    ensures Onward(s0, s3, args)
    ensures o in s1.options ==> o in s3.options
    ensures o.dest in s1.configFiles ==> o.dest in s3.configFiles
    ensures s1.readLog != [] ==> s3.readLog != [] && s3.readLog[0] == s1.readLog[0]
    ensures ReadsAsGiven(s0.options, args, s0.configFiles, s3.configFiles)
  {
    hide Occurs, ReadsNoneOf, ReadsAsGiven, Reserved;
    KeepsReadTwice(s0, s1, s2, args);
    KeepsReadTwice(s0, s2, s3, args);
    hide KeepsRead;
    ReadsInTurn(s0.options, s1.options, args, s0.configFiles, s1.configFiles, s2.configFiles);
    ReadsInTurn(s0.options, s2.options, args, s0.configFiles, s2.configFiles, s3.configFiles);
  }

  lemma Foresight(w: World, args: seq<Arg>, t: State, start: seq<Opt>)
    requires Between(w, args, t, start, true)
    requires forall o :: o in t.options && Free(args, args, o) ==> Settles(w, args, t, o)
    ensures AllAsForeseen(w, args, t, start)
  {
    hide Between, Settles, AsForeseen, Occurs;
    forall o | o in t.options && o.kind.Component? && o.cli && !Occurs(args, o.dest)
      ensures AsForeseen(w, args, t, start, o) {
      SettlesAsForeseen(w, args, t, start, o);
    }
  }

  /** The arguments whose entries survive when the namespace is emptied. */
  function Surviving(seen: seq<Arg>, configFiles: seq<string>): seq<Arg>
  {
    if seen == [] then []
    else (if seen[0].dest in configFiles then [seen[0]] else []) + Surviving(seen[1..], configFiles)
  }

  lemma {:induction false} SurvivingOccur(seen: seq<Arg>, configFiles: seq<string>, dest: string)
    ensures Occurs(Surviving(seen, configFiles), dest) <==> Occurs(seen, dest) && dest in configFiles
  {
    if seen != [] {
      SurvivingOccur(seen[1..], configFiles, dest);
      OccursFirst(seen, dest);
      var rest := Surviving(seen[1..], configFiles);
      if seen[0].dest in configFiles {
        OccursFirst([seen[0]] + rest, dest);
        assert ([seen[0]] + rest)[1..] == rest;
      } else {
        assert [] + rest == rest;
      }
    }
  }

  lemma ResetKeeps(w: World, seen: seq<Arg>, s: State)
    requires WellFormed(w) && Inv(w, seen, s)
    ensures Inv(w, Surviving(seen, s.configFiles), Reset(s))
  {
    hide AllOpts, Reserved, Truthy, Resolves, Precedence, Occurs;
    var t := Reset(s);
    assert forall o :: Default(t, o) == Default(s, o);
    forall o | o in s.options ensures Known(w, Surviving(seen, s.configFiles), t, o) {
      SurvivingOccur(seen, s.configFiles, o.dest);
      assert Known(w, seen, s, o) && !Reserved(o.dest);
    }
  }

  /** The option holds its default as it was read, with nothing done about the components it names. */
  ghost predicate LeftRaw(w: World, t: State, o: Opt)
  {
    o.dest in t.ns && t.ns[o.dest] == Precedence(w, t.cfp, o)
  }

  /** Arguments for component options do not survive. */
  lemma ComponentIsFree(w: World, before: seq<Arg>, left: seq<Arg>, args: seq<Arg>, s0: State, o: Opt)
    requires WellFormed(w) && Core(w, s0) && left == Surviving(before, s0.configFiles) && o.kind.Component?
    requires o in AllOpts(w)
    ensures Free(args + left, args, o)
  {
    SurvivingOccur(before, s0.configFiles, o.dest);
    if Occurs(args + left, o.dest) {
      var i :| 0 <= i < |args + left| && (args + left)[i].dest == o.dest;
      assert i < |args| ==> args[i].dest == o.dest;
      assert i >= |args| ==> left[i - |args|].dest == o.dest;
    }
  }

  /** What was read is not read again. */
  ghost predicate ReadOnce(s: State, t: State)
  {
    s.readLog <= t.readLog && forall i :: |s.readLog| <= i < |t.readLog| ==> t.readLog[i].0 !in s.configFiles
  }

  lemma SameFilesSameLog(w: World, before: seq<Arg>, seen: seq<Arg>, s0: State, t: State)
    requires Inv(w, before, s0) && Inv(w, seen, t) && Grown(Reset(s0), t)
    ensures ReadOnce(s0, t) && s0.final <= t.stale && s0.options <= t.options
    ensures t.configFiles == s0.configFiles ==> t.cfp == s0.cfp && t.stale == s0.final
  {
    hide Entries, Loaded, Kept;
    assert forall i :: |s0.readLog| <= i < |t.readLog| ==> t.readLog[i].0 == t.configFiles[i];
    assert t.configFiles == s0.configFiles ==> t.readLog == s0.readLog;
  }

  lemma ResetThenKeeps(s: State, t: State, args: seq<Arg>)
    requires KeepsRead(Reset(s), t, args)
    ensures KeepsRead(s, t, args)
  {
    hide Occurs, Reserved;
  }

  lemma AfterReparse(w: World, before: seq<Arg>, left: seq<Arg>, args: seq<Arg>, s0: State, s1: State, t: State,
                     seen: seq<Arg>)
    requires WellFormed(w) && Inv(w, before, s0) && Inv(w, seen, t) && s1 == Reset(s0) && Onward(s1, t, args)
    requires left == Surviving(before, s0.configFiles) && seen == args + left
    requires forall o :: o in t.options ==>
      (Finalizable(o) ==> o in t.final) && (Free(seen, args, o) ==> Settles(w, args, t, o))
    ensures ReadOnce(s0, t) && s0.final <= t.stale && KeepsRead(s0, t, args)
    ensures t.configFiles == s0.configFiles ==> t.cfp == s0.cfp && t.stale == s0.final
    ensures (forall o :: o in s0.options && Finalizable(o) ==> o in s0.final) ==>
      forall o | o in s0.options && o.kind.Component? && o.cli && !Occurs(args, o.dest) :: LeftRaw(w, t, o)
    ensures t.configFiles == s0.configFiles ==>
      forall o | o in t.options && o !in s0.options && o.kind.Component? && o.cli && !Occurs(args, o.dest) ::
        o.dest in t.ns && t.ns[o.dest] == Resolved(o, Precedence(w, t.cfp, o))
  {
    SameFilesSameLog(w, before, seen, s0, t);
    ResetThenKeeps(s0, t, args);
    hide KeepsRead, Reserved;
    assert forall o :: o in s0.final ==> o in s0.options;
    hide Entries, Loaded, Kept, Settles, Merged, Precedence, WellFormed;
    forall o | o in t.options && o.kind.Component? && o.cli && !Occurs(args, o.dest) ensures Settles(w, args, t, o) {
      CoreIsInvariant(w, seen, t, o);
      ComponentIsFree(w, before, left, args, s0, o);
    }
    hide Inv, Core, Grown, Free, Occurs, Reset;
    forall o | o in t.options && o.kind.Component? && o.cli && !Occurs(args, o.dest)
      ensures o in t.stale ==> LeftRaw(w, t, o)
      ensures o !in t.stale ==> o.dest in t.ns && t.ns[o.dest] == Resolved(o, Precedence(w, t.cfp, o))
    {
      SettledComponent(w, args, t, o);
    }
  }

  /** A component option with arguments that are not given holds its default or what that stands for. */
  lemma SettledComponent(w: World, args: seq<Arg>, t: State, o: Opt)
    requires Settles(w, args, t, o) && o.kind.Component? && o.cli && !Occurs(args, o.dest)
    ensures o in t.stale ==> LeftRaw(w, t, o)
    ensures o !in t.stale ==> o.dest in t.ns && t.ns[o.dest] == Resolved(o, Precedence(w, t.cfp, o))
  {
  }

  lemma MakeOnward(w: World, s: State, t: State, args: seq<Arg>)
    requires Forward(w, s, t) && KeepsRead(s, t, args)
    ensures Onward(s, t, args)
  {
  }

  /** Going on does not depend on the `parsed` flag. */
  lemma ParsedOnward(s: State, t: State, u: State, args: seq<Arg>)
    requires Onward(s, t, args) && (Onward(t.(parsed := true), u, args) || Onward(t.(parsed := false), u, args))
    ensures Onward(s, u, args)
  {
    hide Occurs;
  }

  lemma ParsedIsFreeEarly(w: World, argv: seq<Arg>, s: State)
    requires Early(w, argv, s)
    ensures Early(w, argv, s.(parsed := true)) && Early(w, argv, s.(parsed := false))
  {
    hide NeverNames, DefaultIs, AllOpts, Named;
    forall p, b | p in AllOpts(w) && p.kind.ConfigFile? && p.dest in s.ns
      ensures TidyEntry(w, argv, s.(parsed := b), p) {
      assert TidyEntry(w, argv, s, p);
    }
  }

  lemma ParsedIsFreeBetween(w: World, argv: seq<Arg>, s: State, start: seq<Opt>, late: bool)
    requires Between(w, argv, s, start, late)
    ensures Between(w, argv, s.(parsed := true), start, late) && Between(w, argv, s.(parsed := false), start, late)
  {
    hide NeverNames, DefaultIs, AllOpts, Named, Lost, Predictable;
    forall p, b | p in AllOpts(w) && p.kind.ConfigFile? && p.dest in s.ns
      ensures TidyEntry(w, argv, s.(parsed := b), p) {
      assert TidyEntry(w, argv, s, p);
    }
    assert forall p, b :: Dealt(argv, s.(parsed := b), p) == Dealt(argv, s, p);
  }

  /** With more arguments in view, less is promised of the namespace. */
  lemma MoreSeen(w: World, args: seq<Arg>, seen: seq<Arg>, s: State)
    requires Inv(w, seen, s)
    ensures Inv(w, args + seen, s) && forall a :: a in args ==> Occurs(args + seen, a.dest)
  {
    hide AllOpts, EntryOk, Precedence;
    forall d ensures Occurs(seen, d) ==> Occurs(args + seen, d) {
      if Occurs(seen, d) {
        var i :| 0 <= i < |seen| && seen[i].dest == d;
        assert (args + seen)[|args| + i].dest == d;
      }
    }
    forall o | o in s.options ensures Known(w, args + seen, s, o) {
      assert Known(w, seen, s, o);
    }
    forall a | a in args ensures Occurs(args + seen, a.dest) {
      assert a in args + seen;
      OccursAt(args + seen, a);
    }
  }

  lemma LoadedOptions(w: World, argv: seq<Arg>, s: State, c: Comp, o: Opt)
    requires Inv(w, argv, s) && c in s.components && c in w.options && o in w.options[c]
    ensures o in s.options
  {
    assert HasAll(s.options, w.options[c]);
  }

  lemma LogIsConsistent(w: World, argv: seq<Arg>, s: State)
    requires Inv(w, argv, s)
    ensures s.cfp == Merged(w, s.readLog) && Logged(s.readLog, s.configFiles) && s.stale <= s.final
  {
  }

  /** The `parsed` flag itself is nothing the invariant depends on. */
  lemma ParsedIsFree(w: World, argv: seq<Arg>, s: State)
    requires Inv(w, argv, s)
    ensures Inv(w, argv, s.(parsed := true)) && Inv(w, argv, s.(parsed := false))
    ensures Missing(w, s.(parsed := true)) == Missing(w, s)
  {
    forall o | o in s.options ensures Known(w, argv, s.(parsed := true), o) && Known(w, argv, s.(parsed := false), o) {
      assert Known(w, argv, s, o);
    }
    assert forall o :: Default(s.(parsed := true), o) == Default(s, o) == Default(s.(parsed := false), o);
  }

  // ---------- a default that is never resolved ----------

  const MAIN := Opt("config", true, Store, "", None, Some(Text("/etc/bcfg2.conf")))
  const PLUGINS := Opt("plugins", true, Component(map["P" := "PluginP"], true, true), "", None, Some(Names(["P"])))
  const WEB := Opt("web_config", true, ConfigFile, "", None, Some(Text("web.conf")))
  const WORLD := World(map[], map[], map["Parser" := [MAIN, PLUGINS, WEB]], MAIN)

  /** All this could be told: the file of the second option is read late, and the plugins come before it. */
  lemma PluginsAreForeseen()
    ensures WellFormed(WORLD) && Predictable(WORLD, [], [MAIN, PLUGINS, WEB])
    ensures Lost(WORLD, [], [MAIN, PLUGINS, WEB], PLUGINS)
  {
    OptionsOfWorld();
    WebIsReadLate();
    var os := [MAIN, PLUGINS, WEB];
    hide AllOpts, DefaultIs;
    assert "config"[0] == 'c' && "plugins"[0] == 'p' && "web_config"[0] == 'w';
    assert os[1] == PLUGINS && os[2] == WEB;
  }

  lemma OptionsOfWorld()
    ensures forall o :: o in AllOpts(WORLD) ==> o == MAIN || o == PLUGINS || o == WEB
  {
  }

  lemma WebIsReadLate()
    ensures DefaultIs(WORLD, WEB, true) && ReadLate(WORLD, [], WEB)
  {
  }

  /** A parser with these options, all with their declared default: nothing is on the command line. */
  ghost function Parsing(parsed: bool, components: seq<Comp>, files: seq<string>, ns: map<string, Option<Value>>,
                         final: set<Opt>, stale: set<Opt>): State
  {
    State(parsed, components, [MAIN, PLUGINS, WEB], {MAIN, PLUGINS, WEB}, files, ns, map[],
          map[MAIN := MAIN.hard, PLUGINS := PLUGINS.hard, WEB := WEB.hard], final, stale,
          if |files| == 1 then [("config", MAIN.hard)] else [("config", MAIN.hard), ("web_config", WEB.hard)])
  }

  ghost function Raw(): map<string, Option<Value>>
  {
    map["config" := MAIN.hard, "plugins" := PLUGINS.hard, "web_config" := WEB.hard]
  }

  ghost function Both(): set<Opt> { {PLUGINS, WEB} }

  ghost function AfterReset(parsed: bool): State
  {
    Parsing(parsed, ["Parser", "PluginP"], ["config", "web_config"],
      map["config" := MAIN.hard, "web_config" := WEB.hard], Both(), {PLUGINS})
  }

  lemma RoundOfThree(s: State, f: State, a: State, b: State, c: State)
    requires s.options == f.options == [MAIN, PLUGINS, WEB] && f.defaultsSet == {MAIN, PLUGINS, WEB}
    requires FillIn(s, s.options) == f
    requires FinalizeOption(WORLD, f, MAIN) == Ok(a) && FinalizeOption(WORLD, a, PLUGINS) == Ok(b)
    requires FinalizeOption(WORLD, b, WEB) == Ok(c)
    ensures Round(WORLD, s, []) == Ok(c)
  {
    hide FinalizeOption, FillIn;
    var os := [MAIN, PLUGINS, WEB];
    assert os[1..] == [PLUGINS, WEB] && [PLUGINS, WEB][1..] == [WEB] && [WEB][1..] == [];
    SetDefaultsChangesNothing(WORLD, f, os);
    assert OptionModel.ParseConfigOptions(WORLD, f, [WEB]) == Ok(f);
    assert OptionModel.ParseConfigOptions(WORLD, f, [PLUGINS, WEB]) == Ok(f);
    assert OptionModel.Finalize(WORLD, b, [WEB]) == Ok(c);
    assert OptionModel.Finalize(WORLD, a, [PLUGINS, WEB]) == Ok(c);
  }

  lemma FillInOne(s: State, o: Opt, os: seq<Opt>)
    requires o.cli && Default(s, o) == o.hard
    ensures FillIn(s, [o] + os) == FillIn(if o.dest in s.ns then s else Put(s, o.dest, o.hard), os)
  {
    hide Default;
    assert ([o] + os)[1..] == os;
  }

  lemma FillInPlugins(s: State, t: State)
    requires s.options == [MAIN, PLUGINS, WEB] && t == s.(ns := Raw())
    requires forall o :: o in s.options ==> Default(s, o) == o.hard
    requires s.ns == map[] || s.ns == map["config" := MAIN.hard, "web_config" := WEB.hard]
    ensures FillIn(s, s.options) == t
  {
    hide FillIn;
    assert |"config"| == 6 && |"plugins"| == 7 && |"web_config"| == 10;
    var u := if "config" in s.ns then s else Put(s, "config", MAIN.hard);
    var v := Put(u, "plugins", PLUGINS.hard);
    assert Default(s, MAIN) == MAIN.hard && Default(u, PLUGINS) == PLUGINS.hard && Default(v, WEB) == WEB.hard;
    hide Default;
    assert s.options == [MAIN] + [PLUGINS, WEB] && [PLUGINS, WEB] == [PLUGINS] + [WEB] && [WEB] == [WEB] + [];
    FillInOne(s, MAIN, [PLUGINS, WEB]);
    FillInOne(u, PLUGINS, [WEB]);
    FillInOne(v, WEB, []);
    assert (if "web_config" in v.ns then v else Put(v, "web_config", WEB.hard)).ns == t.ns;
    NothingToFillIn(t);
  }

  lemma NothingToFillIn(s: State)
    ensures FillIn(s, []) == s
  {
  }

  lemma LoadingP(s: State)
    requires s == Parsing(true, ["Parser"], ["config"], Raw(), {}, {})
    ensures FinalizeOption(WORLD, s, PLUGINS) ==
      Ok(Parsing(true, ["Parser", "PluginP"], ["config"], Raw()["plugins" := Some(Classes(["PluginP"]))],
        {PLUGINS}, {}))
  {
    assert |"PluginP"| != |"Parser"|;
    var t := s.(components := ["Parser", "PluginP"]);
    assert s.components + ["PluginP"] == t.components;
    assert OptionModel.AddComponent(WORLD, s, "PluginP") == Ok(t);
    assert LoadEach(WORLD, t, PLUGINS, ["P"][1..]) == Ok(t);
    assert LoadEach(WORLD, s, PLUGINS, ["P"]) == Ok(t);
    assert ClassesOf(PLUGINS, ["P"][1..]) == [];
    assert ClassesOf(PLUGINS, ["P"]) == ["PluginP"];
    assert s.final + {PLUGINS} == {PLUGINS};
  }

  lemma ReadingWeb(s: State)
    requires s == Parsing(true, ["Parser", "PluginP"], ["config"], Raw()["plugins" := Some(Classes(["PluginP"]))],
      {PLUGINS}, {})
    ensures FinalizeOption(WORLD, s, WEB) == Ok(AfterReset(false))
  {
    var r := Emptied(s);
    var u := r.(defaultsSet := {MAIN, PLUGINS, WEB});
    SettingDefaults(s, r, u);
    hide SetDefaults, Contents, Reset;
    assert |"web_config"| != |"config"|;
    assert s.configFiles + ["web_config"] == ["config", "web_config"];
    assert s.readLog + [("web_config", WEB.hard)] == [("config", MAIN.hard), ("web_config", WEB.hard)];
    assert s.final + {WEB} == Both();
    assert u.ns["web_config" := WEB.hard] == map["config" := MAIN.hard, "web_config" := WEB.hard];
  }

  /** The new file says nothing, so all defaults stay as they are. */
  lemma SettingDefaults(s: State, r: State, u: State)
    requires s == Parsing(true, ["Parser", "PluginP"], ["config"], Raw()["plugins" := Some(Classes(["PluginP"]))],
      {PLUGINS}, {})
    requires r == Parsing(false, ["Parser", "PluginP"], ["config"], map["config" := MAIN.hard], {PLUGINS},
      {PLUGINS}).(defaultsSet := {})
    requires u == r.(defaultsSet := {MAIN, PLUGINS, WEB})
    ensures SetDefaults(WORLD, r, r.options) == u
  {
    SetDefaultsSets(WORLD, r, r.options);
    var t := SetDefaults(WORLD, r, r.options);
    hide SetDefaults;
    assert t.defaultsSet == u.defaultsSet;
    assert forall o :: o in r.options ==> Default(t, o) == o.hard;
    assert t.defaults == u.defaults;
  }

  /** The state in which the defaults are read again, the file being empty. */
  lemma Emptied(s: State) returns (r: State)
    requires s == Parsing(true, ["Parser", "PluginP"], ["config"], Raw()["plugins" := Some(Classes(["PluginP"]))],
      {PLUGINS}, {})
    ensures r == Reset(s).(cfp := s.cfp + Contents(WORLD, WEB.hard), defaultsSet := {})
    ensures r == Parsing(false, ["Parser", "PluginP"], ["config"], map["config" := MAIN.hard], {PLUGINS},
      {PLUGINS}).(defaultsSet := {})
  {
    r := Reset(s).(cfp := s.cfp + Contents(WORLD, WEB.hard), defaultsSet := {});
    assert "plugins"[0] == 'p' && "web_config"[0] == 'w' && "config"[0] == 'c';
    assert |"web_config"| != |"config"| && |"plugins"| != |"config"|;
    assert r.ns == map["config" := MAIN.hard];
    assert r.cfp == map[];
  }

  /**
   The first round resolves the default of the plugins option and then reads the config file that is the
   default of the other option, which empties the namespace. The second round is the last: it puts the
   default back, and leaves it unresolved since the option counts as finalized.
   */
  lemma LateConfigFileLosesPlugins()
    ensures Round(WORLD, Parsing(true, ["Parser"], ["config"], map[], {}, {}), []) == Ok(AfterReset(false))
    ensures Round(WORLD, AfterReset(true), []) == Ok(AfterReset(true).(ns := Raw()))
    ensures Raw()["plugins"] == Some(Names(["P"]))
  {
    var s := Parsing(true, ["Parser"], ["config"], map[], {}, {});
    var f := Parsing(true, ["Parser"], ["config"], Raw(), {}, {});
    FillInPlugins(s, f);
    LoadingP(f);
    ReadingWeb(FinalizeOption(WORLD, f, PLUGINS).value);
    RoundOfThree(s, f, f, FinalizeOption(WORLD, f, PLUGINS).value, AfterReset(false));
    var t := AfterReset(true).(ns := Raw());
    FillInPlugins(AfterReset(true), t);
    RoundOfThree(AfterReset(true), t, t, t, t);
  }
}
