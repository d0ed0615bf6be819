/**
 The option parser as functions on its state: options come from components, which options may load,
 and their defaults from config files, which options may add, discarding the namespace each time.
 */
module OptionModel {
  import opened Common

  type Comp = string
  type Key = (string, string)

  /** A value of an option after type conversion; Python's None is the `None` of an Option<Value>. */
  datatype Value = Text(text: string) | Flag(flag: bool) | Names(names: seq<string>) | Class(comp: Comp)
    | Classes(comps: seq<Comp>)

  datatype Kind =
    | Store
    | Boolean
    | Component(mapping: map<string, Comp>, isList: bool, failSilently: bool)
    | ConfigFile

  /** `cli` tells whether the option has any `args`; `hard` is the default it was declared with. */
  datatype Opt = Opt(dest: string, cli: bool, kind: Kind, env: string, cf: Option<Key>, hard: Option<Value>)

  /** One argument of the command line, given with an option string that belongs to `dest`. */
  datatype Arg = Arg(dest: string, value: Value)

  datatype World = World(environ: map<string, Value>, files: map<string, map<Key, Value>>,
                         options: map<Comp, seq<Opt>>, main: Opt)

  datatype State = State(
    parsed: bool, components: seq<Comp>, options: seq<Opt>, defaultsSet: set<Opt>, configFiles: seq<string>,
    ns: map<string, Option<Value>>, cfp: map<Key, Value>, defaults: map<Opt, Option<Value>>,
    final: set<Opt>, stale: set<Opt>, readLog: seq<(string, Option<Value>)>)

  // `stale` and `readLog` are history: the options that were final when the namespace was last emptied, and
  // the config files read, each with the option it was read for.

  type Outcome = Result<State, string>

  // ---------- the operations ----------

  predicate Truthy(v: Option<Value>)
  {
    match v
    case None => false
    case Some(Text(t)) => t != ""
    case Some(Flag(b)) => b
    case Some(Names(ns)) => ns != []
    case Some(Class(_)) => true
    case Some(Classes(cs)) => cs != []
  }

  predicate Reserved(dest: string) { dest in ["uri", "version", "name"] || "_" <= dest }

  function Default(s: State, o: Opt): Option<Value> { if o in s.defaults then s.defaults[o] else o.hard }

  /** Environment, else config file, else the value so far. */
  function FromConfig(w: World, cfp: map<Key, Value>, o: Opt, sofar: Option<Value>): Option<Value>
  {
    if o.env != "" && o.env in w.environ then Some(w.environ[o.env])
    else if o.cf.Some? && o.cf.value in cfp then Some(cfp[o.cf.value])
    else sofar
  }

  function DefaultFromConfig(w: World, s: State, o: Opt): State
  {
    s.(defaults := s.defaults[o := FromConfig(w, s.cfp, o, Default(s, o))], defaultsSet := s.defaultsSet + {o})
  }

  predicate SomeEnv(options: seq<Opt>, env: string) { exists i :: 0 <= i < |options| && options[i].env == env }

  predicate SomeCf(options: seq<Opt>, cf: Option<Key>) { exists i :: 0 <= i < |options| && options[i].cf == cf }

  function AddOption(w: World, s: State, o: Opt): Outcome
  {
    if o in s.options then Ok(s)
    else if o.env != "" && SomeEnv(s.options, o.env) then Err("Duplicate environment variable option")
    else if o.cf.Some? && SomeCf(s.options, o.cf) then Err("Duplicate config file option")
    else Ok(DefaultFromConfig(w, s.(options := s.options + [o]), o))
  }

  function AddEach(w: World, s: State, os: seq<Opt>): Outcome
    decreases |os|
  {
    if os == [] then Ok(s)
    else match AddOption(w, s, os[0]) case Err(e) => Err(e) case Ok(t) => AddEach(w, t, os[1..])
  }

  function AddComponent(w: World, s: State, c: Comp): Outcome
  {
    if c in s.components then Ok(s)
    else
      var t := s.(components := s.components + [c]);
      if c in w.options then AddEach(w, t.(parsed := false), w.options[c]) else Ok(t)
  }

  function SetDefaults(w: World, s: State, os: seq<Opt>): State
    decreases |os|
  {
    if os == [] then s
    else SetDefaults(w, if os[0] in s.defaultsSet then s else DefaultFromConfig(w, s, os[0]), os[1..])
  }

  /** The options whose value is dropped although they count as finalized are noted in `stale`. */
  function Reset(s: State): State
  {
    s.(parsed := false, ns := map d | d in s.ns && (Reserved(d) || d in s.configFiles) :: s.ns[d], stale := s.final)
  }

  function Contents(w: World, file: Option<Value>): map<Key, Value>
  {
    if file.Some? && file.value.Text? && file.value.text in w.files then w.files[file.value.text] else map[]
  }

  function AddConfigFile(w: World, s: State, dest: string, file: Option<Value>): State
  {
    if dest in s.configFiles then s
    else
      var t := Reset(s);
      var u := SetDefaults(w, t.(cfp := t.cfp + Contents(w, file), defaultsSet := {}), t.options);
      u.(configFiles := u.configFiles + [dest], readLog := u.readLog + [(dest, file)])
  }

  function Put(s: State, dest: string, v: Option<Value>): State { s.(ns := s.ns[dest := v]) }

  function PutFinal(s: State, o: Opt, v: Option<Value>): State { Put(s, o.dest, v).(final := s.final + {o}) }

  function Characters(t: string): seq<string>
  {
    if t == "" then [] else [t[..1]] + Characters(t[1..])
  }

  /** The component names in a value: its elements for a list, the value itself otherwise. */
  function NamesIn(o: Opt, v: Value): Option<seq<string>>
    requires o.kind.Component?
  {
    if o.kind.isList then
      match v case Names(ns) => Some(ns) case Text(t) => Some(Characters(t)) case _ => None
    else if v.Text? then Some([v.text]) else None
  }

  function LoadOne(w: World, s: State, o: Opt, name: string): Outcome
    requires o.kind.Component?
  {
    if name in o.kind.mapping then AddComponent(w, s, o.kind.mapping[name])
    else if o.kind.failSilently then Ok(s)
    else Err("Could not load component " + name)
  }

  function LoadEach(w: World, s: State, o: Opt, names: seq<string>): Outcome
    requires o.kind.Component?
    decreases |names|
  {
    if names == [] then Ok(s)
    else match LoadOne(w, s, o, names[0]) case Err(e) => Err(e) case Ok(t) => LoadEach(w, t, o, names[1..])
  }

  /** What the names stand for, without those that could not be loaded. */
  function ClassesOf(o: Opt, names: seq<string>): seq<Comp>
    requires o.kind.Component?
  {
    if names == [] then []
    else (if names[0] in o.kind.mapping then [o.kind.mapping[names[0]]] else []) + ClassesOf(o, names[1..])
  }

  /** The value that stands for the components named by v. */
  function Resolved(o: Opt, v: Option<Value>): Option<Value>
    requires o.kind.Component?
  {
    if v.None? || NamesIn(o, v.value).None? then None
    else
      var classes := ClassesOf(o, NamesIn(o, v.value).value);
      if o.kind.isList then Some(Classes(classes)) else if classes == [] then None else Some(Class(classes[0]))
  }

  /** Calls the action of an option; `parser` tells whether it is given a parser. */
  function Call(w: World, s: State, o: Opt, v: Option<Value>, fromCli: bool, parser: bool): Outcome
  {
    match o.kind
    case Store => Ok(Put(s, o.dest, v))
    case Boolean =>
      Ok(Put(s, o.dest,
        if v.None? then Default(s, o) else if fromCli then Some(Flag(!Truthy(o.hard))) else Some(Flag(Truthy(v)))))
    case Component(_, _, _) =>
      if v.None? then Ok(PutFinal(s, o, None))
      else if NamesIn(o, v.value).None? then Err("TypeError")
      else (match LoadEach(w, s, o, NamesIn(o, v.value).value)
            case Err(e) => Err(e)
            case Ok(t) => Ok(PutFinal(t, o, Resolved(o, v))))
    case ConfigFile =>
      if !Truthy(v) then Ok(PutFinal(s, o, v))
      else if !parser then Err("AttributeError")
      else Ok(PutFinal(AddConfigFile(w, s, o.dest, v), o, v))
  }

  function ParseConfigOption(w: World, s: State, o: Opt): Outcome
  {
    if o.cli || o.dest in s.ns then Ok(s)
    else if Truthy(Default(s, o)) then Call(w, s, o, Default(s, o), false, true)
    else Ok(Put(s, o.dest, Default(s, o)))
  }

  function ParseConfigOptions(w: World, s: State, os: seq<Opt>): Outcome
    decreases |os|
  {
    if os == [] then Ok(s)
    else match ParseConfigOption(w, s, os[0]) case Err(e) => Err(e) case Ok(t) => ParseConfigOptions(w, t, os[1..])
  }

  function FinalizeOption(w: World, s: State, o: Opt): Outcome
  {
    if (o.kind.Component? || o.kind.ConfigFile?) && o !in s.final then
      Call(w, s, o, if o.dest in s.ns then s.ns[o.dest] else Default(s, o), false, o.cli)
    else Ok(s)
  }

  function Finalize(w: World, s: State, os: seq<Opt>): Outcome
    decreases |os|
  {
    if os == [] then Ok(s)
    else match FinalizeOption(w, s, os[0]) case Err(e) => Err(e) case Ok(t) => Finalize(w, t, os[1..])
  }

  /** `parse_known_args`, first part: options that the namespace lacks get their default. */
  function FillIn(s: State, os: seq<Opt>): State
    decreases |os|
  {
    if os == [] then s
    else FillIn(if os[0].cli && os[0].dest !in s.ns then Put(s, os[0].dest, Default(s, os[0])) else s, os[1..])
  }

  function Lookup(os: seq<Opt>, dest: string): Option<Opt>
  {
    if os == [] then None else if os[0].cli && os[0].dest == dest then Some(os[0]) else Lookup(os[1..], dest)
  }

  function ParseArg(w: World, s: State, os: seq<Opt>, arg: Arg): Outcome
  {
    match Lookup(os, arg.dest)
    case None => Ok(s)
    case Some(o) => Call(w, s, o, Some(arg.value), true, true)
  }

  /** `parse_known_args`, second part: the arguments are acted on in turn, for the options known at the start. */
  function ParseArgs(w: World, s: State, os: seq<Opt>, argv: seq<Arg>): Outcome
    decreases |argv|
  {
    if argv == [] then Ok(s)
    else
      match ParseArg(w, s, os, argv[0]) case Err(e) => Err(e) case Ok(t) => ParseArgs(w, t, os, argv[1..])
  }

  /** One round of the second loop of phase 3. */
  function Round(w: World, s: State, argv: seq<Arg>): Outcome
  {
    match ParseArgs(w, FillIn(s, s.options), s.options, argv)
    case Err(e) => Err(e)
    case Ok(a) =>
      var b := SetDefaults(w, a, a.options);
      match ParseConfigOptions(w, b, b.options)
      case Err(e) => Err(e)
      case Ok(c) => Finalize(w, c, c.options)
  }
}
