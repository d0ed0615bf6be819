/** Package lists for Debian repositories (create-debian-pkglist.py): what is collected and how it is written. */
module DebianPkglist {
  import opened Common
  import opened Ordering

  /** Package name to architecture to version. */
  type Table = map<string, map<string, string>>

  /** A line of a package index; a `Broken` one has no second word. */
  datatype Line = PackageLine(name: string) | VersionLine(version: string) | OtherLine | Broken

  /** A source: for each section, the index files of the architectures that can be fetched. */
  datatype SourceUrl = SourceUrl(arch: string, sections: seq<map<string, seq<Line>>>)

  // ---------- what was seen ----------

  datatype Observation = Observation(pkg: string, arch: string, version: string)

  /** `apt_pkg.VersionCompare` */
  type Compare = (string, string) -> int

  /** `_pkg_version_is_older`: equal versions are not compared. */
  predicate IsOlder(compare: Compare, version1: string, version2: string)
  {
    version1 != version2 && compare(version1, version2) < 0
  }

  /** The versions seen of a package on an architecture, in order. */
  function Seen(obs: seq<Observation>, pkg: string, arch: string): seq<string>
  {
    if obs == [] then []
    else
      var last := obs[|obs| - 1];
      Seen(obs[..|obs| - 1], pkg, arch) + if last.pkg == pkg && last.arch == arch then [last.version] else []
  }

  /** The version was seen, and no version that was seen is newer. */
  ghost predicate IsNewest(version: string, versions: seq<string>, compare: Compare)
  {
    version in versions && forall v :: v in versions ==> v == version || compare(version, v) >= 0
  }

  /** For every architecture on which a package was seen, the newest version of it. */
  ghost predicate NewestOf(row: map<string, string>, obs: seq<Observation>, pkg: string, compare: Compare)
  {
    forall arch :: if arch in row then IsNewest(row[arch], Seen(obs, pkg, arch), compare)
      else Seen(obs, pkg, arch) == []
  }

  /** `compare` orders different versions strictly. */
  ghost predicate Transitive(compare: Compare)
  {
    forall a, b, c :: a != b && b != c && compare(a, b) < 0 && compare(b, c) < 0 ==> a != c && compare(a, c) < 0
  }

  /** The table holds exactly the packages that match and were seen, each with its newest versions. */
  ghost predicate Holds(t: Table, obs: seq<Observation>, matches: string -> bool, compare: Compare)
  {
    forall pkg :: matches(pkg) ==> NewestOf(RowOf(t, pkg), obs, pkg, compare)
  }

  function RowOf(t: Table, pkg: string): map<string, string> { if pkg in t then t[pkg] else map[] }

  /** How one version line changes the row of its package. */
  function Updated(row: map<string, string>, arch: string, version: string, compare: Compare): map<string, string>
  {
    if arch in row && !IsOlder(compare, row[arch], version) then row else row[arch := version]
  }

  lemma UpdateKeepsNewest(row: map<string, string>, obs: seq<Observation>, o: Observation, compare: Compare)
    requires Transitive(compare) && NewestOf(row, obs, o.pkg, compare)
    ensures NewestOf(Updated(row, o.arch, o.version, compare), obs + [o], o.pkg, compare)
  {
    assert (obs + [o])[..|obs|] == obs;
    var after := Updated(row, o.arch, o.version, compare);
    forall arch
      ensures if arch in after then IsNewest(after[arch], Seen(obs + [o], o.pkg, arch), compare)
        else Seen(obs + [o], o.pkg, arch) == []
    {
      assert arch in row ==> IsNewest(row[arch], Seen(obs, o.pkg, arch), compare);
      if arch == o.arch {
        assert Seen(obs + [o], o.pkg, arch) == Seen(obs, o.pkg, arch) + [o.version];
      } else {
        assert Seen(obs + [o], o.pkg, arch) == Seen(obs, o.pkg, arch);
      }
    }
  }

  lemma OtherPackagesStay(row: map<string, string>, obs: seq<Observation>, o: Observation, pkg: string,
                          compare: Compare)
    requires pkg != o.pkg && NewestOf(row, obs, pkg, compare)
    ensures NewestOf(row, obs + [o], pkg, compare)
  {
    assert (obs + [o])[..|obs|] == obs;
    forall arch
      ensures if arch in row then IsNewest(row[arch], Seen(obs + [o], pkg, arch), compare)
        else Seen(obs + [o], pkg, arch) == []
    {
      assert Seen(obs + [o], pkg, arch) == Seen(obs, pkg, arch);
      assert arch in row ==> IsNewest(row[arch], Seen(obs, pkg, arch), compare);
    }
  }

  lemma UpdateHolds(t: Table, obs: seq<Observation>, o: Observation, matches: string -> bool, compare: Compare)
    requires Transitive(compare) && Holds(t, obs, matches, compare)
    ensures Holds(t[o.pkg := Updated(RowOf(t, o.pkg), o.arch, o.version, compare)], obs + [o], matches, compare)
  {
    var after := t[o.pkg := Updated(RowOf(t, o.pkg), o.arch, o.version, compare)];
    hide NewestOf, Transitive, Updated;
    forall pkg | matches(pkg) ensures NewestOf(RowOf(after, pkg), obs + [o], pkg, compare) {
      if pkg == o.pkg {
        UpdateKeepsNewest(RowOf(t, pkg), obs, o, compare);
      } else {
        OtherPackagesStay(RowOf(t, pkg), obs, o, pkg, compare);
      }
    }
  }

  // ---------- what is written ----------

  datatype Tag = Comment | OpenList(priority: string) | CloseList | OpenGroup(name: string) | CloseGroup
    | Entry(pkg: string, version: string)

  /** A line of the file: a tag at a level of indentation. */
  datatype Out = Out(indent: nat, tag: Tag)

  /** The open elements around a place in the file; None is the package list itself. */
  type Path = seq<Option<string>>

  /** The path after a line; tags are closed in the order in which they were opened, on their level. */
  function After(path: Option<Path>, out: Out): Option<Path>
  {
    if path.None? then None
    else
      var p := path.value;
      match out.tag
      case Comment => if out.indent == |p| then path else None
      case Entry(_, _) => if out.indent == |p| then path else None
      case OpenList(_) => if out.indent == |p| then Some(p + [None]) else None
      case OpenGroup(name) => if out.indent == |p| then Some(p + [Some(name)]) else None
      case CloseList => if p != [] && p[|p| - 1] == None && out.indent == |p| - 1 then Some(p[..|p| - 1]) else None
      case CloseGroup => if p != [] && p[|p| - 1].Some? && out.indent == |p| - 1 then Some(p[..|p| - 1]) else None
  }

  function PathAfter(path: Option<Path>, outs: seq<Out>): Option<Path>
  {
    if outs == [] then path else After(PathAfter(path, outs[..|outs| - 1]), outs[|outs| - 1])
  }

  /** All groups around a place are groups of the client. */
  predicate Inside(path: Path, client: set<string>)
  {
    forall i :: 0 <= i < |path| && path[i].Some? ==> path[i].value in client
  }

  /** The packages that a client sees in lines that start at a path. */
  function Visible(path: Path, outs: seq<Out>, client: set<string>): set<(string, string)>
  {
    if outs == [] then {}
    else
      var last := outs[|outs| - 1];
      var p := PathAfter(Some(path), outs[..|outs| - 1]);
      Visible(path, outs[..|outs| - 1], client) +
        if last.tag.Entry? && p.Some? && Inside(p.value, client) then {(last.tag.pkg, last.tag.version)} else {}
  }

  lemma {:induction false} PathAfterConcat(path: Path, a: seq<Out>, b: seq<Out>)
    ensures PathAfter(Some(path), a + b) == PathAfter(PathAfter(Some(path), a), b)
  {
    if b == [] {
      assert a + b == a;
    } else {
      assert (a + b)[..|a + b| - 1] == a + b[..|b| - 1];
      PathAfterConcat(path, a, b[..|b| - 1]);
    }
  }

  lemma {:induction false} VisibleConcat(path: Path, a: seq<Out>, mid: Path, b: seq<Out>, client: set<string>)
    requires PathAfter(Some(path), a) == Some(mid)
    ensures Visible(path, a + b, client) == Visible(path, a, client) + Visible(mid, b, client)
  {
    if b == [] {
      assert a + b == a;
    } else {
      var front := b[..|b| - 1];
      assert (a + b)[..|a + b| - 1] == a + front;
      VisibleConcat(path, a, mid, front, client);
      PathAfterConcat(path, a, front);
    }
  }

  /** The package has the same version on all n architectures. */
  predicate Coalesces(row: map<string, string>, n: nat)
  {
    |row| == n && forall a, b :: a in row && b in row ==> row[a] == row[b]
  }

  ghost function SomeVersion(row: map<string, string>): string
  {
    if row == map[] then "" else var a :| a in row; row[a]
  }

  ghost function CommonLines(keys: seq<string>, t: Table, n: nat, indent: nat): seq<Out>
  {
    if keys == [] then []
    else
      var pkg := keys[|keys| - 1];
      CommonLines(keys[..|keys| - 1], t, n, indent) +
        if Coalesces(RowOf(t, pkg), n) then [Out(indent, Entry(pkg, SomeVersion(RowOf(t, pkg))))] else []
  }

  function ArchLines(keys: seq<string>, t: Table, arch: string, indent: nat): seq<Out>
  {
    if keys == [] then []
    else
      var pkg := keys[|keys| - 1];
      ArchLines(keys[..|keys| - 1], t, arch, indent) +
        if arch in RowOf(t, pkg) then [Out(indent, Entry(pkg, RowOf(t, pkg)[arch]))] else []
  }

  function PerArchLines(archs: seq<string>, keys: seq<string>, t: Table, indent: nat): seq<Out>
  {
    if archs == [] then []
    else
      var arch := archs[|archs| - 1];
      PerArchLines(archs[..|archs| - 1], keys, t, indent) +
        ([Out(indent, OpenGroup(arch))] + ArchLines(keys, t, arch, indent + 1) + [Out(indent, CloseGroup)])
  }

  function OpenLines(groups: seq<string>, indent: nat): seq<Out>
  {
    if groups == [] then []
    else OpenLines(groups[..|groups| - 1], indent) + [Out(indent + |groups| - 1, OpenGroup(groups[|groups| - 1]))]
  }

  function CloseLines(n: nat, indent: nat): seq<Out>
  {
    if n == 0 then [] else [Out(indent + n - 1, CloseGroup)] + CloseLines(n - 1, indent)
  }

  function CommentLines(n: nat): seq<Out> { if n == 0 then [] else CommentLines(n - 1) + [Out(0, Comment)] }

  function GroupPath(groups: seq<string>): Path
  {
    if groups == [] then [] else GroupPath(groups[..|groups| - 1]) + [Some(groups[|groups| - 1])]
  }

  /** The entries that do not coalesce. */
  function Remaining(t: Table, n: nat): Table { map pkg | pkg in t && !Coalesces(t[pkg], n) :: t[pkg] }

  ghost predicate SortedKeys(keys: seq<string>, t: Table)
  {
    (forall k :: k in keys <==> k in t) && Distinct(keys) && forall i, j :: 0 <= i < j < |keys| ==>
      LexLe(keys[i], keys[j])
  }

  // ---------- what the lines say ----------

  /** The lines leave the path as it was and show a client inside it exactly these packages. */
  ghost predicate Shows(outs: seq<Out>, path: Path, client: set<string>, pairs: set<(string, string)>)
  {
    PathAfter(Some(path), outs) == Some(path) && Visible(path, outs, client) ==
      if Inside(path, client) then pairs else {}
  }

  lemma ShowsConcat(a: seq<Out>, b: seq<Out>, path: Path, client: set<string>, p: set<(string, string)>,
                    q: set<(string, string)>)
    requires Shows(a, path, client, p) && Shows(b, path, client, q)
    ensures Shows(a + b, path, client, p + q)
  {
    PathAfterConcat(path, a, b);
    VisibleConcat(path, a, path, b, client);
  }

  lemma OneLine(path: Path, out: Out, client: set<string>)
    ensures PathAfter(Some(path), [out]) == After(Some(path), out)
    ensures Visible(path, [out], client) ==
      if out.tag.Entry? && Inside(path, client) then {(out.tag.pkg, out.tag.version)} else {}
  {
    assert [out][..0] == [];
  }

  lemma ShowsEntry(path: Path, pkg: string, version: string, client: set<string>)
    ensures Shows([Out(|path|, Entry(pkg, version))], path, client, {(pkg, version)})
  {
    OneLine(path, Out(|path|, Entry(pkg, version)), client);
  }

  lemma ShowsNothing(path: Path, client: set<string>)
    ensures Shows([], path, client, {})
  {
  }

  /** Lines inside a group show what they show to a client of the group. */
  lemma ShowsGroup(name: string, body: seq<Out>, path: Path, client: set<string>, pairs: set<(string, string)>)
    requires Shows(body, path + [Some(name)], client, pairs)
    ensures Shows([Out(|path|, OpenGroup(name))] + body + [Out(|path|, CloseGroup)], path, client,
      if name in client then pairs else {})
  {
    var inner := path + [Some(name)];
    var open, close := Out(|path|, OpenGroup(name)), Out(|path|, CloseGroup);
    assert inner[..|inner| - 1] == path;
    OneLine(path, open, client);
    OneLine(inner, close, client);
    PathAfterConcat(path, [open], body);
    VisibleConcat(path, [open], inner, body, client);
    PathAfterConcat(path, [open] + body, [close]);
    VisibleConcat(path, [open] + body, inner, [close], client);
    InsideGroup(path, name, client);
  }

  lemma InsideGroup(path: Path, name: string, client: set<string>)
    ensures Inside(path + [Some(name)], client) <==> Inside(path, client) && name in client
  {
    var inner := path + [Some(name)];
    assert inner[|path|] == Some(name);
    assert forall i :: 0 <= i < |path| ==> inner[i] == path[i];
  }

  ghost function CommonPairs(keys: seq<string>, t: Table, n: nat): set<(string, string)>
  {
    set pkg | pkg in keys && Coalesces(RowOf(t, pkg), n) :: (pkg, SomeVersion(RowOf(t, pkg)))
  }

  ghost function ArchPairs(keys: seq<string>, t: Table, arch: string): set<(string, string)>
  {
    set pkg | pkg in keys && arch in RowOf(t, pkg) :: (pkg, RowOf(t, pkg)[arch])
  }

  lemma {:induction false} CommonLinesShow(keys: seq<string>, t: Table, n: nat, path: Path, client: set<string>)
    ensures Shows(CommonLines(keys, t, n, |path|), path, client, CommonPairs(keys, t, n))
  {
    hide Shows, Coalesces, SomeVersion;
    if keys == [] {
      ShowsNothing(path, client);
      assert CommonPairs([], t, n) == {};
    } else {
      var front, pkg := keys[..|keys| - 1], keys[|keys| - 1];
      CommonLinesShow(front, t, n, path, client);
      assert keys == front + [pkg];
      var version := SomeVersion(RowOf(t, pkg));
      if Coalesces(RowOf(t, pkg), n) {
        ShowsEntry(path, pkg, version, client);
        ShowsConcat(CommonLines(front, t, n, |path|), [Out(|path|, Entry(pkg, version))], path, client,
          CommonPairs(front, t, n), {(pkg, version)});
        assert CommonPairs(keys, t, n) == CommonPairs(front, t, n) + {(pkg, version)};
      } else {
        assert CommonPairs(keys, t, n) == CommonPairs(front, t, n);
        assert CommonLines(keys, t, n, |path|) == CommonLines(front, t, n, |path|);
      }
    }
  }

  lemma {:induction false} ArchLinesShow(keys: seq<string>, t: Table, arch: string, path: Path, client: set<string>)
    ensures Shows(ArchLines(keys, t, arch, |path|), path, client, ArchPairs(keys, t, arch))
  {
    hide Shows;
    if keys == [] {
      ShowsNothing(path, client);
      assert ArchPairs([], t, arch) == {};
    } else {
      var front, pkg := keys[..|keys| - 1], keys[|keys| - 1];
      ArchLinesShow(front, t, arch, path, client);
      assert keys == front + [pkg];
      if arch in RowOf(t, pkg) {
        var version := RowOf(t, pkg)[arch];
        ShowsEntry(path, pkg, version, client);
        ShowsConcat(ArchLines(front, t, arch, |path|), [Out(|path|, Entry(pkg, version))], path, client,
          ArchPairs(front, t, arch), {(pkg, version)});
        assert ArchPairs(keys, t, arch) == ArchPairs(front, t, arch) + {(pkg, version)};
      } else {
        assert ArchPairs(keys, t, arch) == ArchPairs(front, t, arch);
        assert ArchLines(keys, t, arch, |path|) == ArchLines(front, t, arch, |path|);
      }
    }
  }

  /** What is written for the architectures that a client is in. */
  ghost function PerArchPairs(archs: seq<string>, keys: seq<string>, t: Table, client: set<string>):
    set<(string, string)>
  {
    set arch, pkg | arch in archs && arch in client && pkg in keys && arch in RowOf(t, pkg) ::
      (pkg, RowOf(t, pkg)[arch])
  }

  lemma OneMoreArch(archs: seq<string>, last: string, keys: seq<string>, t: Table, client: set<string>)
    ensures PerArchPairs(archs + [last], keys, t, client) ==
      PerArchPairs(archs, keys, t, client) + if last in client then ArchPairs(keys, t, last) else {}
  {
    hide RowOf;
  }

  /** A client sees what is written in the groups of its architectures. */
  lemma {:induction false} PerArchLinesShow(archs: seq<string>, keys: seq<string>, t: Table, path: Path,
                                            client: set<string>)
    ensures Shows(PerArchLines(archs, keys, t, |path|), path, client, PerArchPairs(archs, keys, t, client))
  {
    hide Shows, ArchLines, ArchPairs, PerArchPairs;
    if archs == [] {
      ShowsNothing(path, client);
      assert PerArchPairs([], keys, t, client) == {} by { NoArchs(keys, t, client); }
    } else {
      var front, last := archs[..|archs| - 1], archs[|archs| - 1];
      PerArchLinesShow(front, keys, t, path, client);
      ArchLinesShow(keys, t, last, path + [Some(last)], client);
      ShowsGroup(last, ArchLines(keys, t, last, |path| + 1), path, client, ArchPairs(keys, t, last));
      OneMoreArch(front, last, keys, t, client);
      assert archs == front + [last];
      var here := [Out(|path|, OpenGroup(last))] + ArchLines(keys, t, last, |path| + 1) + [Out(|path|, CloseGroup)];
      ShowsConcat(PerArchLines(front, keys, t, |path|), here, path, client, PerArchPairs(front, keys, t, client),
                  if last in client then ArchPairs(keys, t, last) else {});
    }
  }

  lemma NoArchs(keys: seq<string>, t: Table, client: set<string>)
    ensures PerArchPairs([], keys, t, client) == {}
  {
  }

  // ---------- the whole file ----------

  /** What is written inside the groups of the source. */
  ghost function BodyLines(archs: seq<string>, keys: seq<string>, left: seq<string>, t: Table, indent: nat): seq<Out>
  {
    CommonLines(keys, t, |archs|, indent) +
      if left == [] then [] else PerArchLines(archs, left, Remaining(t, |archs|), indent)
  }

  ghost function FileLines(comments: nat, priority: string, groups: seq<string>, archs: seq<string>,
                           keys: seq<string>, left: seq<string>, t: Table): seq<Out>
  {
    CommentLines(comments) + ([Out(0, OpenList(priority))] +
      (OpenLines(groups, 1) + BodyLines(archs, keys, left, t, 1 + |groups|) + CloseLines(|groups|, 1)) +
        [Out(0, CloseList)])
  }

  /** The package and version pairs of an architecture. */
  ghost function Pairs(t: Table, arch: string): set<(string, string)>
  {
    set pkg | pkg in t && arch in t[pkg] :: (pkg, t[pkg][arch])
  }

  /** Every package was seen on some of the configured architectures. */
  ghost predicate RowsOver(t: Table, archs: seq<string>)
  {
    forall pkg :: pkg in t ==> t[pkg] != map[] && forall a :: a in t[pkg] ==> a in archs
  }

  lemma CoalescedRowIsFull(row: map<string, string>, archs: seq<string>, arch: string)
    requires Coalesces(row, |archs|) && (forall a :: a in row ==> a in archs) && arch in archs
    ensures arch in row && row[arch] == SomeVersion(row)
  {
    if arch !in row {
      var rest := set a | a in archs && a != arch;
      assert row.Keys <= rest;
      SubsetIsSmaller(row.Keys, rest);
      MembersFit(archs, rest, arch);
    }
  }

  lemma {:induction false} MembersFit(s: seq<string>, others: set<string>, x: string)
    requires x in s && others == set a | a in s && a != x
    ensures |others| < |s|
  {
    var front, last := s[..|s| - 1], s[|s| - 1];
    assert s == front + [last];
    if x in front {
      var before := set a | a in front && a != x;
      MembersFit(front, before, x);
      assert others <= before + {last};
      SubsetIsSmaller(others, before + {last});
    } else {
      DistinctFit(front);
      assert others <= set a | a in front;
      SubsetIsSmaller(others, set a | a in front);
    }
  }

  lemma {:induction false} DistinctFit(s: seq<string>)
    ensures |set a | a in s| <= |s|
  {
    if s != [] {
      var front, last := s[..|s| - 1], s[|s| - 1];
      assert s == front + [last];
      DistinctFit(front);
      assert (set a | a in s) == (set a | a in front) + {last};
    }
  }

  /** What a client in all groups of the source sees: the coalesced packages, and the others on its architectures. */
  ghost function SeenBy(t: Table, archs: seq<string>, client: set<string>): set<(string, string)>
  {
    (set pkg | pkg in t && Coalesces(t[pkg], |archs|) :: (pkg, SomeVersion(t[pkg]))) +
    (set arch, pkg | arch in archs && arch in client && pkg in t && arch in t[pkg] && !Coalesces(t[pkg], |archs|) ::
       (pkg, t[pkg][arch]))
  }

  lemma WrittenIsSeen(t: Table, archs: seq<string>, keys: seq<string>, left: seq<string>, client: set<string>)
    requires SortedKeys(keys, t) && SortedKeys(left, Remaining(t, |archs|))
    ensures CommonPairs(keys, t, |archs|) + PerArchPairs(archs, left, Remaining(t, |archs|), client) ==
      SeenBy(t, archs, client)
  {
    hide Coalesces, SomeVersion, Distinct, LexLe;
    var r := Remaining(t, |archs|);
    assert forall pkg :: pkg in keys ==> RowOf(t, pkg) == t[pkg];
    assert forall pkg :: pkg in left ==> RowOf(r, pkg) == t[pkg];
    assert CommonPairs(keys, t, |archs|) == set pkg | pkg in t && Coalesces(t[pkg], |archs|) ::
      (pkg, SomeVersion(t[pkg]));
  }

  lemma BodyShows(archs: seq<string>, keys: seq<string>, left: seq<string>, t: Table, path: Path, client: set<string>)
    requires SortedKeys(keys, t) && SortedKeys(left, Remaining(t, |archs|))
    ensures Shows(BodyLines(archs, keys, left, t, |path|), path, client, SeenBy(t, archs, client))
  {
    hide Shows, CommonLines, PerArchLines, CommonPairs, PerArchPairs, SeenBy;
    var r := Remaining(t, |archs|);
    var common := CommonLines(keys, t, |archs|, |path|);
    CommonLinesShow(keys, t, |archs|, path, client);
    WrittenIsSeen(t, archs, keys, left, client);
    if left == [] {
      ShowsNothing(path, client);
      assert PerArchPairs(archs, [], r, client) == {} by { NoKeys(archs, r, client); }
      ShowsConcat(common, [], path, client, CommonPairs(keys, t, |archs|), {});
    } else {
      PerArchLinesShow(archs, left, r, path, client);
      ShowsConcat(common, PerArchLines(archs, left, r, |path|), path, client,
                  CommonPairs(keys, t, |archs|), PerArchPairs(archs, left, r, client));
    }
  }

  lemma NoKeys(archs: seq<string>, t: Table, client: set<string>)
    ensures PerArchPairs(archs, [], t, client) == {}
  {
  }

  lemma {:induction false} OpenLinesOpen(path: Path, groups: seq<string>, client: set<string>)
    ensures PathAfter(Some(path), OpenLines(groups, |path|)) == Some(path + GroupPath(groups))
    ensures Visible(path, OpenLines(groups, |path|), client) == {}
    ensures |GroupPath(groups)| == |groups|
  {
    if groups != [] {
      var front := groups[..|groups| - 1];
      var lines := OpenLines(groups, |path|);
      assert lines[..|lines| - 1] == OpenLines(front, |path|);
      OpenLinesOpen(path, front, client);
      assert path + GroupPath(front) + [Some(groups[|groups| - 1])] == path + GroupPath(groups);
    } else {
      assert path + GroupPath(groups) == path;
    }
  }

  lemma {:induction false} CloseLinesClose(path: Path, groups: seq<string>, client: set<string>)
    ensures PathAfter(Some(path + GroupPath(groups)), CloseLines(|groups|, |path|)) == Some(path)
    ensures Visible(path + GroupPath(groups), CloseLines(|groups|, |path|), client) == {}
  {
    if groups != [] {
      var front, last := groups[..|groups| - 1], groups[|groups| - 1];
      var less := path + GroupPath(front);
      OpenLinesOpen(path, front, client);
      CloseLinesClose(path, front, client);
      assert path + GroupPath(groups) == less + [Some(last)];
      var rest := CloseLines(|front|, |path|);
      assert CloseLines(|groups|, |path|) == [Out(|less|, CloseGroup)] + rest;
      CloseGroupFirst(less, last, rest, client);
    } else {
      assert path + GroupPath(groups) == path;
    }
  }

  lemma CloseGroupFirst(path: Path, name: string, rest: seq<Out>, client: set<string>)
    ensures PathAfter(Some(path + [Some(name)]), [Out(|path|, CloseGroup)] + rest) == PathAfter(Some(path), rest)
    ensures Visible(path + [Some(name)], [Out(|path|, CloseGroup)] + rest, client) == Visible(path, rest, client)
  {
    var inner, line := path + [Some(name)], Out(|path|, CloseGroup);
    assert inner[..|inner| - 1] == path;
    OneLine(inner, line, client);
    hide PathAfter, Visible;
    PathAfterConcat(inner, [line], rest);
    VisibleConcat(inner, [line], path, rest, client);
  }

  /** Exactly the clients in all groups of the source are inside them. */
  lemma {:induction false} InsideGroups(groups: seq<string>, client: set<string>)
    ensures Inside([None] + GroupPath(groups), client) <==> forall g :: g in groups ==> g in client
  {
    if groups != [] {
      var front, last := groups[..|groups| - 1], groups[|groups| - 1];
      assert groups == front + [last];
      InsideGroups(front, client);
      InsideGroup([None] + GroupPath(front), last, client);
      assert [None] + GroupPath(groups) == [None] + GroupPath(front) + [Some(last)];
    }
  }

  lemma GroupsShow(path: Path, groups: seq<string>, body: seq<Out>, client: set<string>, pairs: set<(string, string)>)
    requires Shows(body, path + GroupPath(groups), client, pairs)
    ensures var lines := OpenLines(groups, |path|) + body + CloseLines(|groups|, |path|);
      && PathAfter(Some(path), lines) == Some(path)
      && Visible(path, lines, client) == if Inside(path + GroupPath(groups), client) then pairs else {}
  {
    var inner, open, close := path + GroupPath(groups), OpenLines(groups, |path|), CloseLines(|groups|, |path|);
    OpenLinesOpen(path, groups, client);
    CloseLinesClose(path, groups, client);
    PathAfterConcat(path, open, body);
    VisibleConcat(path, open, inner, body, client);
    PathAfterConcat(path, open + body, close);
    VisibleConcat(path, open + body, inner, close, client);
  }

  lemma ListShows(priority: string, body: seq<Out>, client: set<string>)
    requires PathAfter(Some([None]), body) == Some([None])
    ensures var lines := [Out(0, OpenList(priority))] + body + [Out(0, CloseList)];
      PathAfter(Some([]), lines) == Some([]) && Visible([], lines, client) == Visible([None], body, client)
  {
    var path: Path, inner: Path := [], [None];
    var open, close := Out(0, OpenList(priority)), Out(0, CloseList);
    assert path + [None] == inner && inner[..0] == path;
    OneLine(path, open, client);
    OneLine(inner, close, client);
    PathAfterConcat(path, [open], body);
    VisibleConcat(path, [open], inner, body, client);
    PathAfterConcat(path, [open] + body, [close]);
    VisibleConcat(path, [open] + body, inner, [close], client);
  }

  lemma {:induction false} CommentsShowNothing(n: nat, client: set<string>)
    ensures PathAfter(Some([]), CommentLines(n)) == Some([]) && Visible([], CommentLines(n), client) == {}
  {
    if n > 0 {
      CommentsShowNothing(n - 1, client);
      assert CommentLines(n)[..|CommentLines(n)| - 1] == CommentLines(n - 1);
    }
  }

  /** The file is balanced, and every client outside some group sees nothing, every other one what `SeenBy` says. */
  lemma FileShows(comments: nat, priority: string, groups: seq<string>, archs: seq<string>, keys: seq<string>,
                  left: seq<string>, t: Table, client: set<string>)
    requires SortedKeys(keys, t) && SortedKeys(left, Remaining(t, |archs|))
    ensures var lines := FileLines(comments, priority, groups, archs, keys, left, t);
      && PathAfter(Some([]), lines) == Some([])
      && Visible([], lines, client) == if forall g :: g in groups ==> g in client then SeenBy(t, archs, client) else {}
  {
    var outer: Path := [None];
    var body := BodyLines(archs, keys, left, t, 1 + |groups|);
    hide BodyLines, SeenBy, SortedKeys, PathAfter, Visible, GroupPath, Inside, Shows, Remaining;
    OpenLinesOpen(outer, groups, client);
    InsideGroups(groups, client);
    BodyShows(archs, keys, left, t, outer + GroupPath(groups), client);
    FrameShows(comments, priority, groups, body, client, SeenBy(t, archs, client));
  }

  /** Around a body that leaves the path alone, the file is balanced and shows what the body shows. */
  lemma FrameShows(comments: nat, priority: string, groups: seq<string>, body: seq<Out>, client: set<string>,
                   pairs: set<(string, string)>)
    requires Shows(body, [None] + GroupPath(groups), client, pairs)
    ensures var grouped := OpenLines(groups, 1) + body + CloseLines(|groups|, 1);
      var lines := CommentLines(comments) + ([Out(0, OpenList(priority))] + grouped + [Out(0, CloseList)]);
      && PathAfter(Some([]), lines) == Some([])
      && Visible([], lines, client) == if Inside([None] + GroupPath(groups), client) then pairs else {}
  {
    hide Shows, PathAfter, Visible, GroupPath, Inside, OpenLines, CloseLines, CommentLines;
    GroupsShow([None], groups, body, client, pairs);
    var inside := OpenLines(groups, 1) + body + CloseLines(|groups|, 1);
    ListShows(priority, inside, client);
    CommentsShowNothing(comments, client);
    var list := [Out(0, OpenList(priority))] + inside + [Out(0, CloseList)];
    PathAfterConcat([], CommentLines(comments), list);
    VisibleConcat([], CommentLines(comments), [], list, client);
  }

  /** Every other architecture of the client has only versions that this one has too, among what is not coalesced. */
  ghost predicate OthersAgree(t: Table, archs: seq<string>, client: set<string>, arch: string)
  {
    forall other, pkg |
        other in archs && other in client && pkg in t && other in t[pkg] && !Coalesces(t[pkg], |archs|) ::
      arch in t[pkg] && t[pkg][arch] == t[pkg][other]
  }

  /**
   What a client of an architecture sees is exactly what was collected for it if and only if the client is in no
   other architecture that says otherwise. A client of the source's groups and of that architecture alone is in
   none, unless another architecture has the name of such a group.
   */
  lemma LosslessExactly(t: Table, archs: seq<string>, client: set<string>, arch: string)
    requires RowsOver(t, archs) && arch in archs && arch in client
    ensures SeenBy(t, archs, client) == Pairs(t, arch) <==> OthersAgree(t, archs, client, arch)
    ensures (forall other :: other in archs && other in client ==> other == arch) ==>
      OthersAgree(t, archs, client, arch)
  {
    hide Coalesces, SomeVersion;
    var n := |archs|;
    forall pkg | pkg in t && Coalesces(t[pkg], n) ensures arch in t[pkg] && t[pkg][arch] == SomeVersion(t[pkg]) {
      CoalescedRowIsFull(t[pkg], archs, arch);
    }
    forall p | p in Pairs(t, arch) ensures p in SeenBy(t, archs, client) {
      var pkg :| pkg in t && arch in t[pkg] && p == (pkg, t[pkg][arch]);
    }
    if SeenBy(t, archs, client) == Pairs(t, arch) {
      forall other, pkg | other in archs && other in client && pkg in t && other in t[pkg] && !Coalesces(t[pkg], n)
        ensures arch in t[pkg] && t[pkg][arch] == t[pkg][other]
      {
        assert (pkg, t[pkg][other]) in SeenBy(t, archs, client);
      }
    }
    if OthersAgree(t, archs, client, arch) {
      assert forall p :: p in SeenBy(t, archs, client) ==> p in Pairs(t, arch);
    }
  }

  /** From the indices to the client: of each package that matches, the one version shown is the newest seen. */
  ghost predicate ShowsNewest(file: seq<Out>, obs: seq<Observation>, client: set<string>, arch: string,
                              matches: string -> bool, compare: Compare)
  {
    forall pkg ::
      if matches(pkg) && Seen(obs, pkg, arch) != [] then
        exists version :: IsNewest(version, Seen(obs, pkg, arch), compare) &&
          forall v :: (pkg, v) in Visible([], file, client) <==> v == version
      else forall v :: (pkg, v) !in Visible([], file, client)
  }

  lemma CollectedIsShown(file: seq<Out>, t: Table, obs: seq<Observation>, client: set<string>, arch: string,
                         matches: string -> bool, compare: Compare)
    requires Holds(t, obs, matches, compare) && (forall pkg :: pkg in t ==> matches(pkg))
    requires Visible([], file, client) == Pairs(t, arch)
    ensures ShowsNewest(file, obs, client, arch, matches, compare)
  {
    hide Visible, Seen, IsNewest;
    forall pkg
      ensures if matches(pkg) && Seen(obs, pkg, arch) != [] then
          exists version :: IsNewest(version, Seen(obs, pkg, arch), compare) &&
            forall v :: (pkg, v) in Visible([], file, client) <==> v == version
        else forall v :: (pkg, v) !in Visible([], file, client)
    {
      if matches(pkg) {
        assert NewestOf(RowOf(t, pkg), obs, pkg, compare);
        NoVersionOfUnseen(RowOf(t, pkg), obs, pkg, arch, compare);
        if arch in RowOf(t, pkg) {
          assert IsNewest(RowOf(t, pkg)[arch], Seen(obs, pkg, arch), compare);
        }
      }
    }
  }

  lemma NoVersionOfUnseen(row: map<string, string>, obs: seq<Observation>, pkg: string, arch: string, compare: Compare)
    requires NewestOf(row, obs, pkg, compare)
    ensures arch in row <==> Seen(obs, pkg, arch) != []
  {
  }

  // ---------- reading the indices ----------

  /** Where reading has got to: the package of the last package line, and all that was seen. */
  datatype Progress = Progress(name: Option<string>, obs: seq<Observation>)

  const FAILURE := "Could not process URL"

  function ObserveLine(p: Progress, arch: string, line: Line): Result<Progress, string>
  {
    match line
    case PackageLine(n) => Ok(p.(name := Some(n)))
    case VersionLine(v) => if p.name.None? then Err(FAILURE)
      else Ok(p.(obs := p.obs + [Observation(p.name.value, arch, v)]))
    case OtherLine => Ok(p)
    case Broken => Err(FAILURE)
  }

  function ObserveLines(p: Progress, arch: string, lines: seq<Line>): Result<Progress, string>
    decreases |lines|
  {
    if lines == [] then Ok(p)
    else match ObserveLine(p, arch, lines[0]) case Err(e) => Err(e) case Ok(q) => ObserveLines(q, arch, lines[1..])
  }

  predicate Skips(url: SourceUrl, arch: string, special: set<string>)
  {
    (url.arch != arch && url.arch != "all") || (url.arch == "all" && arch in special)
  }

  function ObserveArch(p: Progress, url: SourceUrl, special: set<string>, section: map<string, seq<Line>>,
                       arch: string): Result<Progress, string>
  {
    if Skips(url, arch, special) then Ok(p)
    else if arch !in section then Err(FAILURE)
    else ObserveLines(p, arch, section[arch])
  }

  function ObserveSection(p: Progress, url: SourceUrl, special: set<string>, section: map<string, seq<Line>>,
                          archs: seq<string>): Result<Progress, string>
    decreases |archs|
  {
    if archs == [] then Ok(p)
    else match ObserveArch(p, url, special, section, archs[0]) case Err(e) => Err(e)
      case Ok(q) => ObserveSection(q, url, special, section, archs[1..])
  }

  function ObserveUrl(p: Progress, url: SourceUrl, special: set<string>, sections: seq<map<string, seq<Line>>>,
                      archs: seq<string>): Result<Progress, string>
    decreases |sections|
  {
    if sections == [] then Ok(p)
    else match ObserveSection(p, url, special, sections[0], archs) case Err(e) => Err(e)
      case Ok(q) => ObserveUrl(q, url, special, sections[1..], archs)
  }

  /** All that the sources say, each read from the start without a package. */
  function ObserveUrls(obs: seq<Observation>, urls: seq<SourceUrl>, special: set<string>, archs: seq<string>):
    Result<seq<Observation>, string>
    decreases |urls|
  {
    if urls == [] then Ok(obs)
    else
      match ObserveUrl(Progress(None, obs), urls[0], special, urls[0].sections, archs)
      case Err(e) => Err(e)
      case Ok(q) => ObserveUrls(q.obs, urls[1..], special, archs)
  }

  /** The table holds the newest versions seen of the packages that match, on the configured architectures. */
  ghost predicate Collected(t: Table, obs: seq<Observation>, archs: seq<string>, matches: string -> bool,
                            compare: Compare)
  {
    Holds(t, obs, matches, compare) && RowsOver(t, archs)
  }

  lemma CollectMore(t: Table, obs: seq<Observation>, o: Observation, archs: seq<string>, matches: string -> bool,
                    compare: Compare)
    requires Transitive(compare) && Collected(t, obs, archs, matches, compare) && o.arch in archs
    ensures Collected(t[o.pkg := Updated(RowOf(t, o.pkg), o.arch, o.version, compare)], obs + [o], archs, matches,
      compare)
  {
    UpdateHolds(t, obs, o, matches, compare);
    assert o.arch in Updated(RowOf(t, o.pkg), o.arch, o.version, compare);
  }

  class Source {
    const groups: seq<string>
    const priority: string
    const architectures: seq<string>
    const special: set<string>
    const matches: string -> bool
    const compare: Compare
    var indent_level: nat
    var file: seq<Out>

    constructor (groups: seq<string>, priority: string, architectures: seq<string>, special: set<string>,
                 matches: string -> bool, compare: Compare)
      ensures this.groups == groups && this.priority == priority && this.architectures == architectures
      ensures this.special == special
      ensures this.matches == matches && this.compare == compare && indent_level == 0 && file == []
    {
      this.groups, this.priority, this.architectures, this.special := groups, priority, architectures, special;
      this.matches, this.compare := matches, compare;
      indent_level, file := 0, [];
    }

    ghost predicate Knows(t: Table, obs: seq<Observation>)
    {
      Collected(t, obs, architectures, matches, compare)
    }

    /** One index file; `name` is the package of the last package line of any file. */
    method ReadIndex(pkgdata: Table, ghost p: Progress, name: Option<string>, arch: string, lines: seq<Line>)
      returns (t: Table, pkgname: Option<string>, error: Option<string>)
      requires Transitive(compare) && Knows(pkgdata, p.obs) && p.name == name && arch in architectures
      ensures match ObserveLines(p, arch, lines)
        case Err(e) => error == Some(e)
        case Ok(q) => error.None? && q.name == pkgname && Knows(t, q.obs)
    {
      t, pkgname := pkgdata, name;
      ghost var q := p;
      hide Collected, Transitive, Updated;
      for i := 0 to |lines|
        invariant Knows(t, q.obs) && q.name == pkgname
        invariant ObserveLines(p, arch, lines) == ObserveLines(q, arch, lines[i..])
      {
        assert lines[i..][1..] == lines[i + 1..];
        var line := lines[i];
        if line.Broken? || (line.VersionLine? && pkgname.None?) { return t, pkgname, Some(FAILURE); }
        if line.PackageLine? { pkgname := Some(line.name); }
        if line.VersionLine? {
          CollectMore(t, q.obs, Observation(pkgname.value, arch, line.version), architectures, matches, compare);
          t := t[pkgname.value := Updated(RowOf(t, pkgname.value), arch, line.version, compare)];
        }
        q := ObserveLine(q, arch, line).value;
      }
      error := None;
    }

    /** `_update_pkgdata`: all indices of one source, then only the packages that match. */
    method UpdatePkgdata(pkgdata: Table, url: SourceUrl, ghost obs: seq<Observation>)
      returns (t: Table, error: Option<string>)
      requires Transitive(compare) && Knows(pkgdata, obs)
      ensures match ObserveUrl(Progress(None, obs), url, special, url.sections, architectures)
        case Err(e) => error == Some(e)
        case Ok(q) => error.None? && Knows(t, q.obs) && forall pkg :: pkg in t ==> matches(pkg)
    {
      hide Transitive, Collected, ObserveLines;
      t := pkgdata;
      var pkgname := None;
      ghost var p := Progress(None, obs);
      for i := 0 to |url.sections|
        invariant Knows(t, p.obs) && p.name == pkgname
        invariant ObserveUrl(Progress(None, obs), url, special, url.sections, architectures) ==
          ObserveUrl(p, url, special, url.sections[i..], architectures)
      {
        var section := url.sections[i];
        assert url.sections[i..][1..] == url.sections[i + 1..];
        t, pkgname, error := ReadSection(t, p, pkgname, url, section);
        if error.Some? { return; }
        p := ObserveSection(p, url, special, section, architectures).value;
      }
      error := None;
      FilteredIsCollected(t, p.obs, architectures, matches, compare);
      t := map pkg | pkg in t && matches(pkg) :: t[pkg];
    }

    method ReadSection(pkgdata: Table, ghost p: Progress, name: Option<string>, url: SourceUrl,
                       section: map<string, seq<Line>>)
      returns (t: Table, pkgname: Option<string>, error: Option<string>)
      requires Transitive(compare) && Knows(pkgdata, p.obs) && p.name == name
      ensures match ObserveSection(p, url, special, section, architectures)
        case Err(e) => error == Some(e)
        case Ok(q) => error.None? && q.name == pkgname && Knows(t, q.obs)
    {
      hide Transitive, Collected, ObserveLines;
      t, pkgname := pkgdata, name;
      ghost var q := p;
      for i := 0 to |architectures|
        invariant Knows(t, q.obs) && q.name == pkgname
        invariant ObserveSection(p, url, special, section, architectures) ==
          ObserveSection(q, url, special, section, architectures[i..])
      {
        var arch := architectures[i];
        assert architectures[i..][1..] == architectures[i + 1..];
        if !Skips(url, arch, special) {
          if arch !in section { return t, pkgname, Some(FAILURE); }
          t, pkgname, error := ReadIndex(t, q, pkgname, arch, section[arch]);
          if error.Some? { return; }
          q := ObserveLines(q, arch, section[arch]).value;
        }
      }
      error := None;
    }

    method WriteToFile(tag: Tag)
      modifies this`file
      ensures file == old(file) + [Out(indent_level, tag)]
    {
      file := file + [Out(indent_level, tag)];
    }

    /** Writes the packages with one version for all architectures; returns the others. */
    method WriteCommonEntries(pkgdata: Table) returns (left: Table, ghost keys: seq<string>)
      requires RowsOver(pkgdata, architectures)
      modifies this`file
      ensures SortedKeys(keys, pkgdata) && left == Remaining(pkgdata, |architectures|)
      ensures file == old(file) + CommonLines(keys, pkgdata, |architectures|, indent_level)
    {
      hide Coalesces, SomeVersion, Without, RowsOver, CommonLines;
      left := pkgdata;
      var sorted := SortKeys(pkgdata);
      keys := sorted;
      WithoutNone(pkgdata, |architectures|);
      NoCommonLines(pkgdata, |architectures|, indent_level);
      for i := 0 to |sorted|
        invariant file == old(file) + CommonLines(sorted[..i], pkgdata, |architectures|, indent_level)
        invariant left == Without(pkgdata, sorted[..i], |architectures|)
      {
        var pkg := sorted[i];
        assert sorted[..i + 1][..i] == sorted[..i] && sorted[..i + 1] == sorted[..i] + [pkg];
        assert pkg in sorted && pkg !in sorted[..i];
        WithoutOne(pkgdata, sorted[..i], pkg, |architectures|);
        CommonOneMore(sorted[..i], pkg, pkgdata, |architectures|, indent_level);
        if Coalesces(left[pkg], |architectures|) {
          RowsAreNotEmpty(pkgdata, architectures, pkg);
          var arch :| arch in left[pkg];
          CoalescedVersion(left[pkg], |architectures|, arch);
          WriteToFile(Entry(pkg, left[pkg][arch]));
          left := left - {pkg};
        }
      }
      assert sorted[..|sorted|] == sorted;
      WithoutAll(pkgdata, sorted, |architectures|);
    }

    method WritePerarchEntries(pkgdata: Table) returns (ghost keys: seq<string>)
      modifies this`file, this`indent_level
      ensures SortedKeys(keys, pkgdata) && indent_level == old(indent_level)
      ensures file == old(file) + if keys == [] then [] else PerArchLines(architectures, keys, pkgdata, indent_level)
    {
      hide SortedKeys, PerArchLines, ArchLines;
      keys := [];
      NothingToSort(pkgdata);
      if pkgdata != map[] {
        var sorted := SortKeys(pkgdata);
        keys := sorted;
        SomeKeys(sorted, pkgdata);
        NoPerArchLines(sorted, pkgdata, indent_level);
        for i := 0 to |architectures|
          invariant indent_level == old(indent_level)
          invariant file == old(file) + PerArchLines(architectures[..i], sorted, pkgdata, indent_level)
        {
          assert architectures[..i + 1] == architectures[..i] + [architectures[i]];
          PerArchOneMore(architectures[..i], architectures[i], sorted, pkgdata, indent_level);
          WriteArch(architectures[i], sorted, pkgdata);
        }
        assert architectures[..|architectures|] == architectures;
      }
    }

    method WriteArch(arch: string, sorted: seq<string>, pkgdata: Table)
      modifies this`file, this`indent_level
      ensures indent_level == old(indent_level)
      ensures file == old(file) +
        ([Out(indent_level, OpenGroup(arch))] + ArchLines(sorted, pkgdata, arch, indent_level + 1) +
          [Out(indent_level, CloseGroup)])
    {
      WriteToFile(OpenGroup(arch));
      ghost var start := file;
      indent_level := indent_level + 1;
      for k := 0 to |sorted|
        invariant indent_level == old(indent_level) + 1
        invariant file == start + ArchLines(sorted[..k], pkgdata, arch, indent_level)
      {
        assert sorted[..k + 1][..k] == sorted[..k];
        if sorted[k] in pkgdata && arch in pkgdata[sorted[k]] {
          WriteToFile(Entry(sorted[k], pkgdata[sorted[k]][arch]));
        }
      }
      assert sorted[..|sorted|] == sorted;
      indent_level := indent_level - 1;
      WriteToFile(CloseGroup);
    }

    method Collect(source_urls: seq<SourceUrl>) returns (t: Table, error: Option<string>)
      requires Transitive(compare)
      ensures match ObserveUrls([], source_urls, special, architectures)
        case Err(e) => error == Some(e)
        case Ok(obs) => error.None? && Knows(t, obs) && forall pkg :: pkg in t ==> matches(pkg)
    {
      hide Transitive, Collected, ObserveUrl;
      t, error := map[], None;
      ghost var obs: seq<Observation> := [];
      NothingCollected(architectures, matches, compare);
      for i := 0 to |source_urls|
        invariant Knows(t, obs) && error.None?
        invariant forall pkg :: pkg in t ==> matches(pkg)
        invariant ObserveUrls([], source_urls, special, architectures) ==
          ObserveUrls(obs, source_urls[i..], special, architectures)
      {
        assert source_urls[i..][1..] == source_urls[i + 1..];
        ghost var before := obs;
        t, error := UpdatePkgdata(t, source_urls[i], obs);
        if error.Some? { return; }
        obs := ObserveUrl(Progress(None, before), source_urls[i], special, source_urls[i].sections,
          architectures).value.obs;
      }
    }

    /** Every client in all groups and one architecture sees exactly the newest versions seen on that architecture. */
    ghost predicate ShownToClients(lines: seq<Out>, obs: seq<Observation>)
    {
      forall client, arch |
        arch in architectures && arch in client && (forall g :: g in groups ==> g in client) &&
        (forall other :: other in architectures && other in client ==> other == arch) ::
        ShowsNewest(lines, obs, client, arch, matches, compare)
    }

    ghost method ShowAll(t: Table, obs: seq<Observation>, comments: nat, keys: seq<string>, left: seq<string>)
      requires Knows(t, obs) && (forall pkg :: pkg in t ==> matches(pkg))
      requires SortedKeys(keys, t) && SortedKeys(left, Remaining(t, |architectures|))
      ensures ShownToClients(FileLines(comments, priority, groups, architectures, keys, left, t), obs)
    {
      var lines := FileLines(comments, priority, groups, architectures, keys, left, t);
      hide FileLines, SortedKeys, Remaining, SeenBy, Pairs, OthersAgree, Holds, ShowsNewest, Visible;
      forall client, arch |
        arch in architectures && arch in client && (forall g :: g in groups ==> g in client) &&
        (forall other :: other in architectures && other in client ==> other == arch)
        ensures ShowsNewest(lines, obs, client, arch, matches, compare)
      {
        FileShows(comments, priority, groups, architectures, keys, left, t, client);
        LosslessExactly(t, architectures, client, arch);
        CollectedIsShown(lines, t, obs, client, arch, matches, compare);
      }
    }

    /** `process`: collects everything, then writes the file; without an error nothing seen is lost. */
    method Process(source_urls: seq<SourceUrl>)
      returns (t: Table, error: Option<string>, ghost keys: seq<string>, ghost left: seq<string>)
      requires Transitive(compare) && indent_level == 0 && file == []
      modifies this`file, this`indent_level
      ensures match ObserveUrls([], source_urls, special, architectures)
        case Err(e) => error == Some(e) && file == []
        case Ok(obs) =>
          error.None? && Knows(t, obs) && (forall pkg :: pkg in t ==> matches(pkg)) && ShownToClients(file, obs)
      ensures indent_level == 0
      ensures error.None? ==> SortedKeys(keys, t) && SortedKeys(left, Remaining(t, |architectures|))
      ensures error.None? ==> file == FileLines(|source_urls|, priority, groups, architectures, keys, left, t)
    {
      hide Transitive, Collected, SortedKeys, ObserveUrls, FileLines, Remaining, ShowsNewest, ShownToClients;
      keys, left := [], [];
      t, error := Collect(source_urls);
      if error.None? {
        RowsOfCollected(t, ObserveUrls([], source_urls, special, architectures).value, architectures, matches, compare);
        keys, left := WriteAll(t, |source_urls|);
        ShowAll(t, ObserveUrls([], source_urls, special, architectures).value, |source_urls|, keys, left);
      }
    }

    method WriteAll(t: Table, comments: nat) returns (ghost keys: seq<string>, ghost left: seq<string>)
      requires RowsOver(t, architectures) && indent_level == 0 && file == []
      modifies this`file, this`indent_level
      ensures indent_level == 0 && SortedKeys(keys, t) && SortedKeys(left, Remaining(t, |architectures|))
      ensures file == FileLines(comments, priority, groups, architectures, keys, left, t)
    {
      hide SortedKeys, CommonLines, PerArchLines, Remaining, RowsOver, OpenLines, CloseLines, FileLines;
      for i := 0 to comments
        invariant file == CommentLines(i) && indent_level == 0
      {
        WriteToFile(Comment);
      }
      hide CommentLines;
      WriteToFile(OpenList(priority));
      indent_level := indent_level + 1;
      OpenGroups();
      var rest;
      rest, keys := WriteCommonEntries(t);
      left := WritePerarchEntries(rest);
      CloseGroups();
      indent_level := indent_level - 1;
      WriteToFile(CloseList);
      FileIsThus(comments, priority, groups, architectures, keys, left, t);
    }

    method OpenGroups()
      modifies this`file, this`indent_level
      ensures indent_level == old(indent_level) + |groups| && file == old(file) + OpenLines(groups, old(indent_level))
    {
      for i := 0 to |groups|
        invariant indent_level == old(indent_level) + i && file == old(file) + OpenLines(groups[..i], old(indent_level))
      {
        assert groups[..i + 1][..i] == groups[..i];
        WriteToFile(OpenGroup(groups[i]));
        indent_level := indent_level + 1;
      }
      assert groups[..|groups|] == groups;
    }

    method CloseGroups()
      requires indent_level >= |groups|
      modifies this`file, this`indent_level
      ensures indent_level == old(indent_level) - |groups| && file == old(file) + CloseLines(|groups|, indent_level)
    {
      ghost var base: nat := indent_level - |groups|;
      for i := 0 to |groups|
        invariant indent_level == base + |groups| - i
        invariant old(file) + CloseLines(|groups|, base) == file + CloseLines(|groups| - i, base)
      {
        indent_level := indent_level - 1;
        WriteToFile(CloseGroup);
      }
    }
  }

  function Without(t: Table, done: seq<string>, n: nat): Table
  {
    map k | k in t && !(k in done && Coalesces(t[k], n)) :: t[k]
  }

  lemma WithoutNone(t: Table, n: nat)
    ensures Without(t, [], n) == t
  {
  }

  lemma WithoutOne(t: Table, done: seq<string>, pkg: string, n: nat)
    requires pkg in t && pkg !in done
    ensures pkg in Without(t, done, n) && Without(t, done, n)[pkg] == t[pkg] == RowOf(t, pkg)
    ensures Without(t, done + [pkg], n) ==
      if Coalesces(t[pkg], n) then Without(t, done, n) - {pkg} else Without(t, done, n)
  {
    hide Coalesces;
  }

  lemma WithoutAll(t: Table, done: seq<string>, n: nat)
    requires forall k :: k in t ==> k in done
    ensures Without(t, done, n) == Remaining(t, n)
  {
    hide Coalesces;
  }

  lemma NoCommonLines(t: Table, n: nat, indent: nat)
    ensures CommonLines([], t, n, indent) == []
  {
  }

  lemma CommonOneMore(keys: seq<string>, pkg: string, t: Table, n: nat, indent: nat)
    ensures CommonLines(keys + [pkg], t, n, indent) == CommonLines(keys, t, n, indent) +
      if Coalesces(RowOf(t, pkg), n) then [Out(indent, Entry(pkg, SomeVersion(RowOf(t, pkg))))] else []
  {
    assert (keys + [pkg])[..|keys|] == keys;
  }

  lemma SomeKeys(keys: seq<string>, t: Table)
    requires SortedKeys(keys, t) && t != map[]
    ensures keys != []
  {
    var pkg :| pkg in t;
    assert pkg in keys;
  }

  lemma NothingToSort(t: Table)
    ensures t == map[] ==> SortedKeys([], t)
  {
  }

  lemma NoPerArchLines(keys: seq<string>, t: Table, indent: nat)
    ensures PerArchLines([], keys, t, indent) == []
  {
  }

  lemma PerArchOneMore(archs: seq<string>, arch: string, keys: seq<string>, t: Table, indent: nat)
    ensures PerArchLines(archs + [arch], keys, t, indent) == PerArchLines(archs, keys, t, indent) +
      ([Out(indent, OpenGroup(arch))] + ArchLines(keys, t, arch, indent + 1) + [Out(indent, CloseGroup)])
  {
    assert (archs + [arch])[..|archs|] == archs;
  }

  /** The file in the order in which it is written. */
  lemma FileIsThus(comments: nat, priority: string, groups: seq<string>, archs: seq<string>, keys: seq<string>,
                   left: seq<string>, t: Table)
    ensures FileLines(comments, priority, groups, archs, keys, left, t) ==
      CommentLines(comments) + [Out(0, OpenList(priority))] + OpenLines(groups, 1) +
        CommonLines(keys, t, |archs|, 1 + |groups|) +
      (if left == [] then [] else PerArchLines(archs, left, Remaining(t, |archs|), 1 + |groups|)) +
        CloseLines(|groups|, 1) + [Out(0, CloseList)]
  {
    hide CommentLines, OpenLines, CommonLines, PerArchLines, CloseLines, Remaining;
  }

  lemma RowsAreNotEmpty(t: Table, archs: seq<string>, pkg: string)
    requires RowsOver(t, archs) && pkg in t
    ensures t[pkg] != map[]
  {
  }

  method SortKeys(t: Table) returns (keys: seq<string>)
    ensures SortedKeys(keys, t)
  {
    var pkgs: seq<string> := [];
    var todo := t.Keys;
    while todo != {}
      invariant todo <= t.Keys && Distinct(pkgs) && forall k :: k in pkgs <==> k in t && k !in todo
    {
      var k :| k in todo;
      pkgs, todo := pkgs + [k], todo - {k};
    }
    LexPreorder(pkgs);
    OrderSorts(pkgs, LexLe);
    keys := Apply(Order(pkgs, LexLe), pkgs);
    SortedKeysAreKeys(pkgs, Order(pkgs, LexLe), t);
  }

  lemma SortedKeysAreKeys(pkgs: seq<string>, p: seq<nat>, t: Table)
    requires IsPerm(p, |pkgs|) && SortedPositions(p, pkgs, LexLe) && Distinct(pkgs) && forall k :: k in pkgs <==> k in t
    ensures SortedKeys(Apply(p, pkgs), t)
  {
    hide Apply, LexLe;
    PermutedMembers(pkgs, p);
    PermutedOrder(pkgs, p);
    hide IsPerm, SortedPositions, Distinct;
  }

  lemma PermutedOrder(s: seq<string>, p: seq<nat>)
    requires IsPerm(p, |s|) && SortedPositions(p, s, LexLe)
    ensures forall i, j :: 0 <= i < j < |p| ==> LexLe(Apply(p, s)[i], Apply(p, s)[j])
  {
    hide LexLe;
    assert forall i :: 0 <= i < |p| ==> Apply(p, s)[i] == s[p[i]];
  }

  lemma PermutedMembers(s: seq<string>, p: seq<nat>)
    requires IsPerm(p, |s|) && Distinct(s)
    ensures Distinct(Apply(p, s)) && forall k :: k in Apply(p, s) <==> k in s
  {
    hide Apply;
    forall k | k in s ensures k in Apply(p, s) {
      var j :| 0 <= j < |s| && s[j] == k;
      var i := PermHits(p, |s|, j);
      assert Apply(p, s)[i] == k;
    }
    forall i, j | 0 <= i < j < |p| ensures s[p[i]] != s[p[j]] {
      if p[i] < p[j] { assert s[p[i]] != s[p[j]]; } else { assert s[p[j]] != s[p[i]]; }
    }
  }

  lemma CoalescedVersion(row: map<string, string>, n: nat, arch: string)
    requires Coalesces(row, n) && arch in row
    ensures row[arch] == SomeVersion(row)
  {
  }

  lemma NothingCollected(archs: seq<string>, matches: string -> bool, compare: Compare)
    ensures Collected(map[], [], archs, matches, compare)
  {
  }

  lemma RowsOfCollected(t: Table, obs: seq<Observation>, archs: seq<string>, matches: string -> bool, compare: Compare)
    requires Collected(t, obs, archs, matches, compare)
    ensures RowsOver(t, archs)
  {
  }

  lemma FilteredIsCollected(t: Table, obs: seq<Observation>, archs: seq<string>, matches: string -> bool,
                            compare: Compare)
    requires Collected(t, obs, archs, matches, compare)
    ensures Collected(map pkg | pkg in t && matches(pkg) :: t[pkg], obs, archs, matches, compare)
  {
    hide NewestOf;
    var u: Table := map pkg | pkg in t && matches(pkg) :: t[pkg];
    assert forall pkg :: matches(pkg) ==> RowOf(u, pkg) == RowOf(t, pkg);
  }
}
