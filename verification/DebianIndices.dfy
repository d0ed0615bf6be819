/** What is seen of the package indices, told by their lines instead of by how they are read. */
module DebianIndices {
  import opened Common
  import opened DebianPkglist

  /** An architecture is listed from its own sources, and from the common ones unless it has special ones. */
  predicate Admits(url: SourceUrl, arch: string, special: set<string>)
  {
    if url.arch == "all" then arch !in special else url.arch == arch
  }

  /** The package that the last package line before position i names; `name` if there is none. */
  function NameBefore(name: Option<string>, lines: seq<Line>, i: nat): Option<string>
    requires i <= |lines|
  {
    if i == 0 then name
    else if lines[i - 1].PackageLine? then Some(lines[i - 1].name) else NameBefore(name, lines, i - 1)
  }

  /** The lines have this version for this package. */
  ghost predicate Says(name: Option<string>, lines: seq<Line>, o: Observation)
  {
    exists i :: 0 <= i < |lines| && lines[i] == VersionLine(o.version) && NameBefore(name, lines, i) == Some(o.pkg)
  }

  lemma {:induction false} NameBeforeRest(name: Option<string>, lines: seq<Line>, i: nat)
    requires 0 < i <= |lines|
    ensures NameBefore(name, lines, i) ==
      NameBefore(if lines[0].PackageLine? then Some(lines[0].name) else name, lines[1..], i - 1)
  {
    if i > 1 { NameBeforeRest(name, lines, i - 1); }
  }

  lemma SaysFirst(name: Option<string>, lines: seq<Line>, o: Observation)
    requires lines != []
    ensures var next := if lines[0].PackageLine? then Some(lines[0].name) else name;
      Says(name, lines, o) <==>
        ((lines[0] == VersionLine(o.version) && name == Some(o.pkg)) || Says(next, lines[1..], o))
  {
    var next := if lines[0].PackageLine? then Some(lines[0].name) else name;
    if Says(name, lines, o) {
      var i :| 0 <= i < |lines| && lines[i] == VersionLine(o.version) && NameBefore(name, lines, i) == Some(o.pkg);
      if i > 0 {
        NameBeforeRest(name, lines, i);
        assert lines[1..][i - 1] == lines[i];
      }
    }
    if Says(next, lines[1..], o) {
      var i :| 0 <= i < |lines[1..]| && lines[1..][i] == VersionLine(o.version) &&
        NameBefore(next, lines[1..], i) == Some(o.pkg);
      NameBeforeRest(name, lines, i + 1);
      assert lines[i + 1] == VersionLine(o.version);
    }
    if lines[0] == VersionLine(o.version) && name == Some(o.pkg) {
      assert NameBefore(name, lines, 0) == Some(o.pkg);
    }
  }

  /**
   Reading an index adds exactly what its lines say, a version before any package line being
   for the package so far.
   */
  lemma {:induction false} LinesAdd(p: Progress, arch: string, lines: seq<Line>)
    requires ObserveLines(p, arch, lines).Ok?
    ensures forall o :: o in ObserveLines(p, arch, lines).value.obs <==>
      o in p.obs || (o.arch == arch && Says(p.name, lines, o))
    decreases |lines|
  {
    if lines != [] {
      var q := ObserveLine(p, arch, lines[0]).value;
      LinesAdd(q, arch, lines[1..]);
      hide Says;
      forall o ensures Says(p.name, lines, o) <==>
        ((lines[0] == VersionLine(o.version) && p.name == Some(o.pkg)) || Says(q.name, lines[1..], o))
      {
        SaysFirst(p.name, lines, o);
      }
    }
  }

  /** An index: its architecture and lines. */
  type Index = (string, seq<Line>)

  /** Some index says this, given some package before. */
  ghost predicate MayStem(o: Observation, indices: set<Index>)
  {
    exists x: Index, name :: x in indices && o.arch == x.0 && Says(name, x.1, o)
  }

  /** Nothing is lost, everything new is said by some index, and all is seen that an index says on its own. */
  ghost predicate Adds(before: seq<Observation>, after: seq<Observation>, indices: set<Index>)
  {
    && (forall o :: o in before ==> o in after)
    && (forall o :: o in after ==> o in before || MayStem(o, indices))
    && (forall x: Index, o: Observation :: x in indices && o.arch == x.0 && Says(None, x.1, o) ==> o in after)
  }

  lemma AddsTwice(a: seq<Observation>, b: seq<Observation>, c: seq<Observation>, s: set<Index>, t: set<Index>)
    requires Adds(a, b, s) && Adds(b, c, t)
    ensures Adds(a, c, s + t)
  {
    hide Says;
    forall o ensures MayStem(o, s) || MayStem(o, t) ==> MayStem(o, s + t) {
      if MayStem(o, s) { var x, name :| x in s && o.arch == x.0 && Says(name, x.1, o); }
      if MayStem(o, t) { var x, name :| x in t && o.arch == x.0 && Says(name, x.1, o); }
    }
    hide MayStem;
  }

  lemma {:induction false} SaysAnyway(name: Option<string>, lines: seq<Line>, o: Observation)
    requires Says(None, lines, o)
    ensures Says(name, lines, o)
  {
    var i :| 0 <= i < |lines| && lines[i] == VersionLine(o.version) && NameBefore(None, lines, i) == Some(o.pkg);
    NameAnyway(name, lines, i);
  }

  lemma {:induction false} NameAnyway(name: Option<string>, lines: seq<Line>, i: nat)
    requires i <= |lines| && NameBefore(None, lines, i).Some?
    ensures NameBefore(name, lines, i) == NameBefore(None, lines, i)
  {
    if i > 0 && !lines[i - 1].PackageLine? { NameAnyway(name, lines, i - 1); }
  }

  lemma ArchAdds(p: Progress, url: SourceUrl, special: set<string>, section: map<string, seq<Line>>, arch: string)
    requires ObserveArch(p, url, special, section, arch).Ok?
    ensures Adds(p.obs, ObserveArch(p, url, special, section, arch).value.obs,
      SectionIndices(url, special, section, [arch]))
  {
    hide ObserveLines, Says;
    if Admits(url, arch, special) {
      LinesAdd(p, arch, section[arch]);
      assert SectionIndices(url, special, section, [arch]) == {(arch, section[arch])};
      forall o | Says(None, section[arch], o) ensures Says(p.name, section[arch], o) {
        SaysAnyway(p.name, section[arch], o);
      }
    } else {
      assert SectionIndices(url, special, section, [arch]) == {};
    }
  }

  /** The indices of a section that are read. */
  ghost function SectionIndices(url: SourceUrl, special: set<string>, section: map<string, seq<Line>>,
                                archs: seq<string>): set<Index>
  {
    set arch | arch in archs && Admits(url, arch, special) && arch in section :: (arch, section[arch])
  }

  lemma {:induction false} SectionAdds(p: Progress, url: SourceUrl, special: set<string>,
                                       section: map<string, seq<Line>>, archs: seq<string>)
    requires ObserveSection(p, url, special, section, archs).Ok?
    ensures Adds(p.obs, ObserveSection(p, url, special, section, archs).value.obs,
      SectionIndices(url, special, section, archs))
    decreases |archs|
  {
    hide Adds, ObserveArch, Admits;
    if archs == [] {
      NothingAdded(p.obs);
      assert SectionIndices(url, special, section, []) == {};
    } else {
      var q := ObserveArch(p, url, special, section, archs[0]).value;
      ArchAdds(p, url, special, section, archs[0]);
      SectionAdds(q, url, special, section, archs[1..]);
      AddsTwice(p.obs, q.obs, ObserveSection(q, url, special, section, archs[1..]).value.obs,
        SectionIndices(url, special, section, [archs[0]]), SectionIndices(url, special, section, archs[1..]));
      assert SectionIndices(url, special, section, archs) ==
        SectionIndices(url, special, section, [archs[0]]) + SectionIndices(url, special, section, archs[1..]) by {
        assert forall a :: a in archs <==> a == archs[0] || a in archs[1..];
      }
    }
  }

  lemma NothingAdded(obs: seq<Observation>)
    ensures Adds(obs, obs, {})
  {
  }

  ghost function UrlIndices(url: SourceUrl, special: set<string>, sections: seq<map<string, seq<Line>>>,
                            archs: seq<string>): set<Index>
  {
    set i, x | 0 <= i < |sections| && x in SectionIndices(url, special, sections[i], archs) :: x
  }

  lemma {:induction false} UrlAdds(p: Progress, url: SourceUrl, special: set<string>,
                                   sections: seq<map<string, seq<Line>>>, archs: seq<string>)
    requires ObserveUrl(p, url, special, sections, archs).Ok?
    ensures Adds(p.obs, ObserveUrl(p, url, special, sections, archs).value.obs,
      UrlIndices(url, special, sections, archs))
    decreases |sections|
  {
    hide Adds, ObserveSection, SectionIndices;
    if sections == [] {
      NothingAdded(p.obs);
      assert UrlIndices(url, special, [], archs) == {};
    } else {
      var q := ObserveSection(p, url, special, sections[0], archs).value;
      var rest := sections[1..];
      SectionAdds(p, url, special, sections[0], archs);
      UrlAdds(q, url, special, rest, archs);
      AddsTwice(p.obs, q.obs, ObserveUrl(q, url, special, rest, archs).value.obs,
        SectionIndices(url, special, sections[0], archs), UrlIndices(url, special, rest, archs));
      assert forall i :: 0 <= i < |rest| ==> rest[i] == sections[i + 1];
      assert UrlIndices(url, special, sections, archs) ==
        SectionIndices(url, special, sections[0], archs) + UrlIndices(url, special, rest, archs);
    }
  }

  /** The indices of all sources that are read. */
  ghost function Indices(urls: seq<SourceUrl>, special: set<string>, archs: seq<string>): set<Index>
  {
    set i, x | 0 <= i < |urls| && x in UrlIndices(urls[i], special, urls[i].sections, archs) :: x
  }

  lemma {:induction false} UrlsAdd(obs: seq<Observation>, urls: seq<SourceUrl>, special: set<string>,
                                   archs: seq<string>)
    requires ObserveUrls(obs, urls, special, archs).Ok?
    ensures Adds(obs, ObserveUrls(obs, urls, special, archs).value, Indices(urls, special, archs))
    decreases |urls|
  {
    hide Adds, ObserveUrl, UrlIndices;
    if urls == [] {
      NothingAdded(obs);
      assert Indices([], special, archs) == {};
    } else {
      var q := ObserveUrl(Progress(None, obs), urls[0], special, urls[0].sections, archs).value;
      var rest := urls[1..];
      UrlAdds(Progress(None, obs), urls[0], special, urls[0].sections, archs);
      UrlsAdd(q.obs, rest, special, archs);
      AddsTwice(obs, q.obs, ObserveUrls(q.obs, rest, special, archs).value,
        UrlIndices(urls[0], special, urls[0].sections, archs), Indices(rest, special, archs));
      assert forall i :: 0 <= i < |rest| ==> rest[i] == urls[i + 1];
      assert Indices(urls, special, archs) ==
        UrlIndices(urls[0], special, urls[0].sections, archs) + Indices(rest, special, archs);
    }
  }

  /**
   What is seen, once all sources have been read: whatever one of the indices that are to be read
   says on its own, and nothing that none of them says.
   */
  lemma SeenIsSaid(urls: seq<SourceUrl>, special: set<string>, archs: seq<string>, o: Observation)
    requires ObserveUrls([], urls, special, archs).Ok?
    ensures var obs := ObserveUrls([], urls, special, archs).value;
      && (o in obs ==> MayStem(o, Indices(urls, special, archs)))
      && (forall x :: x in Indices(urls, special, archs) && x.0 == o.arch && Says(None, x.1, o) ==> o in obs)
  {
    hide ObserveUrls, Indices, Says, MayStem;
    UrlsAdd([], urls, special, archs);
  }
}
