/** The migration tool that nests package sources in groups (tools/upgrade/1.2). */
module PlaceSource {
  import opened Common
  import opened XmlTree

  predicate IsGroup(x: Xml, name: string)
  {
    x.tag == "Group" && "name" in x.attrs && x.attrs["name"] == name
  }

  function NewGroup(name: string): Xml
  {
    Elem("Group", None, map["name" := name], [])
  }

  /** The position, from k on, of the first child that is a group of the given name; |cs| if there is none. */
  function FirstGroup(cs: seq<Xml>, name: string, k: nat): (i: nat)
    requires k <= |cs|
    ensures k <= i <= |cs|
    ensures i < |cs| ==> IsGroup(cs[i], name)
    ensures forall j :: k <= j < i ==> !IsGroup(cs[j], name)
    decreases |cs| - k
  {
    if k == |cs| || IsGroup(cs[k], name) then k else FirstGroup(cs, name, k + 1)
  }

  /** The first of the listed groups, from k on, that already has an element; |groups| if none has. */
  function FirstListed(cs: seq<Xml>, groups: seq<string>, k: nat): (i: nat)
    requires k <= |groups|
    ensures k <= i <= |groups|
    ensures i < |groups| ==> FirstGroup(cs, groups[i], 0) < |cs|
    ensures forall j :: k <= j < i ==> FirstGroup(cs, groups[j], 0) == |cs|
    decreases |groups| - k
  {
    if k == |groups| || FirstGroup(cs, groups[k], 0) < |cs| then k else FirstListed(cs, groups, k + 1)
  }

  /** The document with the source placed below the given groups. */
  function Place(x: Xml, source: Xml, groups: seq<string>): Xml
    decreases |groups|
  {
    if groups == [] then x.(children := x.children + [source])
    else
      var g := FirstListed(x.children, groups, 0);
      if g < |groups| then
        var c := FirstGroup(x.children, groups[g], 0);
        x.(children := x.children[c := Place(x.children[c], source, groups[..g] + groups[g + 1..])])
      else
        var last := |groups| - 1;
        x.(children := x.children + [Place(NewGroup(groups[last]), source, groups[..last])])
  }

  // ---------- what a document means to a client ----------

  /** The sources that reach a client in the given groups: those whose enclosing groups it is all in. */
  ghost function Effective(x: Xml, client: set<string>): multiset<Xml>
    decreases x, 1
  {
    if x.tag != "Group" then multiset{x}
    else if "name" in x.attrs && x.attrs["name"] in client then EffectiveIn(x.children, client)
    else multiset{}
  }

  ghost function EffectiveIn(cs: seq<Xml>, client: set<string>): multiset<Xml>
    decreases cs, 0
  {
    if cs == [] then multiset{} else Effective(cs[0], client) + EffectiveIn(cs[1..], client)
  }

  lemma {:induction false} EffectiveOfConcat(cs: seq<Xml>, ds: seq<Xml>, client: set<string>)
    ensures EffectiveIn(cs + ds, client) == EffectiveIn(cs, client) + EffectiveIn(ds, client)
    decreases |cs|
  {
    if cs == [] {
      assert cs + ds == ds;
    } else {
      assert (cs + ds)[1..] == cs[1..] + ds;
      EffectiveOfConcat(cs[1..], ds, client);
    }
  }

  lemma EffectiveOfOne(c: Xml, client: set<string>)
    ensures EffectiveIn([c], client) == Effective(c, client)
  {
    assert [c][1..] == [];
  }

  lemma EffectiveOfUpdate(cs: seq<Xml>, k: nat, c: Xml, client: set<string>)
    requires k < |cs|
    ensures EffectiveIn(cs[k := c], client) + Effective(cs[k], client) == EffectiveIn(cs, client) + Effective(c, client)
  {
    forall d: Xml ensures EffectiveIn(cs[k := d], client) ==
      EffectiveIn(cs[..k], client) + Effective(d, client) + EffectiveIn(cs[k + 1..], client)
    {
      assert cs[k := d] == cs[..k] + [d] + cs[k + 1..];
      EffectiveOfConcat(cs[..k] + [d], cs[k + 1..], client);
      EffectiveOfConcat(cs[..k], [d], client);
      EffectiveOfOne(d, client);
    }
    assert cs[k := cs[k]] == cs;
  }

  ghost predicate AllIn(groups: seq<string>, client: set<string>)
  {
    forall g :: g in groups ==> g in client
  }

  /** One more source for exactly the clients in all its groups; every other source reaches whom it reached. */
  lemma {:induction false} PlacePreservesMeaning(x: Xml, source: Xml, groups: seq<string>, client: set<string>)
    requires source.tag != "Group"
    ensures EffectiveIn(Place(x, source, groups).children, client) ==
      EffectiveIn(x.children, client) + if AllIn(groups, client) then multiset{source} else multiset{}
    decreases |groups|
  {
    if groups == [] {
      EffectiveOfConcat(x.children, [source], client);
      EffectiveOfOne(source, client);
    } else {
      var g := FirstListed(x.children, groups, 0);
      var name := groups[if g < |groups| then g else |groups| - 1];
      var rest := if g < |groups| then groups[..g] + groups[g + 1..] else groups[..|groups| - 1];
      AllInWithout(groups, if g < |groups| then g else |groups| - 1, client);
      var c := FirstGroup(x.children, name, 0);
      var old_ := if g < |groups| then x.children[c] else NewGroup(name);
      PlacePreservesMeaning(old_, source, rest, client);
      PlaceKeepsHead(old_, source, rest);
      PlaceSplits(x, source, groups, g, c, old_, rest);
      hide Place;
      GroupGrows(x, old_, Place(old_, source, rest), c, g < |groups|, name, client,
                 if AllIn(rest, client) then multiset{source} else multiset{});
    }
  }

  lemma PlaceSplits(x: Xml, source: Xml, groups: seq<string>, g: nat, c: nat, group: Xml, rest: seq<string>)
    requires groups != [] && g == FirstListed(x.children, groups, 0)
    requires g < |groups| ==> c == FirstGroup(x.children, groups[g], 0) && group == x.children[c]
    requires g < |groups| ==> rest == groups[..g] + groups[g + 1..]
    requires g == |groups| ==> group == NewGroup(groups[g - 1]) && rest == groups[..g - 1]
    ensures Place(x, source, groups) == x.(children := Place(x, source, groups).children)
    ensures Place(x, source, groups).children ==
      if g < |groups| then x.children[c := Place(group, source, rest)] else x.children + [Place(group, source, rest)]
  {
    hide IsGroup, NewGroup, FirstListed, FirstGroup;
  }

  lemma AllInWithout(groups: seq<string>, g: nat, client: set<string>)
    requires g < |groups|
    ensures AllIn(groups, client) <==> groups[g] in client && AllIn(groups[..g] + groups[g + 1..], client)
  {
    assert groups == groups[..g] + [groups[g]] + groups[g + 1..];
    assert groups[..g] + groups[g + 1..] == if g == |groups| - 1 then groups[..g] else groups[..g] + groups[g + 1..];
  }

  /** What a group gains, its parent gains for the clients in that group. */
  lemma GroupGrows(x: Xml, group: Xml, grown: Xml, c: nat, present: bool, name: string, client: set<string>,
                   gain: multiset<Xml>)
    requires IsGroup(group, name) && grown == group.(children := grown.children)
    requires EffectiveIn(grown.children, client) == EffectiveIn(group.children, client) + gain
    requires if present then c < |x.children| && group == x.children[c] else group.children == []
    ensures EffectiveIn(if present then x.children[c := grown] else x.children + [grown], client) ==
      EffectiveIn(x.children, client) + if name in client then gain else multiset{}
  {
    var s := if name in client then gain else multiset{};
    assert Effective(grown, client) == Effective(group, client) + s;
    hide Effective, EffectiveIn;
    if present {
      EffectiveOfUpdate(x.children, c, grown, client);
      Cancel(EffectiveIn(x.children, client), EffectiveIn(x.children[c := grown], client), Effective(group, client),
        Effective(grown, client), s);
    } else {
      EffectiveOfConcat(x.children, [grown], client);
      EffectiveOfOne(grown, client);
      EffectiveOfNewGroup(group, client);
    }
  }

  lemma EffectiveOfNewGroup(group: Xml, client: set<string>)
    requires group.tag == "Group" && group.children == []
    ensures Effective(group, client) == multiset{}
  {
  }

  lemma Cancel(a: multiset<Xml>, b: multiset<Xml>, e: multiset<Xml>, f: multiset<Xml>, s: multiset<Xml>)
    requires b + e == a + f && f == e + s
    ensures b == a + s
  {
    forall v ensures b[v] == (a + s)[v] {
      assert (b + e)[v] == (a + f)[v] && f[v] == (e + s)[v];
    }
  }

  lemma PlaceKeepsHead(x: Xml, source: Xml, groups: seq<string>)
    ensures Place(x, source, groups) == x.(children := Place(x, source, groups).children)
  {
  }

  // ---------- existing groups are reused ----------

  /** No two groups of the same name are siblings, at any level. */
  ghost predicate GroupsUnique(x: Xml)
  {
    && (forall i, j, name :: 0 <= i < j < |x.children| && IsGroup(x.children[i], name) ==>
          !IsGroup(x.children[j], name))
    && (forall i :: 0 <= i < |x.children| && x.children[i].tag == "Group" ==> GroupsUnique(x.children[i]))
  }

  /** A group that exists is never given a second element. */
  lemma {:induction false} PlaceReusesGroups(x: Xml, source: Xml, groups: seq<string>)
    requires source.tag != "Group" && GroupsUnique(x)
    ensures GroupsUnique(Place(x, source, groups))
    decreases |groups|
  {
    if groups == [] {
      AddedSourceStaysUnique(x, source);
    } else {
      var g := FirstListed(x.children, groups, 0);
      var last := |groups| - 1;
      var name := groups[if g < |groups| then g else last];
      var rest := if g < |groups| then groups[..g] + groups[g + 1..] else groups[..last];
      var c := FirstGroup(x.children, name, 0);
      var group := if g < |groups| then x.children[c] else NewGroup(name);
      PlaceSplits(x, source, groups, g, c, group, rest);
      PlaceKeepsHead(group, source, rest);
      PlaceReusesGroups(group, source, rest);
      hide Place;
      if g < |groups| {
        ReplacedGroupStaysUnique(x, c, Place(group, source, rest));
      } else {
        AddedGroupStaysUnique(x, Place(group, source, rest), name);
      }
    }
  }

  lemma AddedSourceStaysUnique(x: Xml, source: Xml)
    requires GroupsUnique(x) && source.tag != "Group"
    ensures GroupsUnique(x.(children := x.children + [source]))
  {
    var y := x.(children := x.children + [source]);
    assert forall i :: 0 <= i < |x.children| ==> y.children[i] == x.children[i];
  }

  lemma ReplacedGroupStaysUnique(x: Xml, c: nat, d: Xml)
    requires GroupsUnique(x) && c < |x.children| && GroupsUnique(d) && d == x.children[c].(children := d.children)
    ensures GroupsUnique(x.(children := x.children[c := d]))
  {
    assert forall name :: IsGroup(d, name) <==> IsGroup(x.children[c], name);
  }

  lemma AddedGroupStaysUnique(x: Xml, d: Xml, name: string)
    requires GroupsUnique(x) && GroupsUnique(d) && IsGroup(d, name)
    requires forall j :: 0 <= j < |x.children| ==> !IsGroup(x.children[j], name)
    ensures GroupsUnique(x.(children := x.children + [d]))
  {
    var y := x.(children := x.children + [d]);
    assert forall i :: 0 <= i < |x.children| ==> y.children[i] == x.children[i];
  }

  // ---------- the whole migration of one file ----------

  datatype Item = Item(source: Xml, groups: seq<string>)

  function PlaceAll(x: Xml, items: seq<Item>): Xml
    decreases |items|
  {
    if items == [] then x
    else
      var last := items[|items| - 1];
      Place(PlaceAll(x, items[..|items| - 1]), last.source, last.groups)
  }

  ghost function Reaching(items: seq<Item>, client: set<string>): multiset<Xml>
  {
    if items == [] then multiset{}
    else
      var last := items[|items| - 1];
      Reaching(items[..|items| - 1], client) + if AllIn(last.groups, client) then multiset{last.source} else multiset{}
  }

  /** The new file gives every client the sources whose groups it is in, as often as the old file listed them. */
  lemma {:induction false} MigrationPreservesMeaning(items: seq<Item>, client: set<string>)
    requires forall i :: 0 <= i < |items| ==> items[i].source.tag != "Group"
    ensures var new_ := PlaceAll(Elem("Sources", None, map[], []), items);
      EffectiveIn(new_.children, client) == Reaching(items, client) && GroupsUnique(new_)
    decreases |items|
  {
    if items != [] {
      var front, last := items[..|items| - 1], items[|items| - 1];
      MigrationPreservesMeaning(front, client);
      var x := PlaceAll(Elem("Sources", None, map[], []), front);
      PlacePreservesMeaning(x, last.source, last.groups, client);
      PlaceReusesGroups(x, last.source, last.groups);
    }
  }

  // ---------- the in-place program ----------

  /** A Python list of group names. */
  class GroupList {
    var items: seq<string>

    constructor (items: seq<string>)
      ensures this.items == items
    {
      this.items := items;
    }

    /** list.pop() */
    method Pop() returns (g: string)
      requires items != []
      modifies this
      ensures items == old(items)[..|old(items)| - 1] && g == old(items)[|old(items)| - 1]
    {
      g := items[|items| - 1];
      items := items[..|items| - 1];
    }

    /** list.remove(g): the first occurrence goes. */
    method Remove(g: string)
      requires g in items
      modifies this
      ensures exists i | 0 <= i < |old(items)| && old(items)[i] == g ::
                g !in old(items)[..i] && items == old(items)[..i] + old(items)[i + 1..]
    {
      var i := 0;
      while items[i] != g
        invariant 0 <= i < |items| && g !in items[..i]
        decreases |items| - i
      {
        i := i + 1;
      }
      items := items[..i] + items[i + 1..];
    }
  }

  /** `xdata.xpath("Group[@name='...']")`, as the position of the first match. */
  method FindGroup(xdata: Element, name: string) returns (r: nat)
    requires xdata.Valid()
    ensures r == FirstGroup(xdata.model.children, name, 0)
  {
    r := 0;
    while r < |xdata.children| &&
          !(xdata.children[r].tag == "Group" && "name" in xdata.children[r].attrs &&
            xdata.children[r].attrs["name"] == name)
      invariant r <= |xdata.children|
      invariant FirstGroup(xdata.model.children, name, 0) == FirstGroup(xdata.model.children, name, r)
    {
      assert xdata.model.children[r] == xdata.children[r].model && xdata.children[r].Valid();
      r := r + 1;
    }
    if r < |xdata.children| {
      assert xdata.model.children[r] == xdata.children[r].model && xdata.children[r].Valid();
    }
  }

  /** The loop over the groups, up to the first that the document already has. */
  method FindListed(xdata: Element, listed: seq<string>) returns (g: nat, c: nat)
    requires xdata.Valid()
    ensures g == FirstListed(xdata.model.children, listed, 0)
    ensures g < |listed| ==> c == FirstGroup(xdata.model.children, listed[g], 0) && listed[g] !in listed[..g]
  {
    hide FirstGroup;
    g, c := 0, 0;
    while g < |listed|
      invariant g <= |listed|
      invariant FirstListed(xdata.model.children, listed, 0) == FirstListed(xdata.model.children, listed, g)
    {
      c := FindGroup(xdata, listed[g]);
      if c < |xdata.children| {
        assert forall j :: 0 <= j < g ==> FirstGroup(xdata.model.children, listed[j], 0) == |xdata.model.children|;
        return;
      }
      g := g + 1;
    }
  }

  /** Puts the source into the document and uses up the list of groups. */
  method PlaceSource(xdata: Element, source: Element, groups: GroupList)
    requires xdata.Valid() && source.Valid() && xdata.repr !! source.repr
    modifies xdata.repr, groups
    ensures xdata.Valid() && source.Valid() && source.model == old(source.model)
    ensures xdata.repr >= old(xdata.repr) && fresh(xdata.repr - old(xdata.repr) - source.repr)
    ensures xdata.model == Place(old(xdata.model), source.model, old(groups.items))
    ensures groups.items == []
    decreases |groups.items|, 1
  {
    if groups.items == [] {
      xdata.Append(source);
    } else {
      PlaceInGroups(xdata, source, groups);
    }
  }

  /** With names left: the source goes below the first of them that has a group here, or into a new group. */
  method PlaceInGroups(xdata: Element, source: Element, groups: GroupList)
    requires groups.items != []
    requires xdata.Valid() && source.Valid() && xdata.repr !! source.repr
    modifies xdata.repr, groups
    ensures xdata.Valid() && source.Valid() && source.model == old(source.model)
    ensures xdata.repr >= old(xdata.repr) && fresh(xdata.repr - old(xdata.repr) - source.repr)
    ensures xdata.model == Place(old(xdata.model), source.model, old(groups.items))
    ensures groups.items == []
    decreases |groups.items|, 0
  {
    hide Place, FirstGroup, FirstListed;
    var listed := groups.items;
    ghost var before := xdata.model;
    var g, c := FindListed(xdata, listed);
    if g < |listed| {
      PlaceSplits(before, source.model, listed, g, c, before.children[c], listed[..g] + listed[g + 1..]);
      groups.Remove(listed[g]);
      PlaceBelow(xdata, c, source, groups);
      return;
    }
    PlaceSplits(before, source.model, listed, |listed|, 0, NewGroup(listed[|listed| - 1]), listed[..|listed| - 1]);
    var name := groups.Pop();
    PlaceInNewGroup(xdata, name, source, groups);
  }

  /** Appends a group to the document with the source in it, below the remaining groups. */
  method PlaceInNewGroup(xdata: Element, name: string, source: Element, groups: GroupList)
    requires xdata.Valid() && source.Valid() && xdata.repr !! source.repr
    modifies xdata, groups
    ensures xdata.Valid() && source.Valid() && source.model == old(source.model)
    ensures xdata.repr >= old(xdata.repr) && fresh(xdata.repr - old(xdata.repr) - source.repr)
    ensures xdata.model == old(xdata.model).(children :=
      old(xdata.model.children) + [Place(NewGroup(name), source.model, old(groups.items))])
    ensures groups.items == []
    decreases |groups.items|, 2
  {
    hide Place;
    var group := new Element("Group", None, map["name" := name]);
    PlaceSource(group, source, groups);
    xdata.Append(group);
  }

  /** `xdata.replace(match, place_source(match, ...))`: the group is its own replacement. */
  method PlaceBelow(xdata: Element, c: nat, source: Element, groups: GroupList)
    requires xdata.Valid() && source.Valid() && xdata.repr !! source.repr && c < |xdata.children|
    modifies xdata.repr, groups
    ensures xdata.Valid() && source.Valid() && source.model == old(source.model)
    ensures xdata.repr >= old(xdata.repr) && fresh(xdata.repr - old(xdata.repr) - source.repr)
    ensures xdata.model == old(xdata.model).(children :=
      old(xdata.model.children)[c := Place(old(xdata.model.children)[c], source.model, old(groups.items))])
    ensures groups.items == []
    decreases |groups.items|, 2
  {
    hide Place;
    var cs := xdata.children;
    var group := cs[c];
    PlaceSource(group, source, groups);
    forall k | 0 <= k < |cs| && k != c
      ensures cs[k].Valid() && unchanged(cs[k]) && cs[k].repr !! group.repr
    {
      assert old(cs[k].Valid()) && old(cs[k].repr !! group.repr);
      assert unchanged(cs[k].repr);
    }
    xdata.children := cs[c := group];
    xdata.model := xdata.model.(children := xdata.model.children[c := group.model]);
    xdata.repr := xdata.repr + group.repr;
  }
}
