/** The deterministic in-place ordering of XML documents. */
module SortXml {
  import opened Common
  import opened Ordering
  import opened XmlTree

  /** A sort key read off an element's own tag and attributes; None is Python's None, which does not compare. */
  type KeyFn = (string, map<string, string>) -> Option<string>

  /** The key the server sorts client configurations by: the `name` attribute. */
  function NameKey(tag: string, attrs: map<string, string>): Option<string>
  {
    if "name" in attrs then Some(attrs["name"]) else None
  }

  /** `sorted` compares every element of a list of two or more, so one None key raises TypeError. */
  predicate Comparable(keys: seq<Option<string>>)
  {
    |keys| <= 1 || forall i :: 0 <= i < |keys| ==> keys[i].Some?
  }

  predicate KeyLe(a: Option<string>, b: Option<string>)
  {
    a.None? || (b.Some? && LexLe(a.value, b.value))
  }

  lemma KeyPreorder(keys: seq<Option<string>>)
    ensures PreorderOn(keys, KeyLe)
  {
    forall a: Option<string>, b | KeyLe(a, b) || KeyLe(b, a) || true ensures KeyLe(a, b) || KeyLe(b, a) {
      if a.Some? && b.Some? { LexTotal(a.value, b.value); }
    }
    forall a: Option<string>, b: Option<string>, c | KeyLe(a, b) && KeyLe(b, c) ensures KeyLe(a, c) {
      if a.Some? { LexTrans(a.value, b.value, c.value); }
    }
  }

  /** The positions in which siblings with these keys are left. */
  function SiblingOrder(keys: seq<Option<string>>): (p: seq<nat>)
    ensures IsPerm(p, |keys|)
  {
    if Comparable(keys) then Order(keys, KeyLe) else Identity(|keys|)
  }

  function Keys(cs: seq<Xml>, key: KeyFn): (ks: seq<Option<string>>)
    ensures |ks| == |cs| && forall i :: 0 <= i < |cs| ==> ks[i] == key(cs[i].tag, cs[i].attrs)
  {
    if cs == [] then [] else Keys(cs[..|cs| - 1], key) + [key(cs[|cs| - 1].tag, cs[|cs| - 1].attrs)]
  }

  function Sorted(x: Xml, key: KeyFn): Xml
  {
    var cs := seq(|x.children|, i requires 0 <= i < |x.children| => Sorted(x.children[i], key));
    x.(children := Apply(SiblingOrder(Keys(x.children, key)), cs))
  }

  /** The text of an element counts as it is. */
  function Exact(t: Option<string>): Option<string> { t }

  lemma ChildrenOfSorted(x: Xml, key: KeyFn) returns (p: seq<nat>)
    ensures p == SiblingOrder(Keys(x.children, key)) && IsPerm(p, |x.children|)
    ensures |Sorted(x, key).children| == |x.children|
    ensures forall i :: 0 <= i < |p| ==> Sorted(x, key).children[i] == Sorted(x.children[p[i]], key)
    ensures forall i :: 0 <= i < |p| ==> Keys(Sorted(x, key).children, key)[i] == Keys(x.children, key)[p[i]]
  {
    hide Order, Identity;
    p := SiblingOrder(Keys(x.children, key));
  }

  /** Sorting moves siblings about and does nothing else, whether or not the keys compare. */
  lemma {:induction false} OnlyPermutesSiblings(x: Xml, key: KeyFn)
    ensures Iso(Sorted(x, key), x, Exact)
  {
    hide Order, Identity;
    var y := Sorted(x, key);
    var p := ChildrenOfSorted(x, key);
    forall i | 0 <= i < |p| ensures Iso(y.children[i], x.children[p[i]], Exact) {
      OnlyPermutesSiblings(x.children[p[i]], key);
    }
    assert Pairing(y.children, x.children, p, Exact);
    IsoByPairing(y, x, p, Exact);
  }

  /** The sort puts keys in ascending order, unless they do not compare: then they are where they were. */
  lemma SiblingOrderAscends(before: seq<Option<string>>, after: seq<Option<string>>)
    requires |after| == |before| && forall i :: 0 <= i < |after| ==> after[i] == before[SiblingOrder(before)[i]]
    ensures Comparable(before) ==> Comparable(after) && Ascending(after)
    ensures !Comparable(before) ==> after == before
  {
    hide Identity, OrderUpTo;
    if Comparable(before) {
      KeyPreorder(before);
      OrderSorts(before, KeyLe);
    }
  }

  ghost predicate Ascending(ks: seq<Option<string>>)
  {
    forall i, j :: 0 <= i < j < |ks| ==> KeyLe(ks[i], ks[j])
  }

  /** Keys that ascend, or that do not compare, stay where they are: the sort is stable. */
  lemma SiblingOrderKeeps(ks: seq<Option<string>>)
    requires Comparable(ks) ==> Ascending(ks)
    ensures SiblingOrder(ks) == Identity(|ks|)
  {
    if Comparable(ks) { OrderUpToKeepsSorted(ks, KeyLe, |ks|); }
  }

  /** A sorted document stays as it is, also where the keys do not compare. */
  lemma {:induction false} SortIsIdempotent(x: Xml, key: KeyFn)
    ensures Sorted(Sorted(x, key), key) == Sorted(x, key)
  {
    hide Sorted, SiblingOrder, Comparable, Keys, Ascending;
    var y := Sorted(x, key);
    var p := ChildrenOfSorted(x, key);
    var q := ChildrenOfSorted(y, key);
    forall i | 0 <= i < |p| ensures Sorted(y.children[i], key) == y.children[i] {
      SortIsIdempotent(x.children[p[i]], key);
    }
    SiblingOrderAscends(Keys(x.children, key), Keys(y.children, key));
    SiblingOrderKeeps(Keys(y.children, key));
    SortKeepsHead(y, key);
    assert Sorted(y, key).children == y.children;
  }

  /** The children of a sorted configuration stand in the order of their names, if they all have one. */
  lemma ChildrenGoByName(x: Xml, i: nat, j: nat)
    requires forall k :: 0 <= k < |x.children| ==> "name" in x.children[k].attrs
    ensures var cs := Sorted(x, NameKey).children;
      |cs| == |x.children| && (i < j < |cs| ==>
        ("name" in cs[i].attrs && "name" in cs[j].attrs && LexLe(cs[i].attrs["name"], cs[j].attrs["name"])))
  {
    var y := Sorted(x, NameKey);
    var p := ChildrenOfSorted(x, NameKey);
    var before, after := Keys(x.children, NameKey), Keys(y.children, NameKey);
    hide Sorted, Keys, SiblingOrder, LexLe;
    SiblingOrderAscends(before, after);
    if i < j < |y.children| {
      SortKeepsHead(x.children[p[i]], NameKey);
      SortKeepsHead(x.children[p[j]], NameKey);
      assert KeyLe(after[i], after[j]);
    }
  }

  // ---------- a canonical form ----------

  /** Neither of two siblings is sorted before the other by its key. */
  predicate SameRank(keys: seq<Option<string>>, i: nat, j: nat)
    requires i < |keys| && j < |keys|
  {
    !Comparable(keys) || keys[i] == keys[j]
  }

  /** At every level, siblings that the keys do not tell apart differ in the order of siblings only. */
  ghost predicate Unambiguous(x: Xml, key: KeyFn)
  {
    && (forall i, j :: 0 <= i < j < |x.children| && SameRank(Keys(x.children, key), i, j) ==>
          Iso(x.children[i], x.children[j], Exact))
    && (forall i :: 0 <= i < |x.children| ==> Unambiguous(x.children[i], key))
  }

  lemma LastIsHighest(ks: seq<Option<string>>, k: Option<string>)
    requires Ascending(ks) && k in ks
    ensures KeyLe(k, ks[|ks| - 1]) && Ascending(ks[..|ks| - 1])
  {
    if k.Some? { LexTotal(k.value, k.value); }
  }

  lemma KeyAntisym(a: Option<string>, b: Option<string>)
    requires KeyLe(a, b) && KeyLe(b, a)
    ensures a == b
  {
    if a.Some? { LexAntisym(a.value, b.value); }
  }

  /** Two ascending lists of the same keys are the same list. */
  lemma {:induction false} AscendingListsAgree(u: seq<Option<string>>, v: seq<Option<string>>)
    requires multiset(u) == multiset(v) && Ascending(u) && Ascending(v)
    ensures u == v
  {
    hide Ascending;
    SameLength(u, v);
    if u != [] {
      var n := |u| - 1;
      LastAgree(u, v);
      FrontsAgree(u, v);
      LastIsHighest(u, u[n]);
      LastIsHighest(v, v[n]);
      AscendingListsAgree(u[..n], v[..n]);
      assert u == u[..n] + [u[n]] && v == v[..n] + [v[n]];
    }
  }

  lemma SameLength(u: seq<Option<string>>, v: seq<Option<string>>)
    requires multiset(u) == multiset(v)
    ensures |u| == |v|
  {
    assert |u| == |multiset(u)| == |multiset(v)| == |v|;
  }

  lemma LastAgree(u: seq<Option<string>>, v: seq<Option<string>>)
    requires multiset(u) == multiset(v) && |u| == |v| > 0 && Ascending(u) && Ascending(v)
    ensures u[|u| - 1] == v[|v| - 1]
  {
    hide Ascending, KeyLe;
    var a, b := u[|u| - 1], v[|v| - 1];
    assert a in multiset(v) && b in multiset(u);
    LastIsHighest(u, b);
    LastIsHighest(v, a);
    KeyAntisym(a, b);
  }

  lemma FrontsAgree(u: seq<Option<string>>, v: seq<Option<string>>)
    requires multiset(u) == multiset(v) && |u| == |v| > 0 && u[|u| - 1] == v[|v| - 1]
    ensures multiset(u[..|u| - 1]) == multiset(v[..|v| - 1])
  {
    var n := |u| - 1;
    InsertedElement(u, u[..n], n);
    InsertedElement(v, v[..n], n);
    assert multiset(u[..n]) == multiset(u) - multiset{u[n]};
    assert multiset(v[..n]) == multiset(v) - multiset{v[n]};
  }

  lemma PairedKeysAgree(cs: seq<Xml>, ds: seq<Xml>, key: KeyFn, p: seq<nat>)
    requires Pairing(cs, ds, p, Exact)
    ensures IsPerm(p, |cs|) && Keys(cs, key) == Apply(p, Keys(ds, key))
  {
    hide Apply, Keys;
  }

  /** Whether keys compare does not depend on the order they are in. */
  lemma RearrangedKeysCompareAlike(before: seq<Option<string>>, p: seq<nat>)
    requires IsPerm(p, |before|)
    ensures Comparable(Apply(p, before)) <==> Comparable(before)
  {
    hide Apply;
    if Comparable(Apply(p, before)) {
      forall v | 0 <= v < |before| && |before| > 1 ensures before[v].Some? {
        var i := PermHits(p, |before|, v);
        assert Apply(p, before)[i] == before[v];
      }
    }
  }

  /** Documents with children that pair up are sorted by the same keys. */
  lemma SortedKeysAgree(a: Xml, b: Xml, key: KeyFn, p: seq<nat>)
    requires Pairing(a.children, b.children, p, Exact)
    ensures Comparable(Keys(a.children, key)) <==> Comparable(Keys(b.children, key))
    ensures Comparable(Keys(a.children, key)) ==>
      Keys(Sorted(a, key).children, key) == Keys(Sorted(b, key).children, key)
  {
    hide Sorted, Keys, SiblingOrder, Apply, Comparable, Ascending;
    var ka, kb := Keys(a.children, key), Keys(b.children, key);
    PairedKeysAgree(a.children, b.children, key, p);
    RearrangedKeysCompareAlike(kb, p);
    var u, v := Keys(Sorted(a, key).children, key), Keys(Sorted(b, key).children, key);
    var sa := ChildrenOfSorted(a, key);
    var sb := ChildrenOfSorted(b, key);
    SiblingOrderAscends(ka, u);
    SiblingOrderAscends(kb, v);
    ApplyKeepsMultiset(p, kb);
    ApplyKeepsMultiset(sa, ka);
    ApplyKeepsMultiset(sb, kb);
    assert u == Apply(sa, ka) && v == Apply(sb, kb);
    if Comparable(ka) { AscendingListsAgree(u, v); }
  }

  /** Documents that differ in sibling order only sort to the same document, if that is unambiguous. */
  lemma {:induction false} SortIsCanonical(a: Xml, b: Xml, key: KeyFn)
    requires Unambiguous(a, key) && Iso(a, b, Exact)
    ensures Sorted(a, key) == Sorted(b, key)
    decreases a
  {
    hide Sorted, SiblingOrder, Keys, Iso, Comparable;
    var p := PairingOf(a, b, Exact);
    SortedKeysAgree(a, b, key, p);
    var sa := ChildrenOfSorted(a, key);
    var sb := ChildrenOfSorted(b, key);
    var u, v := Sorted(a, key).children, Sorted(b, key).children;
    assert |u| == |v| by { assert Iso(a, b, Exact); IsoSplits(a, b, Exact); }
    forall m | 0 <= m < |u| ensures u[m] == v[m] {
      var i := PermHits(p, |p|, sb[m]);
      SortIsCanonical(a.children[i], b.children[sb[m]], key);
      SameRankSortsAlike(a, b, key, p, m, i);
      if i != sa[m] { SortIsCanonical(a.children[i], a.children[sa[m]], key); }
    }
    SortKeepsHead(a, key);
    SortKeepsHead(b, key);
    IsoSplits(a, b, Exact);
  }

  /** The siblings that two such documents have at the same place after sorting are not told apart by their keys. */
  lemma SameRankSortsAlike(a: Xml, b: Xml, key: KeyFn, p: seq<nat>, m: nat, i: nat)
    requires Unambiguous(a, key) && Pairing(a.children, b.children, p, Exact) && m < |a.children| && i < |a.children|
    requires p[i] == SiblingOrder(Keys(b.children, key))[m]
    ensures var j := SiblingOrder(Keys(a.children, key))[m]; i != j ==> Iso(a.children[i], a.children[j], Exact)
  {
    hide SiblingOrder, Keys, Iso, Comparable;
    var j := SiblingOrder(Keys(a.children, key))[m];
    PlacesOfSameRank(a, b, key, p, m, i);
    if i < j {
      assert Iso(a.children[i], a.children[j], Exact);
    } else if j < i {
      IsoSym(a.children[j], a.children[i], Exact);
    }
  }

  lemma PlacesOfSameRank(a: Xml, b: Xml, key: KeyFn, p: seq<nat>, m: nat, i: nat)
    requires Pairing(a.children, b.children, p, Exact) && m < |a.children| && i < |a.children|
    requires p[i] == SiblingOrder(Keys(b.children, key))[m]
    ensures SameRank(Keys(a.children, key), i, SiblingOrder(Keys(a.children, key))[m])
    ensures SameRank(Keys(a.children, key), SiblingOrder(Keys(a.children, key))[m], i)
  {
    hide Sorted, SiblingOrder, Keys, Iso, Apply, Comparable;
    PairedKeysAgree(a.children, b.children, key, p);
    SortedKeysAgree(a, b, key, p);
    var sa := ChildrenOfSorted(a, key);
    var sb := ChildrenOfSorted(b, key);
    assert Keys(a.children, key)[i] == Keys(b.children, key)[sb[m]];
  }

  lemma SortKeepsHead(x: Xml, key: KeyFn)
    ensures Sorted(x, key) == x.(children := Sorted(x, key).children)
  {
  }

  /** So comparing the sorted documents decides whether two documents differ in sibling order only. */
  lemma SortDecidesIso(a: Xml, b: Xml, key: KeyFn)
    requires Unambiguous(a, key)
    ensures Sorted(a, key) == Sorted(b, key) <==> Iso(a, b, Exact)
  {
    hide Sorted, Unambiguous, Iso;
    if Iso(a, b, Exact) { SortIsCanonical(a, b, key); }
    if Sorted(a, key) == Sorted(b, key) { SortedAlikeAreIso(a, b, key); }
  }

  lemma SortedAlikeAreIso(a: Xml, b: Xml, key: KeyFn)
    requires Sorted(a, key) == Sorted(b, key)
    ensures Iso(a, b, Exact)
  {
    hide Sorted, Iso;
    OnlyPermutesSiblings(a, key);
    OnlyPermutesSiblings(b, key);
    IsoSym(Sorted(a, key), a, Exact);
    IsoTrans(a, Sorted(a, key), b, Exact);
  }

  // ---------- and when there is none ----------

  /** Replacing a child by one with the same key and another sorted form changes the sorted form. */
  lemma ReplacedChildSortsDifferently(a: Xml, b: Xml, key: KeyFn, i: nat)
    requires i < |a.children| == |b.children| && Keys(a.children, key) == Keys(b.children, key)
    requires Sorted(a.children[i], key) != Sorted(b.children[i], key)
    ensures Sorted(a, key) != Sorted(b, key)
  {
    hide Sorted, SiblingOrder, Keys;
    var sa := ChildrenOfSorted(a, key);
    var sb := ChildrenOfSorted(b, key);
    var m := PermHits(sa, |sa|, i);
    assert Sorted(a, key).children[m] != Sorted(b, key).children[m];
  }

  /** Swapping two siblings of the same rank. */
  lemma SwappedSiblings(a: Xml, key: KeyFn, i: nat, j: nat) returns (b: Xml)
    requires i < j < |a.children| && SameRank(Keys(a.children, key), i, j) && !Iso(a.children[i], a.children[j], Exact)
    ensures Iso(a, b, Exact) && Sorted(a, key) != Sorted(b, key)
  {
    hide Sorted, Iso, Keys;
    var x, y := a.children[i], a.children[j];
    b := a.(children := a.children[i := y][j := x]);
    var p := Identity(|a.children|)[i := j][j := i];
    forall k | 0 <= k < |p| ensures Iso(a.children[k], b.children[p[k]], Exact) {
      IsoRefl(a.children[k], Exact);
    }
    IsoByPairing(a, b, p, Exact);
    if Sorted(x, key) == Sorted(y, key) { SortedAlikeAreIso(x, y, key); }
    if Comparable(Keys(a.children, key)) {
      assert Keys(a.children, key) == Keys(b.children, key);
      ReplacedChildSortsDifferently(a, b, key, i);
    } else {
      PairedKeysAgree(a.children, b.children, key, p);
      RearrangedKeysCompareAlike(Keys(b.children, key), p);
      FallbackKeepsOrder(a, key);
      FallbackKeepsOrder(b, key);
      assert Sorted(a, key).children[i] != Sorted(b, key).children[i];
    }
  }

  /** An ambiguous document has a twin that differs in sibling order only and sorts differently. */
  lemma {:induction false} AmbiguousHasTwin(a: Xml, key: KeyFn) returns (b: Xml)
    requires !Unambiguous(a, key)
    ensures Iso(a, b, Exact) && Sorted(a, key) != Sorted(b, key)
  {
    hide Sorted, Iso, Keys;
    var keys := Keys(a.children, key);
    if i: nat, j: nat :| i < j < |a.children| && SameRank(keys, i, j) && !Iso(a.children[i], a.children[j], Exact) {
      b := SwappedSiblings(a, key, i, j);
    } else {
      var i :| 0 <= i < |a.children| && !Unambiguous(a.children[i], key);
      var c := AmbiguousHasTwin(a.children[i], key);
      b := a.(children := a.children[i := c]);
      var p := Identity(|a.children|);
      forall k | 0 <= k < |p| ensures Iso(a.children[k], b.children[p[k]], Exact) {
        IsoRefl(a.children[k], Exact);
      }
      IsoByPairing(a, b, p, Exact);
      IsoSplits(a.children[i], c, Exact);
      assert Keys(a.children, key) == Keys(b.children, key);
      ReplacedChildSortsDifferently(a, b, key, i);
    }
  }

  /** The sorted form is canonical exactly for unambiguous documents. */
  lemma SortIsCanonicalExactly(a: Xml, key: KeyFn)
    ensures Unambiguous(a, key) <==> forall b :: Iso(a, b, Exact) ==> Sorted(a, key) == Sorted(b, key)
  {
    hide Sorted, Iso, Unambiguous;
    if Unambiguous(a, key) {
      forall b | Iso(a, b, Exact) ensures Sorted(a, key) == Sorted(b, key) { SortIsCanonical(a, b, key); }
    } else {
      var b := AmbiguousHasTwin(a, key);
    }
  }

  /** At every level the siblings have keys that compare and differ. */
  ghost predicate WellKeyed(x: Xml, key: KeyFn)
  {
    && Comparable(Keys(x.children, key)) && Distinct(Keys(x.children, key))
    && forall i :: 0 <= i < |x.children| ==> WellKeyed(x.children[i], key)
  }

  /** In particular for documents whose siblings have distinct comparable keys. */
  lemma {:induction false} WellKeyedIsUnambiguous(x: Xml, key: KeyFn)
    requires WellKeyed(x, key)
    ensures Unambiguous(x, key)
  {
    hide Keys, Iso;
    forall i | 0 <= i < |x.children| ensures Unambiguous(x.children[i], key) {
      WellKeyedIsUnambiguous(x.children[i], key);
    }
  }

  /** Where the keys do not compare, the TypeError leaves siblings in document order. */
  lemma FallbackKeepsOrder(x: Xml, key: KeyFn)
    requires !Comparable(Keys(x.children, key))
    ensures |Sorted(x, key).children| == |x.children|
    ensures forall i :: 0 <= i < |x.children| ==> Sorted(x, key).children[i] == Sorted(x.children[i], key)
  {
    hide Sorted, Identity;
    var p := ChildrenOfSorted(x, key);
  }

  /** So without keys that compare there is no canonical form: two nameless siblings stay in either order. */
  lemma NamelessSiblingsKeepTheirOrder(x: Xml, y: Xml)
    requires x.tag != y.tag && "name" !in x.attrs
    ensures var a, b := Elem("Bundle", None, map[], [x, y]), Elem("Bundle", None, map[], [y, x]);
      Iso(a, b, Exact) && Sorted(a, NameKey) != Sorted(b, NameKey)
  {
    hide Sorted, SiblingOrder, Iso;
    var a, b := Elem("Bundle", None, map[], [x, y]), Elem("Bundle", None, map[], [y, x]);
    IsoRefl(x, Exact);
    IsoRefl(y, Exact);
    assert Pairing(a.children, b.children, [1, 0], Exact);
    IsoByPairing(a, b, [1, 0], Exact);
    assert Keys(a.children, NameKey)[0].None? && Keys(b.children, NameKey)[1].None?;
    FallbackKeepsOrder(a, NameKey);
    FallbackKeepsOrder(b, NameKey);
    SortKeepsHead(x, NameKey);
    SortKeepsHead(y, NameKey);
  }

  // ---------- the in-place program ----------

  /** Sorts the document below node in place, depth first; node keeps its elements and its validity. */
  method SortXml(node: Element, key: KeyFn)
    requires node.Valid()
    modifies node.repr
    ensures node.Valid() && node.repr == old(node.repr)
    ensures node.model == Sorted(old(node.model), key)
    decreases node.repr, 1
  {
    hide Sorted, SiblingOrder, Keys;
    ghost var before := node.model;
    forall i | 0 <= i < |node.children|
      ensures before.children[i] == node.children[i].model
      ensures before.children[i].tag == node.children[i].tag && before.children[i].attrs == node.children[i].attrs
    {
      assert node.children[i].Valid();
    }
    var keys := SortChildren(node, key);
    SameKeys(before.children, keys, key);
    ghost var q := ChildrenOfSorted(before, key);
    SortKeepsHead(before, key);
    node.Rearrange(SiblingOrder(keys), Sorted(before, key));
  }

  lemma SameKeys(cs: seq<Xml>, keys: seq<Option<string>>, key: KeyFn)
    requires |keys| == |cs| && forall i :: 0 <= i < |cs| ==> keys[i] == key(cs[i].tag, cs[i].attrs)
    ensures keys == Keys(cs, key)
  {
  }

  /** The loop over the children, and the keys that `sorted` then asks for. */
  method SortChildren(node: Element, key: KeyFn) returns (keys: seq<Option<string>>)
    requires node.Valid()
    modifies node.repr - {node}
    ensures node.Shape() && |keys| == |node.children|
    ensures forall i :: 0 <= i < |node.children| ==>
      node.children[i].model == Sorted(old(node.children[i].model), key) &&
      keys[i] == key(node.children[i].tag, node.children[i].attrs)
    decreases node.repr, 0
  {
    hide Sorted;
    keys := [];
    ghost var cs := node.children;
    for i := 0 to |node.children|
      invariant node.Shape() && node.children == cs
      invariant forall k :: 0 <= k < i ==> cs[k].model == Sorted(old(cs[k].model), key)
      invariant forall k :: i <= k < |cs| ==> cs[k].model == old(cs[k].model)
      invariant |keys| == i && forall k :: 0 <= k < i ==> keys[k] == key(cs[k].tag, cs[k].attrs)
    {
      label Before:
      ghost var below := node.children[i].repr;
      SortXml(node.children[i], key);
      assert node.children == cs && cs[i].repr == below;
      forall k | 0 <= k < |cs| && k != i
        ensures cs[k].Valid() && cs[k].model == old@Before(cs[k].model) && cs[k].repr == old@Before(cs[k].repr)
      {
        assert old@Before(cs[k].Valid()) && old@Before(cs[k].repr) !! below;
        assert unchanged@Before(cs[k]);
        assert unchanged@Before(cs[k].repr);
      }
      keys := keys + [key(node.children[i].tag, node.children[i].attrs)];
    }
  }
}
