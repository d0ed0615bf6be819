/** The unordered comparison of XML trees that the test suite relies on. */
module XmlEqual {
  import opened Common
  import opened Ordering
  import opened XmlTree

  /** The characters that Python's `str.strip` removes. */
  predicate IsSpace(c: char)
  {
    var k := c as int;
    9 <= k <= 13 || 28 <= k <= 32 || k == 133 || k == 160 || k == 5760 || 8192 <= k <= 8202 ||
    k == 8232 || k == 8233 || k == 8239 || k == 8287 || k == 12288
  }

  function Strip(s: string): string
  {
    if s == [] then s
    else if IsSpace(s[0]) then Strip(s[1..])
    else if IsSpace(s[|s| - 1]) then Strip(s[..|s| - 1])
    else s
  }

  /** Absent text equals only absent text; other text is compared stripped. */
  function Stripped(t: Option<string>): Option<string>
  {
    match t
    case None => None
    case Some(s) => Some(Strip(s))
  }

  /** Stripping takes the spaces off both ends, and nothing else. */
  lemma {:induction false} StripTrims(s: string) returns (i: nat, j: nat)
    ensures i <= j <= |s| && Strip(s) == s[i..j]
    ensures forall k :: 0 <= k < i || j <= k < |s| ==> IsSpace(s[k])
    ensures i < j ==> !IsSpace(s[i]) && !IsSpace(s[j - 1])
    decreases |s|
  {
    hide IsSpace;
    if s == [] {
      i, j := 0, 0;
    } else if IsSpace(s[0]) {
      i, j := StripTrims(s[1..]);
      assert s[1..][i..j] == s[i + 1..j + 1];
      assert forall k :: 1 <= k < |s| ==> s[k] == s[1..][k - 1];
      i, j := i + 1, j + 1;
    } else if IsSpace(s[|s| - 1]) {
      i, j := StripTrims(s[..|s| - 1]);
      assert s[..|s| - 1][i..j] == s[i..j];
      assert forall k :: 0 <= k < |s| - 1 ==> s[k] == s[..|s| - 1][k];
    } else {
      i, j := 0, |s|;
    }
  }

  /** All the white space of Unicode, and the separators of ASCII. */
  const SPACES := " \t\n\r\U{0B}\U{0C}\U{1C}\U{1D}\U{1E}\U{1F}\U{85}\U{A0}\U{1680}\U{2000}\U{2001}\U{2002}\U{2003}" +
    "\U{2004}\U{2005}\U{2006}\U{2007}\U{2008}\U{2009}\U{200A}\U{2028}\U{2029}\U{202F}\U{205F}\U{3000}"

  lemma SpacesAre(c: char)
    ensures IsSpace(c) <==> c in SPACES
    ensures '!' <= c <= '~' ==> !IsSpace(c)
  {
  }

  predicate Trimmed(s: string) { s != "" ==> !IsSpace(s[0]) && !IsSpace(s[|s| - 1]) }

  /**
   Leaves that differ at most in the spaces around their text are equal exactly if the text in
   between is the same.
   */
  lemma LeavesAreEqualExactly(tag: string, attrs: map<string, string>, a: string, b: string,
                              before: string, after: string)
    requires Trimmed(a) && Trimmed(b) && forall c :: c in before + after ==> IsSpace(c)
    ensures Iso(Elem(tag, Some(a), attrs, []), Elem(tag, Some(before + b + after), attrs, []), Stripped) <==> a == b
  {
    hide *;
    StripPadded(b, before, after);
    StripPadded(a, "", "");
    assert "" + a + "" == a;
    LeafIso(tag, attrs, Some(a), Some(before + b + after), Stripped);
    StrippedIs(a);
    StrippedIs(before + b + after);
  }

  lemma LeafIso(tag: string, attrs: map<string, string>, t: Option<string>, u: Option<string>, read: TextReading)
    ensures Iso(Elem(tag, t, attrs, []), Elem(tag, u, attrs, []), read) <==> read(t) == read(u)
  {
    hide Iso, Pairable;
    IsoSplits(Elem(tag, t, attrs, []), Elem(tag, u, attrs, []), read);
    NothingPairs(read);
  }

  lemma NothingPairs(read: TextReading)
    ensures Pairable([], [], read)
  {
    hide Iso;
    assert Pairing([], [], [], read);
  }

  lemma StrippedIs(s: string)
    ensures Stripped(Some(s)) == Some(Strip(s))
  {
    hide Strip;
  }

  lemma {:induction false} StripPadded(s: string, before: string, after: string)
    requires Trimmed(s) && forall c :: c in before + after ==> IsSpace(c)
    ensures Strip(before + s + after) == s
    decreases |before| + |after|
  {
    hide IsSpace;
    var t := before + s + after;
    if before != "" {
      assert t[0] == before[0] && before[0] in before + after && t[1..] == before[1..] + s + after;
      StripPadded(s, before[1..], after);
    } else if after != "" {
      var n := |after| - 1;
      assert t[|t| - 1] == after[n] && after[n] in before + after && t[..|t| - 1] == before + s + after[..n];
      StripPadded(s, before, after[..n]);
      if s == "" {
        assert t[0] == after[0] && after[0] in before + after && t[1..] == "" + s + after[1..];
        StripPadded(s, "", after[1..]);
      }
    } else {
      assert t == s;
    }
  }

  /** Text that is missing equals no text that is there, even if that is empty. */
  lemma MissingTextIsNoText(tag: string, attrs: map<string, string>, s: string)
    ensures !Iso(Elem(tag, None, attrs, []), Elem(tag, Some(s), attrs, []), Stripped)
  {
  }

  datatype Verdict =
    | Equal
    | TagsDiffer
    | TextDiffers
    | AttributesDiffer
    | ChildCountsDiffer
    | MissingElement(position: nat)
    | ExtraElements

  /** Greedy choices made so far: distinct children of the second tree, each paired with one of the first. */
  ghost predicate Partial(cs: seq<Xml>, ds: seq<Xml>, matched: seq<nat>)
  {
    && |matched| <= |cs| == |ds|
    && (forall k :: 0 <= k < |matched| ==> matched[k] < |ds| && Iso(cs[k], ds[matched[k]], Stripped))
    && Distinct(matched)
  }

  /** The choices made so far cost nothing: if the children can be paired at all, they can be so from here. */
  ghost predicate Harmless(cs: seq<Xml>, ds: seq<Xml>, matched: seq<nat>)
  {
    Pairable(cs, ds, Stripped) ==>
      exists p :: Pairing(cs, ds, p, Stripped) && matched <= p
  }

  /** A pairing that agrees with the choices so far can be made to agree with the next one too. */
  lemma Exchange(cs: seq<Xml>, ds: seq<Xml>, i: nat, j: nat, p: seq<nat>) returns (q: seq<nat>)
    requires Pairing(cs, ds, p, Stripped)
    requires i < |cs| && j < |ds| && j !in p[..i]
    requires Iso(cs[i], ds[j], Stripped)
    ensures Pairing(cs, ds, q, Stripped) && q[..i + 1] == p[..i] + [j]
  {
    var m := PermHits(p, |cs|, j);
    assert forall k :: 0 <= k < i ==> p[k] == p[..i][k];
    IsoSym(cs[i], ds[j], Stripped);
    IsoTrans(cs[m], ds[j], cs[i], Stripped);
    IsoTrans(cs[m], cs[i], ds[p[i]], Stripped);
    q := p[i := j][m := p[i]];
    assert IsPerm(q, |cs|);
  }

  /** Taking any unused isomorphic child is as good as taking the right one. */
  lemma GreedyStep(cs: seq<Xml>, ds: seq<Xml>, matched: seq<nat>, j: nat)
    requires Partial(cs, ds, matched) && Harmless(cs, ds, matched)
    requires |matched| < |cs| && j < |ds| && j !in matched
    requires Iso(cs[|matched|], ds[j], Stripped)
    ensures Harmless(cs, ds, matched + [j])
  {
    if Pairable(cs, ds, Stripped) {
      var p :| Pairing(cs, ds, p, Stripped) && matched <= p;
      assert p[..|matched|] == matched;
      var q := Exchange(cs, ds, |matched|, j, p);
    }
  }

  /** If the children can be paired, some unused child fits the next one. */
  lemma SomeFits(cs: seq<Xml>, ds: seq<Xml>, matched: seq<nat>)
    requires Partial(cs, ds, matched) && Harmless(cs, ds, matched) && |matched| < |cs|
    requires Pairable(cs, ds, Stripped)
    ensures exists j: nat :: j < |ds| && j !in matched && Iso(cs[|matched|], ds[j], Stripped)
  {
    var p :| Pairing(cs, ds, p, Stripped) && matched <= p;
    var j := p[|matched|];
    assert j !in matched by {
      assert forall k :: 0 <= k < |matched| ==> matched[k] == p[k];
    }
    assert Iso(cs[|matched|], ds[j], Stripped);
  }

  /**
   Raises (any verdict but Equal) exactly when the trees are not isomorphic up
   to sibling order; the closing check for extra elements never fires.
   */
  method AssertXMLEqual(el1: Xml, el2: Xml) returns (r: Verdict)
    ensures r.Equal? <==> Iso(el1, el2, Stripped)
    ensures r.TagsDiffer? <==> el1.tag != el2.tag
    ensures r.TextDiffers? <==> el1.tag == el2.tag && Stripped(el1.text) != Stripped(el2.text)
    ensures r.AttributesDiffer? <==>
      el1.tag == el2.tag && Stripped(el1.text) == Stripped(el2.text) && el1.attrs != el2.attrs
    ensures r.ChildCountsDiffer? <==> SameHead(el1, el2, Stripped) && |el1.children| != |el2.children|
    ensures !r.ExtraElements?
    decreases el1, 2
  {
    IsoSplits(el1, el2, Stripped);
    if el1.tag != el2.tag { return TagsDiffer; }
    if el1.text.Some? && el2.text.Some? {
      if Strip(el1.text.value) != Strip(el2.text.value) { return TextDiffers; }
    } else if el1.text != el2.text { return TextDiffers; }
    if el1.attrs != el2.attrs { return AttributesDiffer; }
    if |el1.children| != |el2.children| { return ChildCountsDiffer; }
    r := MatchChildren(el1, el2.children);
  }

  /** The outer loop and the closing check, over the children of el1 and those of the other tree. */
  method MatchChildren(el1: Xml, ds: seq<Xml>) returns (r: Verdict)
    requires |el1.children| == |ds|
    ensures r.Equal? <==> Pairable(el1.children, ds, Stripped)
    ensures r.Equal? || r.MissingElement?
    decreases el1, 1
  {
    var cs := el1.children;
    var matched: seq<nat> := [];
    for i := 0 to |cs|
      invariant |matched| == i && Partial(cs, ds, matched) && Harmless(cs, ds, matched)
    {
      var j := FirstUnusedMatch(el1, i, ds, matched);
      if j.None? {
        if Pairable(cs, ds, Stripped) { SomeFits(cs, ds, matched); }
        return MissingElement(i);
      }
      GreedyStep(cs, ds, matched, j.value);
      matched := matched + [j.value];
    }
    forall j: nat | j < |ds| ensures j in matched {
      var k := PermHits(matched, |ds|, j);
    }
    if !(forall j: nat :: j < |ds| ==> j in matched) { return ExtraElements; }
    assert Pairing(cs, ds, matched, Stripped);
    return Equal;
  }

  /** The inner loop: the first child with the right tag that is unused and compares equal. */
  method FirstUnusedMatch(el1: Xml, i: nat, ds: seq<Xml>, matched: seq<nat>) returns (r: Option<nat>)
    requires i < |el1.children|
    ensures r.Some? ==> r.value < |ds| && r.value !in matched && Iso(el1.children[i], ds[r.value], Stripped)
    ensures forall k: nat :: k < (if r.Some? then r.value else |ds|) && k !in matched ==>
      !Iso(el1.children[i], ds[k], Stripped)
    decreases el1, 0
  {
    var child := el1.children[i];
    for j := 0 to |ds|
      invariant forall k: nat :: k < j && k !in matched ==> !Iso(child, ds[k], Stripped)
    {
      if ds[j].tag == child.tag && j !in matched {
        var sub := AssertXMLEqual(child, ds[j]);
        if sub.Equal? { return Some(j); }
      }
    }
    return None;
  }
}
