/** XML elements, as values and as the mutable nodes that the programs edit in place. */
module XmlTree {
  import opened Common
  import opened Ordering

  datatype Xml = Elem(tag: string, text: Option<string>, attrs: map<string, string>, children: seq<Xml>)

  /** What a comparison of text looks at: the text as it is, or a reading of it. */
  type TextReading = Option<string> -> Option<string>

  ghost predicate SameHead(a: Xml, b: Xml, read: TextReading)
  {
    a.tag == b.tag && read(a.text) == read(b.text) && a.attrs == b.attrs
  }

  /** Equality of trees up to the order of siblings, at every level. */
  ghost predicate Iso(a: Xml, b: Xml, read: TextReading)
    decreases a
  {
    && SameHead(a, b, read)
    && |a.children| == |b.children|
    && exists p :: IsPerm(p, |a.children|) &&
         forall i :: 0 <= i < |a.children| ==> Iso(a.children[i], b.children[p[i]], read)
  }

  ghost predicate Pairing(cs: seq<Xml>, ds: seq<Xml>, p: seq<nat>, read: TextReading)
  {
    && |cs| == |ds|
    && IsPerm(p, |cs|)
    && forall i :: 0 <= i < |cs| ==> Iso(cs[i], ds[p[i]], read)
  }

  ghost function PairingOf(a: Xml, b: Xml, read: TextReading): (p: seq<nat>)
    requires Iso(a, b, read)
    ensures Pairing(a.children, b.children, p, read)
  {
    var p :| IsPerm(p, |a.children|) &&
      forall i :: 0 <= i < |a.children| ==> Iso(a.children[i], b.children[p[i]], read);
    p
  }

  lemma IsoByPairing(a: Xml, b: Xml, p: seq<nat>, read: TextReading)
    requires SameHead(a, b, read) && Pairing(a.children, b.children, p, read)
    ensures Iso(a, b, read)
  {
  }

  ghost predicate Pairable(cs: seq<Xml>, ds: seq<Xml>, read: TextReading)
  {
    exists p :: Pairing(cs, ds, p, read)
  }

  lemma IsoSplits(a: Xml, b: Xml, read: TextReading)
    ensures Iso(a, b, read) <==> SameHead(a, b, read) && Pairable(a.children, b.children, read)
  {
    if Iso(a, b, read) {
      assert Pairing(a.children, b.children, PairingOf(a, b, read), read);
    }
    if SameHead(a, b, read) && Pairable(a.children, b.children, read) {
      var p :| Pairing(a.children, b.children, p, read);
      IsoByPairing(a, b, p, read);
    }
  }

  lemma {:induction false} IsoRefl(a: Xml, read: TextReading)
    ensures Iso(a, a, read)
  {
    var n := |a.children|;
    forall i | 0 <= i < n ensures Iso(a.children[i], a.children[i], read) {
      IsoRefl(a.children[i], read);
    }
    var id: seq<nat> := seq(n, i => i);
    assert Pairing(a.children, a.children, id, read);
    IsoByPairing(a, a, id, read);
  }

  lemma {:induction false} IsoSym(a: Xml, b: Xml, read: TextReading)
    requires Iso(a, b, read)
    ensures Iso(b, a, read)
  {
    var n := |a.children|;
    var p := PairingOf(a, b, read);
    var q := Inverse(p, n);
    forall v | 0 <= v < n ensures Iso(b.children[v], a.children[q[v]], read) {
      IsoSym(a.children[q[v]], b.children[v], read);
    }
    assert Pairing(b.children, a.children, q, read);
    IsoByPairing(b, a, q, read);
  }

  lemma {:induction false} IsoTrans(a: Xml, b: Xml, c: Xml, read: TextReading)
    requires Iso(a, b, read) && Iso(b, c, read)
    ensures Iso(a, c, read)
  {
    var n := |a.children|;
    var p, q := PairingOf(a, b, read), PairingOf(b, c, read);
    var r := Apply(p, q);
    IsPermApply(p, q, n);
    hide Iso;
    forall i | 0 <= i < n ensures Iso(a.children[i], c.children[r[i]], read) {
      IsoTrans(a.children[i], b.children[p[i]], c.children[q[p[i]]], read);
    }
    HeadsAlike(a, b, c, read);
    IsoByPairing(a, c, r, read);
  }

  lemma IsPermApply(p: seq<nat>, q: seq<nat>, n: nat)
    requires IsPerm(p, n) && IsPerm(q, n)
    ensures IsPerm(Apply(p, q), n)
  {
    hide Apply;
  }

  lemma HeadsAlike(a: Xml, b: Xml, c: Xml, read: TextReading)
    requires Iso(a, b, read) && Iso(b, c, read)
    ensures SameHead(a, c, read) && |a.children| == |c.children|
  {
  }

  /**
   An element of a document that is edited in place. `model` is the value of the
   tree below it and `repr` the elements of that tree.
   */
  class Element {
    const tag: string
    const text: Option<string>
    const attrs: map<string, string>
    var children: seq<Element>
    ghost var model: Xml
    ghost var repr: set<Element>

    ghost predicate Valid()
      reads this, repr
      decreases repr, 1
    {
      && Shape()
      && model.tag == tag && model.text == text && model.attrs == attrs
      && |model.children| == |children|
      && (forall i :: 0 <= i < |children| ==> model.children[i] == children[i].model)
    }

    /** The elements below are valid and form a tree; `model` may be out of date. */
    ghost predicate Shape()
      reads this, repr
      decreases repr, 0
    {
      && this in repr
      && (forall i :: 0 <= i < |children| ==>
            children[i] in repr && children[i].repr <= repr - {this} && children[i].Valid())
      && (forall i, j :: 0 <= i < j < |children| ==> children[i].repr !! children[j].repr)
    }

    /** Replaces the children by themselves in another order, as `node[:] = list` does. */
    method Rearrange(p: seq<nat>, ghost m: Xml)
      requires Shape() && IsPerm(p, |children|)
      requires m.tag == tag && m.text == text && m.attrs == attrs && |m.children| == |children|
      requires forall i :: 0 <= i < |p| ==> m.children[i] == children[p[i]].model
      modifies this
      ensures Valid() && model == m && repr == old(repr)
      ensures children == Apply(p, old(children))
    {
      children := Apply(p, children);
      model := m;
    }

    /** Makes child the last child. It must not be part of this document already. */
    method Append(child: Element)
      requires Valid() && child.Valid() && repr !! child.repr
      modifies this
      ensures Valid() && repr == old(repr) + child.repr
      ensures model == old(model).(children := old(model.children) + [child.model])
    {
      assert forall i :: 0 <= i < |children| ==> children[i].repr !! {this};
      children := children + [child];
      model := model.(children := model.children + [child.model]);
      repr := repr + child.repr;
    }

    constructor (tag: string, text: Option<string>, attrs: map<string, string>)
      ensures Valid() && fresh(repr) && repr == {this}
      ensures model == Elem(tag, text, attrs, [])
    {
      this.tag, this.text, this.attrs := tag, text, attrs;
      children := [];
      model := Elem(tag, text, attrs, []);
      repr := {this};
    }
  }
}
