/**
 Sorting and permutations. The programs modelled here call the stable library
 sorts of their languages; `Order` is that sort, given as the sequence of
 positions in the order in which the sorted list visits them, so that the same
 order can be applied to any list running in parallel to the keys.
 */
module Ordering {

  ghost predicate IsPerm(p: seq<nat>, n: nat)
  {
    && |p| == n
    && (forall i :: 0 <= i < n ==> p[i] < n)
    && (forall i, j :: 0 <= i < j < n ==> p[i] != p[j])
  }

  function Apply<T>(p: seq<nat>, s: seq<T>): (r: seq<T>)
    requires forall i :: 0 <= i < |p| ==> p[i] < |s|
    ensures |r| == |p| && forall i :: 0 <= i < |p| ==> r[i] == s[p[i]]
  {
    if p == [] then [] else Apply(p[..|p| - 1], s) + [s[p[|p| - 1]]]
  }

  function Identity(n: nat): (p: seq<nat>)
    ensures IsPerm(p, n) && forall i :: 0 <= i < n ==> p[i] == i
  {
    if n == 0 then [] else Identity(n - 1) + [n - 1]
  }

  /** Every value below n occurs in a permutation of n. */
  lemma {:induction false} PermHits(p: seq<nat>, n: nat, v: nat) returns (i: nat)
    requires IsPerm(p, n) && v < n
    ensures i < n && p[i] == v
  {
    if v !in p {
      InjectiveFits(p, UpTo(n) - {v});
      assert false;
    }
    i :| 0 <= i < |p| && p[i] == v;
  }

  ghost function UpTo(n: nat): (s: set<nat>)
    ensures |s| == n && forall k: nat :: k in s <==> k < n
  {
    if n == 0 then {} else UpTo(n - 1) + {n - 1}
  }

  /** A sequence without repetition is no longer than a set that holds it. */
  lemma {:induction false} InjectiveFits<T>(p: seq<T>, s: set<T>)
    requires forall i, j :: 0 <= i < j < |p| ==> p[i] != p[j]
    requires forall i :: 0 <= i < |p| ==> p[i] in s
    ensures |p| <= |s|
  {
    if p != [] {
      var q := p[..|p| - 1];
      InjectiveFits(q, s - {p[|p| - 1]});
    }
  }

  ghost function Inverse(p: seq<nat>, n: nat): (q: seq<nat>)
    requires IsPerm(p, n)
    ensures IsPerm(q, n)
    ensures forall v :: 0 <= v < n ==> p[q[v]] == v
  {
    InverseExists(p, n);
    var q: seq<nat> :| |q| == n && forall v :: 0 <= v < n ==> q[v] < n && p[q[v]] == v;
    assert IsPerm(q, n) by {
      forall i, j | 0 <= i < j < n ensures q[i] != q[j] {
        assert p[q[i]] == i && p[q[j]] == j;
      }
    }
    q
  }

  lemma {:induction false} InverseExists(p: seq<nat>, n: nat)
    requires IsPerm(p, n)
    ensures exists q: seq<nat> :: |q| == n && forall v :: 0 <= v < n ==> q[v] < n && p[q[v]] == v
  {
    var q: seq<nat> := [];
    while |q| < n
      invariant |q| <= n
      invariant forall v :: 0 <= v < |q| ==> q[v] < n && p[q[v]] == v
    {
      var i := PermHits(p, n, |q|);
      q := q + [i];
    }
  }

  // ---------- the stable sort ----------

  /** `le` orders every two of the keys and is transitive on them. */
  ghost predicate PreorderOn<K>(keys: seq<K>, le: (K, K) -> bool)
  {
    && (forall i, j {:trigger le(keys[i], keys[j])} | 0 <= i < |keys| && 0 <= j < |keys| ::
          le(keys[i], keys[j]) || le(keys[j], keys[i]))
    && (forall i, j, k {:trigger le(keys[i], keys[j]), le(keys[j], keys[k])}
          | 0 <= i < |keys| && 0 <= j < |keys| && 0 <= k < |keys| ::
          le(keys[i], keys[j]) && le(keys[j], keys[k]) ==> le(keys[i], keys[k]))
  }

  ghost predicate SortedPositions<K>(p: seq<nat>, keys: seq<K>, le: (K, K) -> bool)
    requires forall i :: 0 <= i < |p| ==> p[i] < |keys|
  {
    forall i, j :: 0 <= i < j < |p| ==> le(keys[p[i]], keys[p[j]])
  }

  /** Where the stable sort puts position k among the sorted positions p: after all keys not above its own. */
  function Slot<K>(keys: seq<K>, le: (K, K) -> bool, p: seq<nat>, k: nat): (i: nat)
    requires k < |keys| && forall i :: 0 <= i < |p| ==> p[i] < |keys|
    ensures i <= |p|
  {
    if p == [] || le(keys[p[|p| - 1]], keys[k]) then |p| else Slot(keys, le, p[..|p| - 1], k)
  }

  /** The positions of the first n keys, in the order of a stable sort. */
  function OrderUpTo<K>(keys: seq<K>, le: (K, K) -> bool, n: nat): (p: seq<nat>)
    requires n <= |keys|
    ensures IsPerm(p, n)
  {
    if n == 0 then []
    else
      var q := OrderUpTo(keys, le, n - 1);
      var i := Slot(keys, le, q, n - 1);
      InsertedPerm(q, n - 1, i);
      q[..i] + [n - 1] + q[i..]
  }

  lemma InsertedPerm(q: seq<nat>, n: nat, i: nat)
    requires IsPerm(q, n) && i <= n
    ensures IsPerm(q[..i] + [n] + q[i..], n + 1)
  {
    var p := q[..i] + [n] + q[i..];
    assert forall a :: 0 <= a <= n ==> p[a] == if a < i then q[a] else if a == i then n else q[a - 1];
  }

  ghost predicate Distinct<T>(s: seq<T>)
  {
    forall i, j :: 0 <= i < j < |s| ==> s[i] != s[j]
  }

  function Order<K>(keys: seq<K>, le: (K, K) -> bool): (p: seq<nat>)
    ensures IsPerm(p, |keys|)
  {
    OrderUpTo(keys, le, |keys|)
  }

  ghost predicate Ascends<K>(p: seq<nat>, keys: seq<K>, le: (K, K) -> bool)
    requires forall i :: 0 <= i < |p| ==> p[i] < |keys|
  {
    forall i :: 0 < i < |p| ==> le(keys[p[i - 1]], keys[p[i]])
  }

  lemma {:induction false} SlotFits<K>(keys: seq<K>, le: (K, K) -> bool, p: seq<nat>, k: nat)
    requires k < |keys| && forall i :: 0 <= i < |p| ==> p[i] < |keys|
    ensures var i := Slot(keys, le, p, k);
      (i > 0 ==> le(keys[p[i - 1]], keys[k])) && (i < |p| ==> !le(keys[p[i]], keys[k]))
  {
    if p != [] && !le(keys[p[|p| - 1]], keys[k]) { SlotFits(keys, le, p[..|p| - 1], k); }
  }

  lemma InsertAscends<K>(keys: seq<K>, le: (K, K) -> bool, q: seq<nat>, k: nat, i: nat)
    requires k < |keys| && i <= |q| && forall j :: 0 <= j < |q| ==> q[j] < |keys|
    requires Ascends(q, keys, le)
    requires i > 0 ==> le(keys[q[i - 1]], keys[k])
    requires i < |q| ==> le(keys[k], keys[q[i]])
    ensures var p := q[..i] + [k] + q[i..];
      (forall j :: 0 <= j < |p| ==> p[j] < |keys|) && Ascends(p, keys, le)
  {
    var p := q[..i] + [k] + q[i..];
    assert forall j :: 0 <= j < |p| ==> p[j] == if j < i then q[j] else if j == i then k else q[j - 1];
  }

  lemma {:induction false} OrderUpToAscends<K>(keys: seq<K>, le: (K, K) -> bool, n: nat)
    requires n <= |keys| && PreorderOn(keys, le)
    ensures Ascends(OrderUpTo(keys, le, n), keys, le)
  {
    hide Slot, Ascends;
    if n == 0 {
      AscendsEmpty(keys, le);
    } else {
      var q := OrderUpTo(keys, le, n - 1);
      OrderUpToAscends(keys, le, n - 1);
      SlotFits(keys, le, q, n - 1);
      InsertAscends(keys, le, q, n - 1, Slot(keys, le, q, n - 1));
    }
  }

  lemma AscendsEmpty<K>(keys: seq<K>, le: (K, K) -> bool)
    ensures Ascends([], keys, le)
  {
  }

  lemma {:induction false} AscentReaches<K>(p: seq<nat>, keys: seq<K>, le: (K, K) -> bool, i: nat, j: nat)
    requires IsPerm(p, |keys|) && PreorderOn(keys, le) && Ascends(p, keys, le) && i < j < |p|
    ensures le(keys[p[i]], keys[p[j]])
  {
    if i + 1 < j { AscentReaches(p, keys, le, i, j - 1); }
  }

  /** Under a total preorder the stable sort sorts. */
  lemma OrderSorts<K>(keys: seq<K>, le: (K, K) -> bool)
    requires PreorderOn(keys, le)
    ensures SortedPositions(Order(keys, le), keys, le)
  {
    var p := Order(keys, le);
    OrderUpToAscends(keys, le, |keys|);
    forall i, j | 0 <= i < j < |p| ensures le(keys[p[i]], keys[p[j]]) {
      hide PreorderOn, Ascends, OrderUpTo;
      AscentReaches(p, keys, le, i, j);
    }
  }

  /** Keys that are already in order stay where they are: the sort is stable. */
  lemma {:induction false} OrderUpToKeepsSorted<K>(keys: seq<K>, le: (K, K) -> bool, n: nat)
    requires n <= |keys|
    requires forall i, j :: 0 <= i < j < |keys| ==> le(keys[i], keys[j])
    ensures OrderUpTo(keys, le, n) == Identity(n)
  {
    if n > 0 {
      OrderUpToKeepsSorted(keys, le, n - 1);
    }
  }

  lemma InsertedElement<T>(r: seq<T>, t: seq<T>, i: nat)
    requires |r| == |t| + 1 && i < |r|
    requires forall k :: 0 <= k < |t| ==> t[k] == r[if k < i then k else k + 1]
    ensures multiset(r) == multiset(t) + multiset{r[i]}
  {
    assert r == t[..i] + [r[i]] + t[i..];
    assert t == t[..i] + t[i..];
  }

  /** A rearranged list has the same elements, each as often. */
  lemma {:induction false} ApplyKeepsMultiset<T>(p: seq<nat>, s: seq<T>)
    requires IsPerm(p, |s|)
    ensures multiset(Apply(p, s)) == multiset(s)
  {
    hide Apply;
    if s != [] {
      var n := |s| - 1;
      var i := PermHits(p, |s|, n);
      var q := p[..i] + p[i + 1..];
      assert forall k :: 0 <= k < |q| ==> q[k] == p[if k < i then k else k + 1];
      ApplyKeepsMultiset(q, s[..n]);
      InsertedElement(Apply(p, s), Apply(q, s[..n]), i);
      InsertedElement(s, s[..n], n);
    }
  }

  // ---------- strings ----------

  /** Code point order on strings: Python's and JavaScript's `<=`. */
  predicate LexLe(a: string, b: string)
  {
    if a == [] then true
    else if b == [] then false
    else if a[0] == b[0] then LexLe(a[1..], b[1..])
    else a[0] < b[0]
  }

  /** A text is not above another exactly if it is its beginning, or has the lower character where they first differ. */
  lemma {:induction false} LexLeByPosition(a: string, b: string)
    ensures LexLe(a, b) <==> a <= b || exists i | 0 <= i < |a| && i < |b| :: a[..i] == b[..i] && a[i] < b[i]
  {
    if a != [] && b != [] && a[0] == b[0] {
      LexLeByPosition(a[1..], b[1..]);
      assert a == [a[0]] + a[1..] && b == [b[0]] + b[1..];
      if i :| 0 <= i < |a| && i < |b| && a[..i] == b[..i] && a[i] < b[i] {
        assert i > 0 && a[1..][..i - 1] == a[..i][1..] && b[1..][..i - 1] == b[..i][1..];
        assert a[1..][i - 1] < b[1..][i - 1];
      }
      if i :| 0 <= i < |a[1..]| && i < |b[1..]| && a[1..][..i] == b[1..][..i] && a[1..][i] < b[1..][i] {
        assert a[..i + 1] == [a[0]] + a[1..][..i] && b[..i + 1] == [b[0]] + b[1..][..i];
        assert a[i + 1] < b[i + 1];
      }
    } else if a != [] && b != [] {
      assert a[..0] == b[..0];
      if i :| 0 <= i < |a| && i < |b| && a[..i] == b[..i] && a[i] < b[i] {
        assert i > 0 ==> a[..i][0] == b[..i][0];
      }
    }
  }

  lemma {:induction false} LexTotal(a: string, b: string)
    ensures LexLe(a, b) || LexLe(b, a)
  {
    if a != [] && b != [] && a[0] == b[0] { LexTotal(a[1..], b[1..]); }
  }

  lemma {:induction false} LexAntisym(a: string, b: string)
    requires LexLe(a, b) && LexLe(b, a)
    ensures a == b
  {
    if a != [] && b != [] {
      LexAntisym(a[1..], b[1..]);
      assert a == [a[0]] + a[1..] && b == [b[0]] + b[1..];
    }
  }

  lemma {:induction false} LexTrans(a: string, b: string, c: string)
    requires LexLe(a, b) && LexLe(b, c)
    ensures LexLe(a, c)
  {
    if a != [] && b != [] && c != [] && a[0] == b[0] == c[0] { LexTrans(a[1..], b[1..], c[1..]); }
  }

  lemma LexPreorder(keys: seq<string>)
    ensures PreorderOn(keys, LexLe)
  {
    forall i, j | 0 <= i < |keys| && 0 <= j < |keys| ensures LexLe(keys[i], keys[j]) || LexLe(keys[j], keys[i]) {
      LexTotal(keys[i], keys[j]);
    }
    forall i, j, k | 0 <= i < |keys| && 0 <= j < |keys| && 0 <= k < |keys| &&
                     LexLe(keys[i], keys[j]) && LexLe(keys[j], keys[k])
      ensures LexLe(keys[i], keys[k])
    {
      LexTrans(keys[i], keys[j], keys[k]);
    }
  }
}
