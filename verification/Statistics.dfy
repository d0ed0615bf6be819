/** Running statistics of the server, and their aggregation over all child processes, over the reals. */
module Statistics {
  import opened Common

  /** (min, max, average, number of values) */
  datatype Summary = Summary(min: real, max: real, ave: real, count: nat)

  // ---------- what a summary means ----------

  function MinR(a: real, b: real): real { if a <= b then a else b }
  function MaxR(a: real, b: real): real { if a >= b then a else b }

  ghost function Sum(s: seq<real>): real
  {
    if s == [] then 0.0 else Sum(s[..|s| - 1]) + s[|s| - 1]
  }

  ghost function Min(s: seq<real>): real
    requires s != []
  {
    if |s| == 1 then s[0] else MinR(Min(s[..|s| - 1]), s[|s| - 1])
  }

  ghost function Max(s: seq<real>): real
    requires s != []
  {
    if |s| == 1 then s[0] else MaxR(Max(s[..|s| - 1]), s[|s| - 1])
  }

  ghost function Of(s: seq<real>): Summary
    requires s != []
  {
    Summary(Min(s), Max(s), Mean(Sum(s), |s|), |s|)
  }

  function Mean(sum: real, count: nat): real
    requires count > 0
  {
    sum / count as real
  }

  lemma {:induction false} MinIsLeast(s: seq<real>)
    requires s != []
    ensures Min(s) in s && forall v :: v in s ==> Min(s) <= v
    ensures Max(s) in s && forall v :: v in s ==> v <= Max(s)
  {
    if |s| > 1 {
      MinIsLeast(s[..|s| - 1]);
      assert s == s[..|s| - 1] + [s[|s| - 1]];
    }
  }

  lemma {:induction false} OfConcat(a: seq<real>, b: seq<real>)
    requires a != [] && b != []
    ensures Sum(a + b) == Sum(a) + Sum(b)
    ensures Min(a + b) == MinR(Min(a), Min(b))
    ensures Max(a + b) == MaxR(Max(a), Max(b))
  {
    var front, last := b[..|b| - 1], b[|b| - 1];
    assert (a + b)[..|a + b| - 1] == a + front;
    if front == [] {
      assert a + front == a && b == [last];
      assert Sum(b) == Sum([]) + last;
    } else {
      OfConcat(a, front);
    }
  }

  // ---------- one running statistic ----------

  function Added(s: Summary, value: real): Summary
  {
    var count := s.count + 1;
    Summary(MinR(s.min, value), MaxR(s.max, value), (s.ave * (count - 1) as real + value) / count as real, count)
  }

  lemma AddedExtends(s: seq<real>, value: real)
    requires s != []
    ensures Added(Of(s), value) == Of(s + [value])
  {
    assert (s + [value])[..|s|] == s;
    DivideBack(Sum(s), |s| as real);
  }

  lemma DivideBack(x: real, n: real)
    requires n != 0.0
    ensures x / n * n == x
  {
  }

  class Statistic {
    const name: string
    var min: real
    var max: real
    var ave: real
    var count: nat
    /** The values added so far. */
    ghost var values: seq<real>

    ghost predicate Valid()
      reads this
    {
      values != [] && Summary(min, max, ave, count) == Of(values)
    }

    constructor (name: string, initial: real)
      ensures Valid() && this.name == name && values == [initial]
    {
      this.name, min, max, ave, count, values := name, initial, initial, initial, 1, [initial];
      new;
      assert Sum([initial]) == Sum([]) + initial;
    }

    method AddValue(value: real)
      requires Valid()
      modifies this
      ensures Valid() && values == old(values) + [value]
    {
      AddedExtends(values, value);
      min := MinR(min, value);
      max := MaxR(max, value);
      count := count + 1;
      ave := (ave * (count - 1) as real + value) / count as real;
      values := values + [value];
    }

    method GetValue() returns (r: (string, Summary))
      requires Valid()
      ensures r == (name, Of(values))
    {
      r := (name, Summary(min, max, ave, count));
    }
  }

  /** The named statistics of one server process. */
  class Collection {
    var data: map<string, Statistic>
    /** All values added under each name. */
    ghost var streams: map<string, seq<real>>
    ghost var items: set<Statistic>

    ghost predicate Valid()
      reads this, items
    {
      && data.Keys == streams.Keys
      && (forall n :: n in data ==> data[n] in items)
      && (forall n :: n in data ==> data[n].Valid() && data[n].name == n && data[n].values == streams[n])
    }

    constructor ()
      ensures Valid() && streams == map[] && items == {}
    {
      data, streams, items := map[], map[], {};
    }

    method AddValue(name: string, value: real)
      requires Valid()
      modifies this, items
      ensures Valid() && fresh(items - old(items))
      ensures streams == old(streams)[name := (if name in old(streams) then old(streams)[name] else []) + [value]]
    {
      if name !in data {
        var s := new Statistic(name, value);
        data := data[name := s];
        items := items + {s};
        streams := streams[name := [] + [value]];
      } else {
        data[name].AddValue(value);
        streams := streams[name := streams[name] + [value]];
      }
    }

    /** The summaries of all values, by name. */
    method Display() returns (r: map<string, Summary>)
      requires Valid()
      ensures r.Keys == streams.Keys && forall n :: n in r ==> streams[n] != [] && r[n] == Of(streams[n])
    {
      r := map n | n in data :: Summary(data[n].min, data[n].max, data[n].ave, data[n].count);
    }
  }

  // ---------- aggregation over processes ----------

  function Merged(a: Summary, b: Summary): Summary
    requires a.count + b.count > 0
  {
    var count := a.count + b.count;
    Summary(MinR(a.min, b.min), MaxR(a.max, b.max),
            WeightedMean(a.ave, a.count, b.ave, b.count), count)
  }

  function WeightedMean(x: real, m: nat, y: real, n: nat): real
    requires m + n > 0
  {
    (x * m as real + y * n as real) / (m + n) as real
  }

  lemma MergedIsOfConcat(a: seq<real>, b: seq<real>)
    requires a != [] && b != []
    ensures Merged(Of(a), Of(b)) == Of(a + b)
  {
    hide Sum, Min, Max, Mean, WeightedMean;
    OfConcat(a, b);
    MeanOfMeans(Sum(a), |a|, Sum(b), |b|);
  }

  lemma MeanOfMeans(x: real, m: nat, y: real, n: nat)
    requires m > 0 && n > 0
    ensures WeightedMean(Mean(x, m), m, Mean(y, n), n) == Mean(x + y, m + n)
  {
    DivideBack(x, m as real);
    DivideBack(y, n as real);
  }

  const CHILD_CORE := "ChildCore:"
  const TOTAL := "Total:"

  /** `statname[5:]` where the name starts with "ChildCore:". */
  function Stripped(name: string): string
  {
    if CHILD_CORE <= name then name[5..] else name
  }

  function Pretty(prefix: Option<string>, name: string): string
  {
    if prefix.Some? && prefix.value != "" then prefix.value + ":" + Stripped(name) else Stripped(name)
  }

  function Total(name: string): string { TOTAL + Stripped(name) }

  /** The core of every child counts as the same thing. */
  lemma NamesShown(prefix: string, x: string)
    ensures Total(CHILD_CORE + x) == "Total:Core:" + x && Pretty(None, CHILD_CORE + x) == "Core:" + x
    ensures prefix != "" ==> Pretty(Some(prefix), CHILD_CORE + x) == prefix + ":Core:" + x
    ensures !(CHILD_CORE <= x) ==> Total(x) == "Total:" + x && Pretty(None, x) == x
    ensures !(CHILD_CORE <= x) && prefix != "" ==> Pretty(Some(prefix), x) == prefix + ":" + x
  {
    assert (CHILD_CORE + x)[5..] == "Core:" + x;
    assert prefix + ":" + ("Core:" + x) == prefix + ":Core:" + x;
    assert "Total:" + ("Core:" + x) == "Total:Core:" + x;
  }

  /** One statistic of one process; `values` is what was added to it there. */
  datatype Entry = Entry(prefix: Option<string>, name: string, values: seq<real>)

  /** The body of the loop over a process's statistics. */
  function Aggregated(stats: map<string, Summary>, prefix: Option<string>, name: string, s: Summary):
    map<string, Summary>
    requires s.count > 0
  {
    var shown := stats[Pretty(prefix, name) := s];
    var total := Total(name);
    shown[total := if total !in shown then s else Merged(shown[total], s)]
  }

  /** All values that the listed statistics hold under a name. */
  ghost function ValuesOf(entries: seq<Entry>, name: string): seq<real>
  {
    if entries == [] then []
    else
      var last := entries[|entries| - 1];
      ValuesOf(entries[..|entries| - 1], name) + if Stripped(last.name) == name then last.values else []
  }

  /** The statistic is shown under the name of the total of n. */
  predicate ShownAsTotal(e: Entry, n: string) { Pretty(e.prefix, e.name) == TOTAL + n }

  /** Child processes are called Child-0, Child-1, ...: their statistics never take the place of a total. */
  lemma ChildrenNeverClash(e: Entry, i: string, n: string)
    requires e.prefix == Some("Child-" + i)
    ensures OfChild(e) && !ShownAsTotal(e, n)
  {
    assert Pretty(e.prefix, e.name)[0] == 'C';
  }

  /** A statistic of the parent is shown as a total exactly if it has the name of one. */
  lemma ParentsClashByName(e: Entry, n: string)
    requires e.prefix.None?
    ensures ShownAsTotal(e, n) <==> Stripped(e.name) == TOTAL + n
    ensures ShownAsTotal(e, n) ==> Stripped(e.name) != n
  {
    assert |TOTAL + n| > |n|;
  }

  /** The values behind the total of n: a statistic that is shown as the total replaces those before it. */
  ghost function Stream(entries: seq<Entry>, n: string): seq<real>
  {
    if entries == [] then []
    else
      var last := entries[|entries| - 1];
      var shown := if ShownAsTotal(last, n) then last.values else Stream(entries[..|entries| - 1], n);
      shown + if Stripped(last.name) == n then last.values else []
  }

  /** Every total stands for the values behind it. */
  ghost predicate TotalsOf(stats: map<string, Summary>, entries: seq<Entry>)
  {
    forall n: string :: StandsFor(stats, n, Stream(entries, n))
  }

  ghost predicate StandsFor(stats: map<string, Summary>, n: string, values: seq<real>)
  {
    if values == [] then TOTAL + n !in stats else TOTAL + n in stats && stats[TOTAL + n] == Of(values)
  }

  lemma TotalsStepByStep(stats: map<string, Summary>, entries: seq<Entry>, e: Entry)
    requires TotalsOf(stats, entries) && e.values != []
    ensures TotalsOf(Aggregated(stats, e.prefix, e.name, Of(e.values)), entries + [e])
  {
    forall n: string
      ensures StandsFor(Aggregated(stats, e.prefix, e.name, Of(e.values)), n, Stream(entries + [e], n))
    {
      assert StandsFor(stats, n, Stream(entries, n));
      OneTotalStep(stats, entries, e, n);
    }
  }

  lemma OneTotalStep(stats: map<string, Summary>, entries: seq<Entry>, e: Entry, n: string)
    requires StandsFor(stats, n, Stream(entries, n)) && e.values != []
    ensures StandsFor(Aggregated(stats, e.prefix, e.name, Of(e.values)), n, Stream(entries + [e], n))
  {
    hide Of, Merged, Stripped, Pretty;
    var shown := if ShownAsTotal(e, n) then e.values else Stream(entries, n);
    assert (entries + [e])[..|entries|] == entries;
    assert StandsFor(stats[Pretty(e.prefix, e.name) := Of(e.values)], n, shown);
    if n == Stripped(e.name) {
      assert Stream(entries + [e], n) == shown + e.values;
      if shown != [] {
        MergedIsOfConcat(shown, e.values);
      } else {
        assert shown + e.values == e.values;
      }
    } else {
      assert (TOTAL + n)[|TOTAL|..] == n && Total(e.name)[|TOTAL|..] == Stripped(e.name);
      assert Stream(entries + [e], n) == shown;
    }
  }

  /** One statistic as a process displays it. */
  datatype Shown = Shown(prefix: Option<string>, name: string, summary: Summary)

  ghost predicate Displays(shown: seq<Shown>, entries: seq<Entry>)
  {
    |shown| == |entries| && forall i :: 0 <= i < |shown| ==>
      entries[i].values != [] && shown[i] == Shown(entries[i].prefix, entries[i].name, Of(entries[i].values))
  }

  /** What the statistic is shown under is not shown under by a later one, nor the name of a total. */
  ghost predicate Stays(shown: seq<Shown>, i: int, k: nat)
  {
    0 <= i < k <= |shown| && forall j :: i <= j < k ==>
      (j > i ==> Pretty(shown[j].prefix, shown[j].name) != Pretty(shown[i].prefix, shown[i].name)) &&
      Total(shown[j].name) != Pretty(shown[i].prefix, shown[i].name)
  }

  ghost predicate Shows(stats: map<string, Summary>, s: Shown)
  {
    Pretty(s.prefix, s.name) in stats && stats[Pretty(s.prefix, s.name)] == s.summary
  }

  /** Of the first k statistics, those that stay are shown under their own names. */
  ghost predicate AllShown(stats: map<string, Summary>, shown: seq<Shown>, k: nat)
    requires k <= |shown|
  {
    forall i :: 0 <= i < k && Stays(shown, i, k) ==> Shows(stats, shown[i])
  }

  lemma ShowMore(stats: map<string, Summary>, shown: seq<Shown>, k: nat)
    requires k < |shown| && AllShown(stats, shown, k) && shown[k].summary.count > 0
    ensures AllShown(Aggregated(stats, shown[k].prefix, shown[k].name, shown[k].summary), shown, k + 1)
  {
    hide Pretty, Total, Merged;
    forall i | 0 <= i < k + 1 && Stays(shown, i, k + 1)
      ensures Shows(Aggregated(stats, shown[k].prefix, shown[k].name, shown[k].summary), shown[i])
    {
      assert i < k ==> Stays(shown, i, k);
    }
  }

  lemma OfCounts(s: seq<real>)
    requires s != []
    ensures Of(s).count == |s| > 0
  {
  }

  lemma NothingShown(shown: seq<Shown>, entries: seq<Entry>)
    ensures TotalsOf(map[], []) && AllShown(map[], shown, 0)
  {
  }

  /** `get_statistics`: the statistics of every child, then those of the parent, folded into one dict. */
  method GetStatistics(shown: seq<Shown>, ghost entries: seq<Entry>) returns (stats: map<string, Summary>)
    requires Displays(shown, entries)
    ensures TotalsOf(stats, entries)
    ensures forall n :: (forall e :: e in entries ==> !ShownAsTotal(e, n)) ==> StandsFor(stats, n, ValuesOf(entries, n))
    ensures AllShown(stats, shown, |shown|)
  {
    hide AllShown, Of, Stream, ValuesOf, ShownAsTotal, StandsFor, Aggregated;
    stats := map[];
    assert entries[..0] == [];
    NothingShown(shown, entries);
    for i := 0 to |shown|
      invariant TotalsOf(stats, entries[..i])
      invariant AllShown(stats, shown, i)
    {
      hide TotalsOf;
      OfCounts(entries[i].values);
      ShowMore(stats, shown, i);
      TotalsStepByStep(stats, entries[..i], entries[i]);
      assert entries[..i] + [entries[i]] == entries[..i + 1];
      stats := Aggregated(stats, shown[i].prefix, shown[i].name, shown[i].summary);
    }
    assert entries[..|entries|] == entries;
    forall n | forall e :: e in entries ==> !ShownAsTotal(e, n) ensures StandsFor(stats, n, ValuesOf(entries, n)) {
      StreamWithoutClash(entries, n);
      assert StandsFor(stats, n, Stream(entries, n));
    }
  }

  // ---------- which totals are right ----------

  /** Without a statistic of its name, a total has all values of all processes behind it. */
  lemma {:induction false} StreamWithoutClash(entries: seq<Entry>, n: string)
    requires forall e :: e in entries ==> !ShownAsTotal(e, n)
    ensures Stream(entries, n) == ValuesOf(entries, n)
  {
    if entries != [] {
      assert entries[|entries| - 1] in entries;
      StreamWithoutClash(entries[..|entries| - 1], n);
    }
  }

  lemma NoValues(n: string)
    ensures ValuesOf([], n) == Stream([], n) == []
  {
  }

  /** What one more statistic adds to the values of a name and to the values behind its total. */
  lemma OneMore(entries: seq<Entry>, e: Entry, n: string)
    ensures ValuesOf(entries + [e], n) == ValuesOf(entries, n) + if Stripped(e.name) == n then e.values else []
    ensures Stream(entries + [e], n) ==
      (if ShownAsTotal(e, n) then e.values else Stream(entries, n)) + if Stripped(e.name) == n then e.values else []
  {
    hide Stripped, ShownAsTotal;
    assert (entries + [e])[..|entries|] == entries;
  }

  /** Else what came before the last such statistic is lost, and its own values are counted instead. */
  lemma {:induction false} StreamAfterClash(before: seq<Entry>, e: Entry, after: seq<Entry>, n: string)
    requires ShownAsTotal(e, n) && Stripped(e.name) != n && forall f :: f in after ==> !ShownAsTotal(f, n)
    ensures Stream(before + [e] + after, n) == e.values + ValuesOf(after, n)
    ensures ValuesOf(before + [e] + after, n) == ValuesOf(before, n) + ValuesOf(after, n)
  {
    hide Stripped, ShownAsTotal, ValuesOf, Stream;
    if after == [] {
      assert before + [e] + after == before + [e];
      OneMore(before, e, n);
      NoValues(n);
    } else {
      var front, last := after[..|after| - 1], after[|after| - 1];
      assert before + [e] + after == (before + [e] + front) + [last] && after == front + [last];
      StreamAfterClash(before, e, front, n);
      OneMore(before + [e] + front, last, n);
      OneMore(front, last, n);
    }
  }

  /** So a total that a statistic of the parent is named like is right exactly if the two summaries happen to agree. */
  lemma ClashedTotalIsRightExactly(stats: map<string, Summary>, before: seq<Entry>, e: Entry, after: seq<Entry>,
                                   n: string)
    requires TotalsOf(stats, before + [e] + after) && e.values != [] && e.prefix.None?
    requires ShownAsTotal(e, n) && forall f :: f in after ==> !ShownAsTotal(f, n)
    ensures StandsFor(stats, n, ValuesOf(before + [e] + after, n)) <==>
      ValuesOf(before, n) + ValuesOf(after, n) != [] &&
      Of(e.values + ValuesOf(after, n)) == Of(ValuesOf(before, n) + ValuesOf(after, n))
  {
    hide Of;
    ParentsClashByName(e, n);
    StreamAfterClash(before, e, after, n);
    assert StandsFor(stats, n, Stream(before + [e] + after, n));
  }

  /** A parent statistic called like a total replaces it: here the total of x is that of Total:x instead. */
  lemma ClashLosesTheTotal(a: seq<real>, b: seq<real>)
    requires a != [] && b != []
    ensures var stats := Aggregated(map[], None, "x", Of(a));
      Aggregated(stats, None, TOTAL + "x", Of(b))[TOTAL + "x"] == Of(b)
  {
    assert (TOTAL + "x")[0] == 'T';
    assert Stripped(TOTAL + "x") == TOTAL + "x";
    assert |Total(TOTAL + "x")| > |TOTAL + "x"|;
  }

  // ---------- the order of aggregation does not matter ----------

  lemma {:induction false} SumWithout(s: seq<real>, i: nat)
    requires i < |s|
    ensures Sum(s) == Sum(s[..i] + s[i + 1..]) + s[i]
  {
    var front := s[..|s| - 1];
    if i == |s| - 1 {
      assert s[..i] + s[i + 1..] == front;
    } else {
      SumWithout(front, i);
      var r := s[..i] + s[i + 1..];
      assert r[..|r| - 1] == front[..i] + front[i + 1..];
    }
  }

  lemma WithoutKeepsMultisets<T>(a: seq<T>, b: seq<T>, i: nat)
    requires multiset(a) == multiset(b) && a != [] && i < |b| && b[i] == a[|a| - 1]
    ensures multiset(a[..|a| - 1]) == multiset(b[..i] + b[i + 1..])
  {
    assert a == a[..|a| - 1] + [b[i]];
    assert b == b[..i] + [b[i]] + b[i + 1..];
    assert multiset(a[..|a| - 1]) == multiset(a) - multiset{b[i]};
    assert multiset(b[..i] + b[i + 1..]) == multiset(b) - multiset{b[i]};
  }

  lemma {:induction false} SumOfPermutation(a: seq<real>, b: seq<real>)
    requires multiset(a) == multiset(b)
    ensures |a| == |b| && Sum(a) == Sum(b)
  {
    assert |a| == |multiset(a)| == |multiset(b)| == |b|;
    if a != [] {
      assert a[|a| - 1] in multiset(b);
      var i :| 0 <= i < |b| && b[i] == a[|a| - 1];
      WithoutKeepsMultisets(a, b, i);
      SumWithout(b, i);
      SumOfPermutation(a[..|a| - 1], b[..i] + b[i + 1..]);
    }
  }

  lemma OfPermutation(a: seq<real>, b: seq<real>)
    requires a != [] && multiset(a) == multiset(b)
    ensures b != [] && Of(a) == Of(b)
  {
    SumOfPermutation(a, b);
    MinIsLeast(a);
    MinIsLeast(b);
    assert forall v :: v in a <==> v in multiset(a);
    assert forall v :: v in b <==> v in multiset(b);
  }

  lemma {:induction false} ValuesWithout(entries: seq<Entry>, i: nat, n: string)
    requires i < |entries|
    ensures multiset(ValuesOf(entries, n)) == multiset(ValuesOf(entries[..i] + entries[i + 1..], n)) +
      multiset(if Stripped(entries[i].name) == n then entries[i].values else [])
  {
    hide Stripped, ValuesOf;
    var front, last := entries[..|entries| - 1], entries[|entries| - 1];
    assert entries == front + [last];
    OneMore(front, last, n);
    if i == |entries| - 1 {
      assert entries[..i] + entries[i + 1..] == front;
    } else {
      ValuesWithout(front, i, n);
      assert entries[..i] + entries[i + 1..] == front[..i] + front[i + 1..] + [last];
      OneMore(front[..i] + front[i + 1..], last, n);
    }
  }

  lemma {:induction false} ValuesOfPermutation(es: seq<Entry>, fs: seq<Entry>, n: string)
    requires multiset(es) == multiset(fs)
    ensures multiset(ValuesOf(es, n)) == multiset(ValuesOf(fs, n))
  {
    assert |es| == |multiset(es)| == |multiset(fs)| == |fs|;
    if es != [] {
      assert es[|es| - 1] in multiset(fs);
      var i :| 0 <= i < |fs| && fs[i] == es[|es| - 1];
      WithoutKeepsMultisets(es, fs, i);
      ValuesWithout(fs, i, n);
      ValuesOfPermutation(es[..|es| - 1], fs[..i] + fs[i + 1..], n);
    }
  }

  /** The same values, in any order, have the same total behind them. */
  lemma TotalsAgree(s: map<string, Summary>, t: map<string, Summary>, a: seq<real>, b: seq<real>, name: string)
    requires StandsFor(s, name, a) && StandsFor(t, name, b) && multiset(a) == multiset(b)
    ensures TOTAL + name in s <==> TOTAL + name in t
    ensures TOTAL + name in s ==> s[TOTAL + name] == t[TOTAL + name]
  {
    hide Of;
    assert |a| == |multiset(a)| == |b|;
    if a != [] { OfPermutation(a, b); }
  }

  /** Whatever the order in which statistics are aggregated, none of them shown as the total itself, it is the same. */
  lemma OrderOfProcessesIsIrrelevant(es: seq<Entry>, fs: seq<Entry>, s: map<string, Summary>, t: map<string, Summary>,
                                     name: string)
    requires multiset(es) == multiset(fs) && TotalsOf(s, es) && TotalsOf(t, fs)
    requires forall e :: e in es ==> !ShownAsTotal(e, name)
    ensures TOTAL + name in s <==> TOTAL + name in t
    ensures TOTAL + name in s ==> s[TOTAL + name] == t[TOTAL + name]
  {
    forall e | e in fs ensures !ShownAsTotal(e, name) {
      assert e in multiset(fs);
    }
    StreamWithoutClash(es, name);
    StreamWithoutClash(fs, name);
    ValuesOfPermutation(es, fs, name);
    hide Stream, ValuesOf;
    TotalsAgree(s, t, ValuesOf(es, name), ValuesOf(fs, name), name);
  }

  predicate OfChild(e: Entry) { e.prefix.Some? && "Child-" <= e.prefix.value }

  lemma ChildNeverClashes(e: Entry, n: string)
    requires OfChild(e)
    ensures !ShownAsTotal(e, n)
  {
    assert e.prefix.value == "Child-" + e.prefix.value[6..];
    ChildrenNeverClash(e, e.prefix.value[6..], n);
  }

  lemma SameStreamOfChildren(c: seq<Entry>, d: seq<Entry>, name: string)
    requires multiset(c) == multiset(d) && forall e :: e in c ==> OfChild(e)
    ensures multiset(Stream(c, name)) == multiset(Stream(d, name))
  {
    hide ShownAsTotal, OfChild;
    forall e | e in d ensures e in c { assert e in multiset(d); }
    forall e | e in c ensures !ShownAsTotal(e, name) { ChildNeverClashes(e, name); }
    StreamWithoutClash(c, name);
    StreamWithoutClash(d, name);
    ValuesOfPermutation(c, d, name);
  }

  lemma {:induction false} SameStreamAfterChildren(c: seq<Entry>, d: seq<Entry>, parents: seq<Entry>, name: string)
    requires multiset(c) == multiset(d) && forall e :: e in c ==> OfChild(e)
    ensures multiset(Stream(c + parents, name)) == multiset(Stream(d + parents, name))
  {
    hide ShownAsTotal, Stripped, OfChild, Stream;
    if parents == [] {
      assert c + parents == c && d + parents == d;
      SameStreamOfChildren(c, d, name);
    } else {
      var front, last := parents[..|parents| - 1], parents[|parents| - 1];
      SameStreamAfterChildren(c, d, front, name);
      OneMore(c + front, last, name);
      OneMore(d + front, last, name);
      assert c + parents == (c + front) + [last] && d + parents == (d + front) + [last];
    }
  }

  /** The order of the children is irrelevant whatever the parent's own statistics are called, which come last. */
  lemma OrderOfChildrenIsIrrelevant(c: seq<Entry>, d: seq<Entry>, parents: seq<Entry>,
                                    s: map<string, Summary>, t: map<string, Summary>, name: string)
    requires multiset(c) == multiset(d) && (forall e :: e in c ==> OfChild(e))
    requires TotalsOf(s, c + parents) && TotalsOf(t, d + parents)
    ensures TOTAL + name in s <==> TOTAL + name in t
    ensures TOTAL + name in s ==> s[TOTAL + name] == t[TOTAL + name]
  {
    hide Stream, ShownAsTotal, Stripped;
    SameStreamAfterChildren(c, d, parents, name);
    TotalsAgree(s, t, Stream(c + parents, name), Stream(d + parents, name), name);
  }
}
