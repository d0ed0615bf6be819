/** Ranges of integers printed by `list2range` and read by `PackedDigitRange` (Utils.py). */
module PackedRange {
  import opened Common
  import opened Ordering
  import opened Text

  /** A range from lo to hi, or without end. */
  datatype Range = Range(lo: int, hi: Option<int>)

  datatype Packed = Packed(ranges: seq<Range>, ints: seq<int>)

  predicate InRange(r: Range, x: int) { r.lo <= x && (r.hi.None? || x <= r.hi.value) }

  /** `x in PackedDigitRange` */
  predicate Contains(p: Packed, x: int) { x in p.ints || exists i :: 0 <= i < |p.ranges| && InRange(p.ranges[i], x) }

  // ---------- reading ----------

  /** `int(s)` of digits with or without a sign; None where it raises ValueError. */
  function ParseInt(s: string): Option<int>
  {
    if s != "" && IsInteger(s) then Some(ToNumber(s))
    else if |s| > 1 && s[0] == '-' && IsInteger(s[1..]) then (var n: int := ToNumber(s[1..]); Some(-n))
    else None
  }

  function Strip(s: string): string
  {
    if s != "" && s[0] == ' ' then Strip(s[1..])
    else if s != "" && s[|s| - 1] == ' ' then Strip(s[..|s| - 1])
    else s
  }

  /** One more item of the constructor; a range that is not made of two numbers counts as an error. */
  function AddItem(p: Packed, text: string): Option<Packed>
  {
    var item := Strip(text);
    if item != "" && item[|item| - 1] == '-' then
      var lo := ParseInt(item[..|item| - 1]);
      if lo.None? then None else Some(p.(ranges := p.ranges + [Range(lo.value, None)]))
    else if '-' in item then
      var parts := Split(item, '-');
      if |parts| != 2 || ParseInt(parts[0]).None? || ParseInt(parts[1]).None? then None
      else Some(p.(ranges := p.ranges + [Range(ParseInt(parts[0]).value, Some(ParseInt(parts[1]).value))]))
    else if ParseInt(item).None? then None
    else Some(p.(ints := p.ints + [ParseInt(item).value]))
  }

  function AddItems(p: Packed, texts: seq<string>): Option<Packed>
    decreases |texts|
  {
    if texts == [] then Some(p)
    else match AddItem(p, texts[0]) case None => None case Some(q) => AddItems(q, texts[1..])
  }

  function Parse(text: string): Option<Packed>
  {
    AddItems(Packed([], []), if ',' in text then Split(text, ',') else [text])
  }

  /** The constructor, called with one string. */
  method ParseRanges(text: string) returns (p: Option<Packed>)
    ensures p == Parse(text)
  {
    hide AddItem;
    var items := if ',' in text then Split(text, ',') else [text];
    var packed := Packed([], []);
    for i := 0 to |items|
      invariant Parse(text) == AddItems(packed, items[i..])
    {
      assert items[i..][1..] == items[i + 1..];
      var q := AddItem(packed, items[i]);
      if q.None? { return None; }
      packed := q.value;
    }
    return Some(packed);
  }

  // ---------- printing ----------

  function IntText(n: int): string { if n < 0 then "-" + Dec(-n) else Dec(n) }

  /** A run of consecutive numbers as `list2range` shows it. */
  function SpanText(span: (int, int)): string
  {
    if span.0 == span.1 then IntText(span.0) else IntText(span.0) + "-" + IntText(span.1)
  }

  function SpanTexts(spans: seq<(int, int)>): seq<string>
  {
    if spans == [] then [] else [SpanText(spans[0])] + SpanTexts(spans[1..])
  }

  ghost predicate InSpans(spans: seq<(int, int)>, x: int)
  {
    exists i :: 0 <= i < |spans| && spans[i].0 <= x <= spans[i].1
  }

  /** Numbers above 0. */
  ghost predicate Positive(spans: seq<(int, int)>)
  {
    forall i :: 0 <= i < |spans| ==> 0 < spans[i].0 <= spans[i].1
  }

  // ---------- reading back what was printed ----------

  predicate Digits(s: string) { s != "" && IsInteger(s) }

  lemma DigitsArePlain(s: string)
    requires Digits(s)
    ensures Strip(s) == s && '-' !in s && ',' !in s && '[' !in s && ParseInt(s) == Some(ToNumber(s))
  {
    assert forall i :: 0 <= i < |s| ==> IsDigit(s[i]);
  }

  lemma AddRange(p: Packed, a: string, b: string)
    requires Digits(a) && Digits(b)
    ensures AddItem(p, a + "-" + b) == Some(p.(ranges := p.ranges + [Range(ToNumber(a), Some(ToNumber(b)))]))
    ensures ',' !in a + "-" + b && (a + "-" + b)[0] != '['
  {
    var item := a + "-" + b;
    DigitsArePlain(a);
    DigitsArePlain(b);
    assert item == a + ['-'] + b && item[|a|] == '-';
    SplitAt(a, '-', b);
    SplitWithout(b, '-');
    assert item[0] == a[0] && item[|item| - 1] == b[|b| - 1];
    assert IsDigit(a[0]) && IsDigit(b[|b| - 1]);
    hide IsInteger, Split, ParseInt;
    assert Strip(item) == item;
  }

  /** Adding the text of a positive span adds its numbers. */
  lemma AddSpan(p: Packed, span: (int, int))
    requires 0 < span.0 <= span.1
    ensures ',' !in SpanText(span) && SpanText(span) != "" && SpanText(span)[0] != '['
    ensures AddItem(p, SpanText(span)) == Some(
      if span.0 == span.1 then p.(ints := p.ints + [span.0])
      else p.(ranges := p.ranges + [Range(span.0, Some(span.1))]))
  {
    hide Strip, ParseInt, Split, Dec, ToNumber;
    DecReads(span.0);
    DecReads(span.1);
    DigitsArePlain(Dec(span.0));
    if span.0 != span.1 {
      hide AddItem;
      AddRange(p, Dec(span.0), Dec(span.1));
    }
  }

  lemma AddedContains(p: Packed, span: (int, int), x: int)
    requires span.0 <= span.1
    ensures var q := if span.0 == span.1 then p.(ints := p.ints + [span.0])
      else p.(ranges := p.ranges + [Range(span.0, Some(span.1))]);
      Contains(q, x) <==> Contains(p, x) || span.0 <= x <= span.1
  {
    var q := p.ranges + [Range(span.0, Some(span.1))];
    assert forall i :: 0 <= i < |p.ranges| ==> q[i] == p.ranges[i];
    assert q[|p.ranges|] == Range(span.0, Some(span.1));
  }

  lemma {:induction false} AddSpans(p: Packed, spans: seq<(int, int)>, x: int)
    requires Positive(spans)
    ensures AddItems(p, SpanTexts(spans)).Some?
    ensures Contains(AddItems(p, SpanTexts(spans)).value, x) <==> Contains(p, x) || InSpans(spans, x)
    decreases |spans|
  {
    if spans != [] {
      hide AddItem, SpanText, Contains;
      AddSpan(p, spans[0]);
      AddedContains(p, spans[0], x);
      var q := AddItem(p, SpanText(spans[0])).value;
      AddSpans(q, spans[1..], x);
      assert InSpans(spans, x) <==> spans[0].0 <= x <= spans[0].1 || InSpans(spans[1..], x) by { SpansSplit(spans, x); }
      assert SpanTexts(spans)[1..] == SpanTexts(spans[1..]);
    }
  }

  lemma SpansSplit(spans: seq<(int, int)>, x: int)
    requires spans != []
    ensures InSpans(spans, x) <==> spans[0].0 <= x <= spans[0].1 || InSpans(spans[1..], x)
  {
    assert forall i :: 1 <= i < |spans| ==> spans[i] == spans[1..][i - 1];
  }

  lemma {:induction false} TextsAreClean(spans: seq<(int, int)>)
    ensures |SpanTexts(spans)| == |spans| && forall i :: 0 <= i < |spans| ==> SpanTexts(spans)[i] == SpanText(spans[i])
  {
    if spans != [] { TextsAreClean(spans[1..]); }
  }

  /** What is printed for a number reads as that number; a sign alone does not. */
  lemma IntTextReads(n: int)
    ensures ParseInt(IntText(n)) == Some(n) && ParseInt("-") == None && ParseInt("") == None
    ensures n < 0 ==> IntText(n) == "-" + IntText(-n)
    ensures n >= 0 ==> IntText(n) == Dec(n)
  {
    DecReads(if n < 0 then -n else n);
    if n < 0 { assert IntText(n)[1..] == Dec(-n) && !IsDigit('-'); }
    hide ToNumber, Dec;
  }

  /** A number with a dash after it stands for that number and all above. */
  lemma OpenRangeReads(n: nat, x: int)
    ensures Parse(Dec(n) + "-").Some? && (Contains(Parse(Dec(n) + "-").value, x) <==> x >= n)
  {
    var item := Dec(n) + "-";
    DecReads(n);
    DigitsArePlain(Dec(n));
    assert item[0] == Dec(n)[0] && IsDigit(item[0]) && item[|item| - 1] == '-' && item[..|item| - 1] == Dec(n);
    hide Dec, ToNumber, IsInteger;
    assert Strip(item) == item;
    var p := Packed([Range(n, None)], []);
    assert ParseInt(item[..|item| - 1]) == Some(n) && Packed([], []).ranges + [Range(n, None)] == p.ranges;
    assert AddItem(Packed([], []), item) == Some(p);
    assert AddItems(Packed([], []), [item]) == Some(p) by { var none: seq<string> := []; assert [item][1..] == none; }
    assert ',' !in item;
    assert Contains(p, x) <==> InRange(p.ranges[0], x);
  }

  /** Spaces around a range or number do not matter. */
  lemma SpacesAreStripped(p: Packed, text: string)
    ensures AddItem(p, " " + text) == AddItem(p, text) == AddItem(p, text + " ")
  {
    assert (" " + text)[1..] == text && (text + " ")[..|text|] == text;
    StripBehind(text);
    hide ParseInt, Split;
  }

  lemma {:induction false} StripBehind(text: string)
    ensures Strip(text + " ") == Strip(text)
    decreases |text|
  {
    var s := text + " ";
    if text != "" && text[0] == ' ' {
      assert s[1..] == text[1..] + " ";
      StripBehind(text[1..]);
    } else {
      assert s[..|s| - 1] == text;
      if text == "" { assert s[1..] == ""; }
    }
  }

  /** Reading the joined texts is reading them one by one. */
  lemma ParseJoin(texts: seq<string>)
    requires texts != [] && forall t :: t in texts ==> ',' !in t
    ensures Parse(Join(texts, ',')) == AddItems(Packed([], []), texts)
  {
    hide AddItems;
    SplitJoin(texts, ',');
    if |texts| > 1 {
      assert Join(texts, ',')[|texts[0]|] == ',';
    } else {
      assert [texts[0]] == texts;
    }
  }

  /** What the texts of positive spans read back as. */
  lemma PositiveReadsBack(spans: seq<(int, int)>, x: int)
    requires Positive(spans) && spans != []
    ensures Parse(Join(SpanTexts(spans), ',')).Some?
    ensures Contains(Parse(Join(SpanTexts(spans), ',')).value, x) <==> InSpans(spans, x)
  {
    var texts := SpanTexts(spans);
    TextsAreClean(spans);
    forall t | t in texts ensures ',' !in t {
      var i :| 0 <= i < |texts| && texts[i] == t;
      SpanTextHasNoComma(spans[i]);
    }
    hide SpanTexts, SpanText, Parse;
    ParseJoin(texts);
    AddSpans(Packed([], []), spans, x);
  }

  /** A range that starts below 0 does not read back at all. */
  lemma NegativeFails(spans: seq<(int, int)>)
    requires spans != [] && spans[0].0 < 0
    ensures Parse(Join(SpanTexts(spans), ',')) == None
  {
    var texts := SpanTexts(spans);
    TextsAreClean(spans);
    forall t | t in texts ensures ',' !in t {
      var i :| 0 <= i < |texts| && texts[i] == t;
      SpanTextHasNoComma(spans[i]);
    }
    SpanTextHasNoComma(spans[0]);
    hide SpanTexts, SpanText, Parse;
    ParseJoin(texts);
    NegativeItem(Packed([], []), texts[0]);
  }

  lemma NegativeItem(p: Packed, item: string)
    requires item != "" && item[0] == '-' && IsDigit(item[|item| - 1])
    ensures AddItem(p, item) == None
  {
    SplitAt("", '-', item[1..]);
    assert item == "" + ['-'] + item[1..];
    assert Strip(item) == item;
    assert item[0] in item;
    assert Split(item, '-')[0] == "" && ParseInt("") == None;
  }

  lemma SpanTextHasNoComma(span: (int, int))
    ensures ',' !in SpanText(span) && SpanText(span) != "" && IsDigit(SpanText(span)[|SpanText(span)| - 1])
    ensures SpanText(span)[0] == '-' <==> span.0 < 0
    ensures SpanText(span)[0] == '-' || IsDigit(SpanText(span)[0])
    ensures span.0 != span.1 ==> '-' in SpanText(span)
    ensures span.0 == span.1 >= 0 ==> '-' !in SpanText(span)
  {
    IntTextIsPlain(span.0);
    IntTextIsPlain(span.1);
    if span.0 != span.1 {
      assert SpanText(span)[|IntText(span.0)|] == '-';
    }
  }

  lemma IntTextIsPlain(n: int)
    ensures ',' !in IntText(n) && IntText(n) != "" && IsDigit(IntText(n)[|IntText(n)| - 1])
    ensures IntText(n)[0] == '-' <==> n < 0
    ensures IntText(n)[0] == '-' || IsDigit(IntText(n)[0])
    ensures n >= 0 ==> '-' !in IntText(n)
  {
    DecReads(if n < 0 then -n else n);
    DigitsArePlain(Dec(if n < 0 then -n else n));
  }

  // ---------- list2range ----------

  /** The text without the brackets that surround several numbers. */
  function Unbracketed(text: string): string
  {
    if |text| >= 2 && text[0] == '[' then text[1..|text| - 1] else text
  }

  /** The text reads as exactly the members of the list. */
  ghost predicate ReadsAs(lst: seq<int>, text: string)
  {
    var p := Parse(text);
    p.Some? && forall x :: Contains(p.value, x) <==> x in lst
  }

  /** Reading the printed list, without its brackets, gives back exactly its members. */
  ghost predicate RoundTrips(lst: seq<int>, text: string)
  {
    ReadsAs(lst, Unbracketed(text))
  }

  /** How many numbers the spans hold together. */
  function Total(spans: seq<(int, int)>): int
  {
    if spans == [] then 0
    else Total(spans[..|spans| - 1]) + spans[|spans| - 1].1 - spans[|spans| - 1].0 + 1
  }

  predicate Le(a: int, b: int) { a <= b }

  /** Spans that start no lower than `low`, and not at 0. */
  ghost predicate Bounded(spans: seq<(int, int)>, low: int)
  {
    forall i :: 0 <= i < |spans| ==> low <= spans[i].0 <= spans[i].1 && spans[i].0 != 0
  }

  /** Where the loop over the sorted list has got to: `spans` are printed, `start` to `last` is open. */
  ghost predicate Spanned(sorted: seq<int>, k: nat, spans: seq<(int, int)>, start: Option<int>, last: Option<int>)
    requires k <= |sorted|
  {
    && (k == 0 ==> spans == [] && start.None? && last.None?)
    && (k > 0 ==> start.Some? && last == Some(sorted[k - 1]))
    && (k > 0 ==> sorted[0] <= start.value <= last.value && start.value in sorted)
    && (k > 0 ==> Bounded(spans, sorted[0]))
    && (k > 0 && sorted[0] < 0 ==> (if spans == [] then start.value < 0 else spans[0].0 < 0))
    && (k > 0 && sorted[0] > 0 ==> forall x :: x in sorted[..k] <==>
          InSpans(spans, x) || start.value <= x <= last.value)
    && (k > 0 && sorted[0] > 0 ==> k == Total(spans) + last.value - start.value + 1)
  }

  /** What the printed spans are in the end. */
  ghost predicate Finished(lst: seq<int>, spans: seq<(int, int)>)
  {
    && (lst == [] ==> spans == [])
    && (forall i :: 0 <= i < |spans| ==> spans[i].0 <= spans[i].1)
    && ((exists x :: x in lst && x < 0) ==> spans != [] && spans[0].0 < 0)
    && ((forall x :: x in lst ==> x >= 0) ==> Positive(spans))
    && ((forall x :: x in lst ==> x > 0) ==> forall x :: x in lst <==> InSpans(spans, x))
    && ((forall x :: x in lst ==> x > 0) ==> |lst| == Total(spans))
  }

  lemma PushSpan(spans: seq<(int, int)>, span: (int, int), x: int)
    ensures InSpans(spans + [span], x) <==> InSpans(spans, x) || span.0 <= x <= span.1
  {
    var after := spans + [span];
    assert forall i :: 0 <= i < |spans| ==> after[i] == spans[i];
    assert after[|spans|] == span;
  }

  lemma PushBounded(spans: seq<(int, int)>, span: (int, int), low: int)
    requires Bounded(spans, low) && low <= span.0 <= span.1 && span.0 != 0
    ensures Bounded(spans + [span], low) && (spans + [span])[0] == if spans == [] then span else spans[0]
  {
  }

  lemma PushTotal(spans: seq<(int, int)>, span: (int, int))
    ensures Total(spans + [span]) == Total(spans) + span.1 - span.0 + 1
  {
    assert (spans + [span])[..|spans|] == spans;
  }

  lemma {:induction false} TotalIsEnough(spans: seq<(int, int)>)
    requires forall i :: 0 <= i < |spans| ==> spans[i].0 <= spans[i].1
    ensures Total(spans) >= |spans|
  {
    if spans != [] { TotalIsEnough(spans[..|spans| - 1]); }
  }

  lemma FirstStep(sorted: seq<int>)
    ensures Spanned(sorted, 0, [], None, None)
  {
  }

  /** A number that continues the open run. */
  lemma ExtendRun(sorted: seq<int>, k: nat, spans: seq<(int, int)>, start: int, last: int)
    requires 0 < k < |sorted| && Spanned(sorted, k, spans, Some(start), Some(last)) && sorted[k] == last + 1
    ensures Spanned(sorted, k + 1, spans, Some(start), Some(sorted[k]))
  {
    assert sorted[..k + 1] == sorted[..k] + [sorted[k]];
  }

  /** A number that starts a new run: the open one, unless it starts at 0, is printed. */
  lemma StartRun(sorted: seq<int>, k: nat, spans: seq<(int, int)>, start: Option<int>, last: Option<int>)
    requires k < |sorted| && Spanned(sorted, k, spans, start, last) && (k > 0 ==> sorted[k - 1] <= sorted[k])
    requires forall i :: 0 <= i < k ==> sorted[i] <= sorted[k]
    ensures var pushed := if start.Some? && start.value != 0 then spans + [(start.value, last.value)] else spans;
      Spanned(sorted, k + 1, pushed, Some(sorted[k]), Some(sorted[k]))
  {
    assert sorted[..k + 1] == sorted[..k] + [sorted[k]];
    NothingSpanned(sorted[k]);
    hide InSpans, Total, Bounded;
    if start.Some? && start.value != 0 {
      forall x { PushSpan(spans, (start.value, last.value), x); }
      PushTotal(spans, (start.value, last.value));
      PushBounded(spans, (start.value, last.value), sorted[0]);
    }
  }

  lemma NothingSpanned(low: int)
    ensures Total([]) == 0 && Bounded([], low) && forall x :: !InSpans([], x)
  {
  }

  /** The loop is over and its last run, unless it starts at 0, is printed. */
  ghost predicate Closed(sorted: seq<int>, spans: seq<(int, int)>)
  {
    && (sorted == [] ==> spans == [])
    && (sorted != [] ==> Bounded(spans, sorted[0]))
    && (sorted != [] && sorted[0] < 0 ==> spans != [] && spans[0].0 < 0)
    && (sorted != [] && sorted[0] > 0 ==> forall x :: x in sorted <==> InSpans(spans, x))
    && (sorted != [] && sorted[0] > 0 ==> |sorted| == Total(spans))
  }

  lemma CloseRun(sorted: seq<int>, spans: seq<(int, int)>, start: Option<int>, last: Option<int>)
    requires Spanned(sorted, |sorted|, spans, start, last)
    ensures Closed(sorted, if start.Some? && start.value != 0 then spans + [(start.value, last.value)] else spans)
  {
    assert sorted[..|sorted|] == sorted;
    hide InSpans, Total, Bounded;
    if start.Some? && start.value != 0 {
      forall x { PushSpan(spans, (start.value, last.value), x); }
      PushTotal(spans, (start.value, last.value));
      PushBounded(spans, (start.value, last.value), sorted[0]);
    }
  }

  lemma LastRun(lst: seq<int>, sorted: seq<int>, spans: seq<(int, int)>)
    requires |sorted| == |lst| && (forall x :: x in sorted <==> x in lst)
    requires forall i :: 0 <= i < |sorted| ==> sorted[0] <= sorted[i]
    requires Closed(sorted, spans)
    ensures Finished(lst, spans)
  {
    if sorted == [] {
      NothingSpanned(0);
    } else {
      assert sorted[0] in lst;
    }
    hide InSpans, Total;
  }

  /** What `list2range` returns for its list of ranges. */
  function Output(ranges: seq<string>): string
  {
    if ranges == [] then ""
    else if |ranges| > 1 || '-' in ranges[0] then "[" + Join(ranges, ',') + "]"
    else ranges[0]
  }

  lemma OutputUnbracketed(spans: seq<(int, int)>)
    requires spans != []
    ensures Unbracketed(Output(SpanTexts(spans))) == Join(SpanTexts(spans), ',')
  {
    TextsAreClean(spans);
    SpanTextHasNoComma(spans[0]);
    hide SpanText;
    var texts := SpanTexts(spans);
    var inner := Join(texts, ',');
    assert ("[" + inner + "]")[1..|inner| + 1] == inner;
    assert '-' !in texts[0] ==> texts[0][0] != '-';
  }

  lemma NothingPrinted(lst: seq<int>, spans: seq<(int, int)>)
    requires Finished(lst, spans) && spans == []
    ensures lst == [] || !(forall x :: x in lst ==> x > 0)
  {
    if lst != [] {
      assert lst[0] in lst && !InSpans(spans, lst[0]);
    }
  }

  lemma ReadsBackExactly(lst: seq<int>, spans: seq<(int, int)>)
    requires Finished(lst, spans)
    ensures RoundTrips(lst, Output(SpanTexts(spans))) <==> lst != [] && forall x :: x in lst ==> x > 0
  {
    if spans == [] {
      assert AddItem(Packed([], []), "") == None;
      NothingPrinted(lst, spans);
    } else {
      OutputUnbracketed(spans);
      hide Parse, Contains, SpanTexts, Output, Unbracketed;
      if x :| x in lst && x < 0 {
        NegativeFails(spans);
      } else {
        forall x { PositiveReadsBack(spans, x); }
        assert !InSpans(spans, 0);
      }
    }
  }

  /** A text that starts with a bracket does not read back at all. */
  lemma BracketFails(text: string)
    requires text != "" && text[0] == '[' && text[|text| - 1] == ']'
    ensures Parse(text) == None
  {
    var item := if ',' in text then Split(text, ',')[0] else text;
    FirstPiece(text, ',');
    assert item != "" && item[0] == '[';
    hide Split;
    BracketedItem(Packed([], []), item);
  }

  lemma FirstPiece(text: string, sep: char)
    requires text != "" && text[0] != sep
    ensures Split(text, sep) != [] && Split(text, sep)[0] != "" && Split(text, sep)[0][0] == text[0]
  {
  }

  lemma BracketedItem(p: Packed, item: string)
    requires item != "" && item[0] == '['
    ensures AddItem(p, item) == None
  {
    StripKeepsFirst(item);
    var stripped := Strip(item);
    FirstPiece(stripped, '-');
    hide Strip, Split;
    assert !IsDigit('[');
  }

  lemma {:induction false} StripKeepsFirst(s: string)
    requires s != "" && s[0] != ' '
    ensures Strip(s) != "" && Strip(s)[0] == s[0]
  {
    if s[|s| - 1] == ' ' { StripKeepsFirst(s[..|s| - 1]); }
  }

  /** As it was printed, only a single number above 0 reads back: everything else has brackets, or is nothing. */
  lemma PrintedReadsBackExactly(lst: seq<int>, spans: seq<(int, int)>)
    requires Finished(lst, spans)
    ensures ReadsAs(lst, Output(SpanTexts(spans))) <==> |lst| == 1 && lst[0] > 0
  {
    TextsAreClean(spans);
    var texts := SpanTexts(spans);
    hide Parse, Contains, SpanText, SpanTexts, Finished;
    OneNumber(lst, spans);
    if spans == [] {
      EmptyFails();
    } else if |spans| > 1 || '-' in texts[0] {
      BracketFails("[" + Join(texts, ',') + "]");
    } else {
      SpanTextHasNoComma(spans[0]);
      ReadsBackExactly(lst, spans);
      OneSpan(lst, spans);
      assert Output(texts) == texts[0] && Unbracketed(texts[0]) == texts[0];
      assert lst != [] ==> lst[0] in lst;
    }
  }

  /** A single number above 0 is printed as one span without a dash. */
  lemma OneNumber(lst: seq<int>, spans: seq<(int, int)>)
    requires Finished(lst, spans)
    ensures |lst| == 1 && lst[0] > 0 ==> |spans| == 1 && '-' !in SpanText(spans[0])
  {
    hide SpanText;
    if |lst| == 1 && lst[0] > 0 {
      if spans == [] { NothingPrinted(lst, spans); }
      TotalIsEnough(spans);
      assert spans == [] + [spans[0]];
      PushTotal([], spans[0]);
      SpanTextHasNoComma(spans[0]);
    }
  }

  /** One span without a dash is a single number, if all of the list is above 0. */
  lemma OneSpan(lst: seq<int>, spans: seq<(int, int)>)
    requires Finished(lst, spans) && |spans| == 1 && '-' !in SpanText(spans[0])
    ensures (forall x :: x in lst ==> x > 0) ==> |lst| == 1
  {
    SpanTextHasNoComma(spans[0]);
    hide SpanText;
    assert spans == [] + [spans[0]];
    PushTotal([], spans[0]);
  }

  lemma EmptyFails()
    ensures Parse("") == None
  {
    assert AddItem(Packed([], []), "") == None;
  }

  lemma {:induction false} MoreTexts(spans: seq<(int, int)>, span: (int, int))
    ensures SpanTexts(spans + [span]) == SpanTexts(spans) + [SpanText(span)]
  {
    if spans == [] {
      assert SpanTexts([span]) == [SpanText(span)] + SpanTexts([span][1..]);
    } else {
      assert (spans + [span])[1..] == spans[1..] + [span];
      MoreTexts(spans[1..], span);
    }
  }

  /** No span goes on where the one before it has ended. */
  ghost predicate Apart(spans: seq<(int, int)>)
  {
    forall i :: 0 <= i < |spans| - 1 && spans[i].1 > 0 ==> spans[i + 1].0 != spans[i].1 + 1
  }

  /** The spans are apart from each other and from the open run. */
  ghost predicate ApartFrom(spans: seq<(int, int)>, start: Option<int>)
  {
    Apart(spans) && (spans != [] && start.Some? ==>
      var end := spans[|spans| - 1].1; end <= start.value && (end > 0 ==> start.value != end + 1))
  }

  lemma RunApart(spans: seq<(int, int)>, start: int, last: int, i: int)
    requires ApartFrom(spans, Some(start)) && start <= last <= i && (last == 0 || i != last + 1)
    ensures ApartFrom(if start != 0 then spans + [(start, last)] else spans, Some(i))
  {
  }

  /**
   Without its brackets the printed list reads back as its members exactly if it is not empty and holds only
   numbers above 0; as it was printed, exactly if it holds one such number. Consecutive numbers above 0
   are printed as one range.
   */
  method List2Range(lst: seq<int>) returns (text: string, ghost spans: seq<(int, int)>)
    ensures text == Output(SpanTexts(spans)) && Apart(spans)
    ensures RoundTrips(lst, text) <==> lst != [] && forall x :: x in lst ==> x > 0
    ensures ReadsAs(lst, text) <==> |lst| == 1 && lst[0] > 0
  {
    hide Spanned, Closed, RoundTrips, ReadsAs, Finished, SpanText, ApartFrom, Apart, SpanTexts, Output;
    NothingApart();
    var ilst := SortInts(lst);
    var ranges: seq<string> := [];
    var start: Option<int>, last: Option<int> := None, None;
    spans := [];
    FirstStep(ilst);
    for k := 0 to |ilst|
      invariant Spanned(ilst, k, spans, start, last) && ranges == SpanTexts(spans)
      invariant ApartFrom(spans, start)
      invariant if k == 0 then spans == [] && start.None? && last.None?
        else start.Some? && last.Some? && last.value == ilst[k - 1] && start.value <= last.value
    {
      var i := ilst[k];
      if last.None? || last.value == 0 || i != last.value + 1 {
        StartRun(ilst, k, spans, start, last);
        if start.Some? { RunApart(spans, start.value, last.value, i); } else { NothingApart(); }
        if start.Some? && start.value != 0 {
          MoreTexts(spans, (start.value, last.value));
          ranges := ranges + [SpanText((start.value, last.value))];
          spans := spans + [(start.value, last.value)];
        }
        start := Some(i);
      } else {
        OpenRun(ilst, k, spans, start, last);
        ExtendRun(ilst, k, spans, start.value, last.value);
      }
      last := Some(i);
    }
    CloseRun(ilst, spans, start, last);
    if start.Some? { RunApart(spans, start.value, last.value, last.value + 2); }
    if start.Some? && start.value != 0 {
      MoreTexts(spans, (start.value, last.value));
      ranges := ranges + [SpanText((start.value, last.value))];
      spans := spans + [(start.value, last.value)];
    }
    LastRun(lst, ilst, spans);
    ReadsBackExactly(lst, spans);
    PrintedReadsBackExactly(lst, spans);
    EndApart(spans, if last.Some? then Some(last.value + 2) else None);
    text := Output(ranges);
  }

  lemma NothingApart()
    ensures forall start :: ApartFrom([], start)
    ensures SpanTexts([]) == []
  {
  }

  lemma EndApart(spans: seq<(int, int)>, start: Option<int>)
    requires ApartFrom(spans, start)
    ensures Apart(spans)
  {
  }

  lemma OpenRun(sorted: seq<int>, k: nat, spans: seq<(int, int)>, start: Option<int>, last: Option<int>)
    requires k < |sorted| && Spanned(sorted, k, spans, start, last) && last.Some?
    ensures k > 0 && start.Some? && last == Some(sorted[k - 1])
  {
  }

  method SortInts(lst: seq<int>) returns (sorted: seq<int>)
    ensures |sorted| == |lst| && forall x :: x in sorted <==> x in lst
    ensures forall i, j :: 0 <= i < j < |sorted| ==> sorted[i] <= sorted[j]
  {
    var p := Order(lst, Le);
    sorted := Apply(p, lst);
    OrderSorts(lst, Le);
    hide Order, Apply;
    assert forall i, j :: 0 <= i < j < |p| ==> Le(lst[p[i]], lst[p[j]]);
    forall x | x in lst ensures x in sorted {
      var j :| 0 <= j < |lst| && lst[j] == x;
      var i := PermHits(p, |lst|, j);
      assert sorted[i] == x;
    }
  }
}
