/** Numbers as text, and lists of texts joined and split at a character. */
module Text {

  // ---------- digits ----------

  predicate IsDigit(c: char) { '0' <= c <= '9' }

  predicate IsLetter(c: char) { 'a' <= c <= 'z' || 'A' <= c <= 'Z' }

  predicate IsInteger(s: string) { forall i :: 0 <= i < |s| ==> IsDigit(s[i]) }

  /** The digits and letters are those of ASCII. */
  lemma DigitsAndLetters(c: char)
    ensures IsDigit(c) <==> c in "0123456789"
    ensures IsLetter(c) <==> c in "abcdefghijklmnopqrstuvwxyz" || c in "ABCDEFGHIJKLMNOPQRSTUVWXYZ"
  {
  }

  function Dec(n: nat): string
  {
    if n < 10 then [('0' as int + n) as char] else Dec(n / 10) + [('0' as int + n % 10) as char]
  }

  function ToNumber(s: string): nat
    requires IsInteger(s)
  {
    if s == "" then 0 else ToNumber(s[..|s| - 1]) * 10 + (s[|s| - 1] as int - '0' as int)
  }

  lemma {:induction false} DecReads(n: nat)
    ensures IsInteger(Dec(n)) && ToNumber(Dec(n)) == n && Dec(n) != ""
    ensures n < 10 ==> |Dec(n)| == 1
    ensures 10 <= n < 100 ==> |Dec(n)| == 2
    ensures 100 <= n < 1000 ==> |Dec(n)| == 3
    ensures 1000 <= n < 10000 ==> |Dec(n)| == 4
  {
    if n >= 10 {
      DecReads(n / 10);
      assert Dec(n)[..|Dec(n)| - 1] == Dec(n / 10);
    }
  }

  // ---------- parts of a text ----------

  /** The characters of s between two positions, as far as there are any. */
  function Substring(s: string, from: nat, to: nat): string
  {
    var end := if to <= |s| then to else |s|;
    if from <= end then s[from..end] else ""
  }

  // ---------- lists ----------

  /** `s.split(sep)` */
  function Split(s: string, sep: char): (r: seq<string>)
    ensures r != []
  {
    if s == "" then [""]
    else
      var rest := Split(s[1..], sep);
      if s[0] == sep then [""] + rest else [[s[0]] + rest[0]] + rest[1..]
  }

  /** `sep.join(parts)` */
  function Join(parts: seq<string>, sep: char): string
  {
    if parts == [] then "" else if |parts| == 1 then parts[0] else parts[0] + [sep] + Join(parts[1..], sep)
  }

  lemma {:induction false} SplitWithout(s: string, sep: char)
    requires sep !in s
    ensures Split(s, sep) == [s]
  {
    if s != "" {
      SplitWithout(s[1..], sep);
      assert s == [s[0]] + s[1..];
    }
  }

  lemma {:induction false} SplitAt(s: string, sep: char, rest: string)
    requires sep !in s
    ensures Split(s + [sep] + rest, sep) == [s] + Split(rest, sep)
  {
    var t := s + [sep] + rest;
    if s == "" {
      assert t[1..] == rest;
    } else {
      SplitAt(s[1..], sep, rest);
      assert t[1..] == s[1..] + [sep] + rest;
      assert s == [s[0]] + s[1..];
    }
  }

  /** The last piece of one list goes on with the first of the other. */
  function Merged(a: seq<string>, b: seq<string>): (r: seq<string>)
    requires a != [] && b != []
    ensures r != []
  {
    a[..|a| - 1] + [a[|a| - 1] + b[0]] + b[1..]
  }

  /** Splitting two texts put together merges their pieces. */
  lemma {:induction false} SplitOfConcat(s: string, t: string, sep: char)
    ensures Split(s + t, sep) == Merged(Split(s, sep), Split(t, sep))
  {
    if s == "" {
      assert s + t == t && "" + Split(t, sep)[0] == Split(t, sep)[0];
    } else {
      assert (s + t)[1..] == s[1..] + t;
      SplitOfConcat(s[1..], t, sep);
      MergedMore(Split(s[1..], sep), Split(t, sep), s[0]);
      hide Merged;
    }
  }

  lemma MergedMore(a: seq<string>, b: seq<string>, c: char)
    requires a != [] && b != []
    ensures Merged([""] + a, b) == [""] + Merged(a, b)
    ensures Merged([[c] + a[0]] + a[1..], b) == [[c] + Merged(a, b)[0]] + Merged(a, b)[1..]
  {
    assert [c] + a[0] + b[0] == [c] + (a[0] + b[0]);
  }

  /** The first piece ends where the text or the first separator does. */
  lemma SplitHead(s: string, sep: char)
    ensures Split(s, sep)[0] == "" <==> s == "" || s[0] == sep
    ensures s != "" && s[0] != sep ==> Split(s, sep)[0][0] == s[0]
  {
    if s != "" && s[0] != sep { assert Split(s, sep)[0] == [s[0]] + Split(s[1..], sep)[0]; }
  }

  /** The last piece is the end of the text. */
  lemma {:induction false} SplitEnd(s: string, sep: char)
    ensures var parts := Split(s, sep); var e := parts[|parts| - 1]; e != "" ==> s != "" && e[|e| - 1] == s[|s| - 1]
  {
    if s != "" { SplitEnd(s[1..], sep); }
  }

  /** Splitting undoes joining parts that do not hold the separator. */
  lemma {:induction false} SplitJoin(parts: seq<string>, sep: char)
    requires parts != [] && forall p :: p in parts ==> sep !in p
    ensures Split(Join(parts, sep), sep) == parts
  {
    if |parts| == 1 {
      SplitWithout(parts[0], sep);
    } else {
      SplitJoin(parts[1..], sep);
      SplitAt(parts[0], sep, Join(parts[1..], sep));
    }
  }
}
