/** Version ordering and pruning of package lists (rpmlisting.py), for ASCII versions and the order of Python 2. */
module RpmVersions {
  import opened Ordering
  import opened Text

  // ---------- versions as lists of parts ----------

  /** A sub-part of a version: a number, or a run of letters or of other characters. */
  datatype Sub = Num(n: nat) | Str(s: string)

  datatype CharClass = DigitClass | AlphaClass | OtherClass

  function ClassOf(c: char): CharClass
  {
    if IsDigit(c) then DigitClass else if IsLetter(c) then AlphaClass else OtherClass
  }

  function RunLength(s: string): (n: nat)
    requires s != ""
    ensures 1 <= n <= |s| && forall i :: 0 <= i < n ==> ClassOf(s[i]) == ClassOf(s[0])
  {
    if |s| > 1 && ClassOf(s[1]) == ClassOf(s[0]) then 1 + RunLength(s[1..]) else 1
  }

  function SubOf(run: string): Sub { if run != "" && IsInteger(run) then Num(ToNumber(run)) else Str(run) }

  /** The sub-parts of what stands between two periods. */
  function SubParts(s: string): seq<Sub>
    decreases |s|
  {
    if s == "" then [] else [SubOf(s[..RunLength(s)])] + SubParts(s[RunLength(s)..])
  }

  function Repeat<T>(x: T, n: nat): seq<T> { if n == 0 then [] else Repeat(x, n - 1) + [x] }

  /** Every part occurs as often as it has sub-parts: the one list is appended once for each of them. */
  function Parts(majors: seq<string>): seq<seq<Sub>>
  {
    if majors == [] then []
    else
      var last := SubParts(majors[|majors| - 1]);
      Parts(majors[..|majors| - 1]) + Repeat(last, |last|)
  }

  function Subdivided(version: string): seq<seq<Sub>> { Parts(Split(version, '.')) }

  /** Lists of sub-parts, none of them empty. */
  predicate Proper(ps: seq<seq<Sub>>) { forall i :: 0 <= i < |ps| ==> ps[i] != [] }

  lemma {:induction false} RepeatIs<T>(x: T, n: nat)
    ensures |Repeat(x, n)| == n && forall i :: 0 <= i < n ==> Repeat(x, n)[i] == x
  {
    if n > 0 { RepeatIs(x, n - 1); }
  }

  lemma {:induction false} PartsAreProper(majors: seq<string>)
    ensures Proper(Parts(majors))
  {
    if majors != [] {
      PartsAreProper(majors[..|majors| - 1]);
      var last := SubParts(majors[|majors| - 1]);
      RepeatIs(last, |last|);
    }
  }

  // ---------- comparing ----------

  function CmpStr(a: string, b: string): int { if a == b then 0 else if LexLe(a, b) then -1 else 1 }

  /** Python 2: numbers come before strings. */
  function CmpSub(a: Sub, b: Sub): int
  {
    match (a, b)
    case (Num(m), Num(n)) => if m < n then -1 else if m > n then 1 else 0
    case (Num(_), Str(_)) => -1
    case (Str(_), Num(_)) => 1
    case (Str(s), Str(t)) => CmpStr(s, t)
  }

  predicate PreRelease(x: Sub) { x.Str? && ("rc" <= x.s || "pre" <= x.s) }

  function CmpSubs(a: seq<Sub>, b: seq<Sub>): int
  {
    if a == [] && b == [] then 0
    else if b == [] then (if PreRelease(a[0]) then -1 else |a|)
    else if a == [] then (if PreRelease(b[0]) then 1 else -|b|)
    else if CmpSub(a[0], b[0]) != 0 then CmpSub(a[0], b[0])
    else CmpSubs(a[1..], b[1..])
  }

  function CmpParts(a: seq<seq<Sub>>, b: seq<seq<Sub>>): int
    requires Proper(a) && Proper(b)
  {
    if a == [] && b == [] then 0
    else if b == [] then (if PreRelease(a[0][0]) then -1 else |a|)
    else if a == [] then (if PreRelease(b[0][0]) then 1 else -|b|)
    else if CmpSubs(a[0], b[0]) != 0 then CmpSubs(a[0], b[0])
    else CmpParts(a[1..], b[1..])
  }

  function VerStrCmp(a: string, b: string): int
  {
    PartsAreProper(Split(a, '.'));
    PartsAreProper(Split(b, '.'));
    CmpParts(Subdivided(a), Subdivided(b))
  }

  lemma CmpStrLaws(a: string, b: string, c: string)
    ensures CmpStr(a, b) == -CmpStr(b, a)
    ensures CmpStr(a, b) <= 0 && CmpStr(b, c) <= 0 ==> CmpStr(a, c) <= 0
    ensures CmpStr(a, b) <= 0 && CmpStr(b, c) <= 0 && CmpStr(a, c) == 0 ==> CmpStr(a, b) == 0 && CmpStr(b, c) == 0
  {
    LexTotal(a, b);
    LexTotal(a, c);
    LexTotal(b, c);
    if LexLe(a, b) && LexLe(b, a) { LexAntisym(a, b); }
    if LexLe(a, b) && LexLe(b, c) { LexTrans(a, b, c); }
    if LexLe(b, c) && LexLe(c, b) { LexAntisym(b, c); }
    if LexLe(a, c) && LexLe(c, a) { LexAntisym(a, c); }
    if LexLe(a, b) && LexLe(b, c) && a == c { LexAntisym(a, b); }
  }

  lemma CmpSubLaws(a: Sub, b: Sub, c: Sub)
    ensures CmpSub(a, b) == -CmpSub(b, a)
    ensures CmpSub(a, b) == 0 <==> a == b
    ensures CmpSub(a, b) <= 0 && CmpSub(b, c) <= 0 ==> CmpSub(a, c) <= 0
    ensures CmpSub(a, b) <= 0 && CmpSub(b, c) <= 0 && CmpSub(a, c) == 0 ==> CmpSub(a, b) == 0 && CmpSub(b, c) == 0
  {
    if a.Str? && b.Str? {
      CmpStrLaws(a.s, b.s, if c.Str? then c.s else "");
    }
  }

  lemma {:induction false} SubsAntisymmetric(a: seq<Sub>, b: seq<Sub>)
    ensures CmpSubs(a, b) == -CmpSubs(b, a)
    ensures CmpSubs(a, b) == 0 <==> a == b
  {
    if a != [] && b != [] {
      CmpSubLaws(a[0], b[0], a[0]);
      SubsAntisymmetric(a[1..], b[1..]);
      assert a == [a[0]] + a[1..] && b == [b[0]] + b[1..];
    }
  }

  lemma {:induction false} PartsAntisymmetric(a: seq<seq<Sub>>, b: seq<seq<Sub>>)
    requires Proper(a) && Proper(b)
    ensures CmpParts(a, b) == -CmpParts(b, a)
    ensures CmpParts(a, b) == 0 <==> a == b
  {
    if a != [] && b != [] {
      SubsAntisymmetric(a[0], b[0]);
      PartsAntisymmetric(a[1..], b[1..]);
      assert a == [a[0]] + a[1..] && b == [b[0]] + b[1..];
    }
  }

  /** Swapping the versions negates the result, which is 0 only for versions with the same parts. */
  lemma VerStrCmpIsAntisymmetric(a: string, b: string)
    ensures VerStrCmp(a, b) == -VerStrCmp(b, a)
    ensures VerStrCmp(a, b) == 0 <==> Subdivided(a) == Subdivided(b)
  {
    PartsAreProper(Split(a, '.'));
    PartsAreProper(Split(b, '.'));
    PartsAntisymmetric(Subdivided(a), Subdivided(b));
  }

  /**
   The first sub-part that differs decides; a longer list is above its beginning unless it goes
   on with a pre-release.
   */
  lemma {:induction false} FirstDifferenceDecides(same: seq<Sub>, a: seq<Sub>, b: seq<Sub>)
    ensures a != [] && b != [] && a[0] != b[0] ==> CmpSubs(same + a, same + b) == CmpSub(a[0], b[0]) != 0
    ensures a != [] ==> (CmpSubs(same + a, same) < 0 <==> PreRelease(a[0])) && CmpSubs(same + a, same) != 0
  {
    if same == [] {
      assert same + a == a && same + b == b;
      if a != [] && b != [] { CmpSubLaws(a[0], b[0], a[0]); }
    } else {
      CmpSubLaws(same[0], same[0], same[0]);
      assert (same + a)[1..] == same[1..] + a && (same + b)[1..] == same[1..] + b;
      FirstDifferenceDecides(same[1..], a, b);
    }
  }

  /** The same for whole versions: the first part that differs, or else the length. */
  lemma {:induction false} FirstPartDecides(same: seq<seq<Sub>>, a: seq<seq<Sub>>, b: seq<seq<Sub>>)
    requires Proper(same) && Proper(a) && Proper(b)
    ensures Proper(same + a) && Proper(same + b)
    ensures a != [] && b != [] && a[0] != b[0] ==> CmpParts(same + a, same + b) == CmpSubs(a[0], b[0]) != 0
    ensures a != [] ==> (CmpParts(same + a, same) < 0 <==> PreRelease(a[0][0])) && CmpParts(same + a, same) != 0
  {
    hide CmpSubs;
    if same == [] {
      assert same + a == a && same + b == b;
      if a != [] && b != [] { SubsAntisymmetric(a[0], b[0]); }
    } else {
      SubsAntisymmetric(same[0], same[0]);
      assert (same + a)[1..] == same[1..] + a && (same + b)[1..] == same[1..] + b;
      FirstPartDecides(same[1..], a, b);
    }
  }

  // ---------- when versions are ordered at all ----------

  /** A final sub-part that compares below a pre-release one. */
  predicate FinalBelowPre(x: Sub, y: Sub) { !PreRelease(x) && PreRelease(y) && CmpSub(x, y) < 0 }

  predicate Crossed(x: Sub, y: Sub) { FinalBelowPre(x, y) || FinalBelowPre(y, x) }

  /** After a common beginning, one list ends, one goes on with a pre-release and one with a final sub-part below it. */
  predicate TangledSubs(a: seq<Sub>, b: seq<Sub>, c: seq<Sub>)
  {
    if a == [] then b != [] && c != [] && Crossed(b[0], c[0])
    else if b == [] then c != [] && Crossed(a[0], c[0])
    else if c == [] then Crossed(a[0], b[0])
    else a[0] == b[0] == c[0] && TangledSubs(a[1..], b[1..], c[1..])
  }

  predicate TangledParts(a: seq<seq<Sub>>, b: seq<seq<Sub>>, c: seq<seq<Sub>>)
    requires Proper(a) && Proper(b) && Proper(c)
  {
    if a == [] then b != [] && c != [] && Crossed(b[0][0], c[0][0])
    else if b == [] then c != [] && Crossed(a[0][0], c[0][0])
    else if c == [] then Crossed(a[0][0], b[0][0])
    else if a[0] == b[0] == c[0] then TangledParts(a[1..], b[1..], c[1..])
    else TangledSubs(a[0], b[0], c[0])
  }

  predicate Tangled(a: string, b: string, c: string)
  {
    PartsAreProper(Split(a, '.'));
    PartsAreProper(Split(b, '.'));
    PartsAreProper(Split(c, '.'));
    TangledParts(Subdivided(a), Subdivided(b), Subdivided(c))
  }

  /** The results of comparing three things one after the other lead back to the start. */
  predicate Circle(ab: int, bc: int, ca: int) { (ab < 0 && bc < 0 && ca < 0) || (ab > 0 && bc > 0 && ca > 0) }

  lemma {:induction false} CirclesOfSubs(a: seq<Sub>, b: seq<Sub>, c: seq<Sub>)
    ensures Circle(CmpSubs(a, b), CmpSubs(b, c), CmpSubs(c, a)) <==> TangledSubs(a, b, c)
  {
    if a != [] && b != [] && c != [] {
      CmpSubLaws(a[0], b[0], c[0]);
      CmpSubLaws(b[0], c[0], a[0]);
      CmpSubLaws(c[0], a[0], b[0]);
      CmpSubLaws(c[0], b[0], a[0]);
      CirclesOfSubs(a[1..], b[1..], c[1..]);
    } else {
      if a != [] && b != [] { CmpSubLaws(a[0], b[0], a[0]); }
      if b != [] && c != [] { CmpSubLaws(b[0], c[0], b[0]); }
      if a != [] && c != [] { CmpSubLaws(a[0], c[0], a[0]); }
    }
  }

  lemma {:induction false} CirclesOfParts(a: seq<seq<Sub>>, b: seq<seq<Sub>>, c: seq<seq<Sub>>)
    requires Proper(a) && Proper(b) && Proper(c)
    ensures Circle(CmpParts(a, b), CmpParts(b, c), CmpParts(c, a)) <==> TangledParts(a, b, c)
  {
    if a != [] && b != [] && c != [] {
      CirclesOfSubs(a[0], b[0], c[0]);
      SubsAntisymmetric(a[0], b[0]);
      SubsAntisymmetric(b[0], c[0]);
      SubsAntisymmetric(c[0], a[0]);
      hide CmpSubs, TangledSubs;
      if a[0] == b[0] == c[0] { CirclesOfParts(a[1..], b[1..], c[1..]); }
    } else {
      if a != [] && b != [] { CrossedHeads(a[0], b[0]); }
      if b != [] && c != [] { CrossedHeads(b[0], c[0]); }
      if a != [] && c != [] { CrossedHeads(a[0], c[0]); }
      hide CmpSubs;
    }
  }

  /** A pre-release against a final first sub-part decides the comparison of two parts. */
  lemma CrossedHeads(a: seq<Sub>, b: seq<Sub>)
    requires a != [] && b != []
    ensures PreRelease(a[0]) != PreRelease(b[0]) ==>
      CmpSubs(a, b) == CmpSub(a[0], b[0]) == -CmpSub(b[0], a[0]) == -CmpSubs(b, a) != 0
    ensures CmpSubs(a, b) == -CmpSubs(b, a)
  {
    CmpSubLaws(a[0], b[0], a[0]);
    SubsAntisymmetric(a, b);
  }

  /** Three versions go in a circle exactly if they are tangled. */
  lemma VersionsGoInCirclesExactly(a: string, b: string, c: string)
    ensures Circle(VerStrCmp(a, b), VerStrCmp(b, c), VerStrCmp(c, a)) <==> Tangled(a, b, c)
  {
    hide Subdivided, CmpParts, TangledParts, Proper;
    SubdividedIsProper(a);
    SubdividedIsProper(b);
    SubdividedIsProper(c);
    CirclesOfParts(Subdivided(a), Subdivided(b), Subdivided(c));
  }

  /** Versions that are not tangled are totally preordered. */
  lemma VerStrCmpOrders(a: string, b: string, c: string)
    requires !Tangled(a, b, c)
    ensures VerStrCmp(a, b) == -VerStrCmp(b, a)
    ensures VerStrCmp(a, b) <= 0 && VerStrCmp(b, c) <= 0 ==> VerStrCmp(a, c) <= 0
    ensures VerStrCmp(a, b) <= 0 && VerStrCmp(b, c) <= 0 && VerStrCmp(a, c) == 0 ==>
      VerStrCmp(a, b) == 0 && VerStrCmp(b, c) == 0
  {
    VersionsGoInCirclesExactly(a, b, c);
    VerStrCmpIsAntisymmetric(a, b);
    VerStrCmpIsAntisymmetric(a, c);
    VerStrCmpIsAntisymmetric(b, c);
    SameParts(a, b, c);
    SameParts(b, a, c);
    SameParts(a, c, b);
    SameParts(b, c, a);
    hide VerStrCmp, Tangled, Subdivided;
  }

  /** Versions with the same parts compare alike. */
  lemma SameParts(a: string, b: string, c: string)
    ensures Subdivided(a) == Subdivided(b) ==> VerStrCmp(a, c) == VerStrCmp(b, c) && VerStrCmp(c, a) == VerStrCmp(c, b)
  {
    hide Subdivided, CmpParts;
  }

  // ---------- what the order means for the texts ----------

  /** The run of one character class that a text starts with. */
  function Run(s: string): string
    requires s != ""
  {
    s[..RunLength(s)]
  }

  /** A run of digits that no digit follows, or of letters that no letter follows, is a sub-part. */
  lemma {:induction false} RunIs(run: string, rest: string)
    requires run != "" && forall i :: 0 <= i < |run| ==> ClassOf(run[i]) == ClassOf(run[0])
    requires rest != "" ==> ClassOf(rest[0]) != ClassOf(run[0])
    ensures RunLength(run + rest) == |run| && Run(run + rest) == run
  {
    hide ClassOf;
    var s := run + rest;
    if |run| == 1 {
      assert |s| > 1 ==> s[1] == rest[0];
    } else {
      assert s[1..] == run[1..] + rest;
      RunIs(run[1..], rest);
    }
    assert s[..|run|] == run;
  }

  /** Where the character class changes, the sub-parts of a text fall apart. */
  lemma {:induction false} SubPartsOfConcat(s: string, t: string)
    requires s != "" && t != "" ==> ClassOf(s[|s| - 1]) != ClassOf(t[0])
    ensures SubParts(s + t) == SubParts(s) + SubParts(t)
    decreases |s|
  {
    hide ClassOf, SubOf;
    if s == "" {
      assert s + t == t;
    } else {
      var n := RunLength(s);
      RunOfConcat(s, t);
      assert (s + t)[..n] == s[..n] && (s + t)[n..] == s[n..] + t;
      SubPartsOfConcat(s[n..], t);
    }
  }

  lemma {:induction false} RunOfConcat(s: string, t: string)
    requires s != "" && (t != "" ==> ClassOf(s[|s| - 1]) != ClassOf(t[0]))
    ensures RunLength(s + t) == RunLength(s)
  {
    hide ClassOf;
    if |s| > 1 {
      assert (s + t)[1..] == s[1..] + t && (s + t)[1] == s[1];
      RunOfConcat(s[1..], t);
    }
  }

  lemma {:induction false} PartsOfConcat(s: seq<string>, t: seq<string>)
    ensures Parts(s + t) == Parts(s) + Parts(t)
  {
    hide SubParts, Repeat;
    if t == [] {
      assert s + t == s;
    } else {
      var n := |t| - 1;
      assert (s + t)[..|s| + n] == s + t[..n];
      PartsOfConcat(s, t[..n]);
    }
  }

  /** What a version starts with, when a text not starting with a period is put after a beginning. */
  lemma PartsAfter(p: string, u: string)
    returns (same: seq<seq<Sub>>, begun: seq<Sub>, more: seq<Sub>, rest: seq<seq<Sub>>)
    requires u != "" && u[0] != '.' && (p != "" ==> ClassOf(p[|p| - 1]) != ClassOf(u[0]))
    ensures same == Parts(Split(p, '.')[..|Split(p, '.')| - 1]) && begun == SubParts(Split(p, '.')[|Split(p, '.')| - 1])
    ensures more == SubParts(Split(u, '.')[0]) && more != [] && more[0] == SubOf(Run(Split(u, '.')[0]))
    ensures Subdivided(p + u) == same + ([begun + more] + rest) && Proper(same) && Proper(rest)
  {
    hide ClassOf, SubOf, Parts, RunLength, Run, Proper, Repeat;
    var ps, us := Split(p, '.'), Split(u, '.');
    var q := ps[|ps| - 1];
    SplitOfConcat(p, u, '.');
    SplitHead(u, '.');
    SplitEnd(p, '.');
    SubPartsOfConcat(q, us[0]);
    same, begun, more := Parts(ps[..|ps| - 1]), SubParts(q), SubParts(us[0]);
    HeadSub(us[0]);
    PartsOfConcat(ps[..|ps| - 1] + [q + us[0]], us[1..]);
    PartsOfConcat(ps[..|ps| - 1], [q + us[0]]);
    OnePart(q + us[0]);
    rest := Repeat(begun + more, |begun + more| - 1) + Parts(us[1..]);
    RepeatFront(begun + more, |begun + more|);
    PartsAreProper(ps[..|ps| - 1]);
    PartsAreProper(us[1..]);
    hide SubParts, Split;
    ProperMore(begun + more, |begun + more| - 1, Parts(us[1..]));
    assert Subdivided(p + u) == same + Repeat(begun + more, |begun + more|) + Parts(us[1..]);
    assert [begun + more] + rest == Repeat(begun + more, |begun + more|) + Parts(us[1..]);
  }

  lemma HeadSub(s: string)
    requires s != ""
    ensures SubParts(s) != [] && SubParts(s)[0] == SubOf(Run(s))
  {
  }

  lemma OnePart(s: string)
    ensures Parts([s]) == Repeat(SubParts(s), |SubParts(s)|)
  {
    hide SubParts, Repeat;
    assert [s][..0] == [] && Parts([]) == [];
  }

  lemma {:induction false} RepeatFront<T>(x: T, n: nat)
    requires n > 0
    ensures Repeat(x, n) == [x] + Repeat(x, n - 1)
  {
    if n > 1 { RepeatFront(x, n - 1); }
  }

  lemma ProperMore(x: seq<Sub>, n: nat, rest: seq<seq<Sub>>)
    requires x != [] && Proper(rest)
    ensures Proper(Repeat(x, n) + rest)
  {
    RepeatIs(x, n);
  }

  /** After a common beginning, the first sub-parts decide if they differ. */
  lemma NextSubDecides(p: string, u: string, v: string)
    requires u != "" && u[0] != '.' && (p != "" ==> ClassOf(p[|p| - 1]) != ClassOf(u[0]))
    requires v != "" && v[0] != '.' && (p != "" ==> ClassOf(p[|p| - 1]) != ClassOf(v[0]))
    ensures var x, y := SubParts(Split(u, '.')[0]), SubParts(Split(v, '.')[0]);
      x != [] && y != [] && (x[0] != y[0] ==> VerStrCmp(p + u, p + v) == CmpSub(x[0], y[0]))
  {
    hide ClassOf, SubOf, SubParts, Split, Run, RunLength, Parts, CmpSub, CmpSubs, CmpParts;
    var same, begun, x, restU := PartsAfter(p, u);
    var same2, begun2, y, restV := PartsAfter(p, v);
    if x[0] != y[0] {
      assert (begun + x)[|begun|] == x[0] && (begun + y)[|begun|] == y[0];
      FirstDifferenceDecides(begun, x, y);
      FirstPartDecides(same, [begun + x] + restU, [begun + y] + restV);
      assert ([begun + x] + restU)[0] == begun + x && ([begun + y] + restV)[0] == begun + y;
    }
  }

  /** The sub-part that a run of digits or of letters is, whatever other characters follow it. */
  lemma SubOfRun(run: string, rest: string)
    requires run != "" && (IsInteger(run) || IsWord(run))
    requires rest != "" ==> ClassOf(rest[0]) != ClassOf(run[0])
    ensures Split(run + rest, '.')[0] != "" && SubParts(Split(run + rest, '.')[0])[0] == SubOf(run)
  {
    hide SubParts, Run, SubOf;
    SplitOfConcat(run, rest, '.');
    assert '.' !in run;
    SplitWithout(run, '.');
    SplitHead(rest, '.');
    var s := Split(rest, '.')[0];
    assert Split(run + rest, '.')[0] == run + s;
    RunIs(run, s);
    HeadSub(run + s);
  }

  predicate IsWord(s: string) { forall i :: 0 <= i < |s| ==> IsLetter(s[i]) }

  /**
   Numbers go by their value. After a beginning that ends with no digit and before texts that
   start with none, the lower number makes the lower version.
   */
  lemma LowerNumberIsLower(p: string, m: nat, n: nat, u: string, v: string)
    requires m < n && (p != "" ==> !IsDigit(p[|p| - 1]))
    requires (u != "" ==> !IsDigit(u[0])) && (v != "" ==> !IsDigit(v[0]))
    ensures VerStrCmp(p + (Dec(m) + u), p + (Dec(n) + v)) < 0
  {
    hide VerStrCmp, SubParts, Split;
    DecReads(m);
    DecReads(n);
    SubOfRun(Dec(m), u);
    SubOfRun(Dec(n), v);
    NextSubDecides(p, Dec(m) + u, Dec(n) + v);
  }

  /** Numbers are below words: where one version goes on with digits and one with letters, the digits are lower. */
  lemma NumbersAreBelowWords(p: string, digits: string, word: string, u: string, v: string)
    requires digits != "" && IsInteger(digits) && word != "" && IsWord(word)
    requires p != "" ==> !IsDigit(p[|p| - 1]) && !IsLetter(p[|p| - 1])
    requires (u != "" ==> !IsDigit(u[0])) && (v != "" ==> !IsLetter(v[0]))
    ensures VerStrCmp(p + (digits + u), p + (word + v)) < 0
  {
    hide VerStrCmp, SubParts, Split, ToNumber;
    assert IsLetter(word[0]);
    SubOfRun(digits, u);
    SubOfRun(word, v);
    NextSubDecides(p, digits + u, word + v);
  }

  /** Words go by their letters. */
  lemma WordsGoByLetters(p: string, a: string, b: string, u: string, v: string)
    requires a != "" && IsWord(a) && b != "" && IsWord(b) && a != b && (p != "" ==> !IsLetter(p[|p| - 1]))
    requires (u != "" ==> !IsLetter(u[0])) && (v != "" ==> !IsLetter(v[0]))
    ensures VerStrCmp(p + (a + u), p + (b + v)) < 0 <==> LexLe(a, b)
  {
    hide VerStrCmp, SubParts, Split, ToNumber, LexLe;
    assert IsLetter(a[0]) && IsLetter(b[0]);
    SubOfRun(a, u);
    SubOfRun(b, v);
    NextSubDecides(p, a + u, b + v);
  }

  /**
   A word after a version makes a pre-release, which is lower, if it starts with rc or pre, and
   else a higher version.
   */
  lemma WordAfterVersion(p: string, word: string, u: string)
    requires word != "" && IsWord(word) && (p != "" ==> !IsLetter(p[|p| - 1])) && (u != "" ==> !IsLetter(u[0]))
    ensures VerStrCmp(p + (word + u), p) != 0
    ensures VerStrCmp(p + (word + u), p) < 0 <==> "rc" <= word || "pre" <= word
  {
    hide ClassOf, RunLength, Split, SubParts, Parts, CmpSubs, CmpParts;
    assert IsLetter(word[0]);
    ClassOfLetter(p, word[0]);
    ClassOfLetter(u, word[0]);
    SubOfRun(word, u);
    var same, begun, x, rest := PartsAfter(p, word + u);
    var ps := Split(p, '.');
    assert x[0] == Str(word);
    PartsOfConcat(ps[..|ps| - 1], [ps[|ps| - 1]]);
    assert ps == ps[..|ps| - 1] + [ps[|ps| - 1]];
    OnePart(ps[|ps| - 1]);
    var a := [begun + x] + rest;
    if begun == [] {
      assert begun + x == x;
      assert Subdivided(p) == same;
      FirstPartDecides(same, a, []);
    } else {
      RepeatFront(begun, |begun|);
      RepeatIs(begun, |begun| - 1);
      var b := [begun] + Repeat(begun, |begun| - 1);
      assert Subdivided(p) == same + b;
      FirstDifferenceDecides(begun, x, []);
      assert begun + [] == begun;
      assert |begun + x| > |begun|;
      FirstPartDecides(same, a, b);
    }
  }

  lemma ClassOfLetter(p: string, c: char)
    requires IsLetter(c)
    ensures p != "" && !IsLetter(p[|p| - 1]) ==> ClassOf(p[|p| - 1]) != ClassOf(c)
    ensures p != "" && !IsLetter(p[0]) ==> ClassOf(p[0]) != ClassOf(c)
  {
  }

  predicate NoPre(s: seq<Sub>) { forall i :: 0 <= i < |s| ==> !PreRelease(s[i]) }

  predicate NoPreParts(ps: seq<seq<Sub>>) { forall i :: 0 <= i < |ps| ==> NoPre(ps[i]) }

  /** The version has no sub-part that starts with rc or pre. */
  predicate Final(version: string) { NoPreParts(Subdivided(version)) }

  lemma {:induction false} FinalSubsAreUntangled(a: seq<Sub>, b: seq<Sub>, c: seq<Sub>)
    requires NoPre(a) && NoPre(b) && NoPre(c)
    ensures !TangledSubs(a, b, c)
  {
    if a != [] && b != [] && c != [] { FinalSubsAreUntangled(a[1..], b[1..], c[1..]); }
  }

  lemma {:induction false} FinalPartsAreUntangled(a: seq<seq<Sub>>, b: seq<seq<Sub>>, c: seq<seq<Sub>>)
    requires Proper(a) && Proper(b) && Proper(c) && NoPreParts(a) && NoPreParts(b) && NoPreParts(c)
    ensures !TangledParts(a, b, c)
  {
    if a != [] && b != [] && c != [] {
      FinalSubsAreUntangled(a[0], b[0], c[0]);
      FinalPartsAreUntangled(a[1..], b[1..], c[1..]);
    }
  }

  /** Versions without pre-release sub-parts are totally preordered. */
  lemma VerStrCmpIsTransitive(a: string, b: string, c: string)
    requires Final(a) && Final(b) && Final(c) && VerStrCmp(a, b) <= 0 && VerStrCmp(b, c) <= 0
    ensures VerStrCmp(a, c) <= 0
  {
    hide Subdivided, VerStrCmp;
    SubdividedIsProper(a);
    SubdividedIsProper(b);
    SubdividedIsProper(c);
    FinalPartsAreUntangled(Subdivided(a), Subdivided(b), Subdivided(c));
    VerStrCmpOrders(a, b, c);
  }

  /** With pre-releases the order goes in circles: 1rc is above 1a, 1a above 1, and 1 above 1rc. */
  lemma PreReleasesGoInCircles()
    ensures VerStrCmp("1rc", "1a") > 0 && VerStrCmp("1a", "1") > 0 && VerStrCmp("1", "1rc") > 0
  {
    hide SubParts, Split, Parts, RunLength, Proper;
    OneAnd("rc");
    OneAnd("a");
    OneAnd("");
    assert "1" + "rc" == "1rc" && "1" + "a" == "1a" && "1" + "" == "1";
    assert [Num(1), Str("rc")][1..] == [Str("rc")] && [Num(1), Str("a")][1..] == [Str("a")];
  }

  lemma OneAnd(letters: string)
    requires |letters| <= 2 && forall i :: 0 <= i < |letters| ==> IsLetter(letters[i])
    ensures Subdivided("1" + letters) == if letters == "" then [[Num(1)]] else Repeat([Num(1), Str(letters)], 2)
  {
    var v := "1" + letters;
    assert v[1..] == letters && v[..1] == "1";
    assert ToNumber("1") == 1 by { assert "1"[..0] == ""; }
    assert RunLength(v) == 1;
    if letters != "" {
      assert RunLength(letters) == |letters|;
      assert letters[..|letters|] == letters && letters[|letters|..] == "";
    }
    assert SubParts(v) == [Num(1)] + SubParts(letters);
    assert SubParts(letters) == if letters == "" then [] else [Str(letters)];
    SplitWithout(v, '.');
    assert SubParts(v) == if letters == "" then [Num(1)] else [Num(1), Str(letters)];
    var none: seq<string> := [];
    assert [v][..0] == none && Parts(none) == [];
    assert Parts([v]) == [] + Repeat(SubParts(v), |SubParts(v)|);
    assert Repeat([Num(1)], 1) == Repeat([Num(1)], 0) + [[Num(1)]];
  }

  // ---------- the loops of verstr_cmp and subdivide ----------

  /** A list of sub-parts that can be appended to while it is already in the list of parts. */
  class SubList {
    var items: seq<Sub>

    constructor ()
      ensures items == []
    {
      items := [];
    }
  }

  ghost function Contents(parts: seq<SubList>): (r: seq<seq<Sub>>)
    reads parts
    ensures |r| == |parts| && forall i :: 0 <= i < |parts| ==> r[i] == parts[i].items
  {
    if parts == [] then [] else Contents(parts[..|parts| - 1]) + [parts[|parts| - 1].items]
  }

  /** Takes one run off a part. */
  method NextSub(major_part: string, start: nat) returns (sub: Sub, index: nat)
    requires start < |major_part|
    ensures start < index <= |major_part|
    ensures SubParts(major_part[start..]) == [sub] + SubParts(major_part[index..])
  {
    var run := "";
    index := start;
    while index < |major_part| && ClassOf(major_part[index]) == ClassOf(major_part[start])
      invariant start <= index <= |major_part| && run == major_part[start..index]
      invariant forall k :: start <= k < index ==> ClassOf(major_part[k]) == ClassOf(major_part[start])
    {
      run := run + [major_part[index]];
      index := index + 1;
    }
    sub := SubOf(run);
    RunLengthIsMaximal(major_part[start..], index - start);
    assert major_part[start..][..index - start] == run && major_part[start..][index - start..] == major_part[index..];
  }

  lemma {:induction false} RunLengthIsMaximal(s: string, n: nat)
    requires 1 <= n <= |s| && (forall i :: 0 <= i < n ==> ClassOf(s[i]) == ClassOf(s[0]))
    requires n == |s| || ClassOf(s[n]) != ClassOf(s[0])
    ensures RunLength(s) == n
    decreases n
  {
    if n > 1 { RunLengthIsMaximal(s[1..], n - 1); }
  }

  /** The parts with as many more entries as the last list has sub-parts, every one of them that list. */
  ghost predicate Extends(r: seq<SubList>, parts: seq<SubList>, subs: seq<Sub>)
    reads r
  {
    |r| == |parts| + |subs| && parts <= r && forall i :: |parts| <= i < |r| ==> r[i].items == subs
  }

  lemma ExtendedContents(r: seq<SubList>, parts: seq<SubList>, subs: seq<Sub>)
    requires Extends(r, parts, subs)
    ensures Contents(r) == Contents(parts) + Repeat(subs, |subs|)
  {
    RepeatIs(subs, |subs|);
  }

  /** One major part: the new list is appended to `parts` once for each of its sub-parts. */
  method SubdividePart(major_part: string, parts: seq<SubList>) returns (r: seq<SubList>)
    ensures Extends(r, parts, SubParts(major_part))
  {
    hide SubParts;
    var minor_parts := new SubList();
    var index := 0;
    r := parts;
    EmptySubParts(major_part[|major_part|..]);
    assert major_part[0..] == major_part;
    while index < |major_part|
      invariant index <= |major_part| && parts <= r && |r| == |parts| + |minor_parts.items|
      invariant SubParts(major_part) == minor_parts.items + SubParts(major_part[index..])
      invariant forall i :: |parts| <= i < |r| ==> r[i] == minor_parts
    {
      var sub;
      sub, index := NextSub(major_part, index);
      minor_parts.items := minor_parts.items + [sub];
      r := r + [minor_parts];
    }
  }

  lemma EmptySubParts(s: string)
    requires s == ""
    ensures SubParts(s) == []
  {
  }

  method Subdivide(version: string) returns (parts: seq<SubList>)
    ensures Contents(parts) == Subdivided(version)
  {
    hide SubParts, Split, Repeat, Contents;
    parts := [];
    NoContents();
    var major_parts := Split(version, '.');
    for i := 0 to |major_parts|
      invariant Contents(parts) == Parts(major_parts[..i])
    {
      assert major_parts[..i + 1][..i] == major_parts[..i];
      var more := SubdividePart(major_parts[i], parts);
      ExtendedContents(more, parts, SubParts(major_parts[i]));
      parts := more;
    }
    assert major_parts[..|major_parts|] == major_parts;
  }

  lemma NoContents()
    ensures Contents([]) == []
  {
  }

  /** Compares two lists of sub-parts, as the inner loop and the check after it do. */
  method CompareSubs(a: seq<Sub>, b: seq<Sub>) returns (ret: int)
    ensures ret == CmpSubs(a, b)
  {
    var subindex := 0;
    while subindex < |a| && subindex < |b|
      invariant subindex <= |a| && subindex <= |b|
      invariant CmpSubs(a, b) == CmpSubs(a[subindex..], b[subindex..])
    {
      ret := CmpSub(a[subindex], b[subindex]);
      if ret != 0 { return; }
      subindex := subindex + 1;
    }
    if |a| > |b| && PreRelease(a[subindex]) { return -1; }
    if |a| < |b| && PreRelease(b[subindex]) { return 1; }
    return |a| - |b|;
  }

  method VerStrCompare(a: string, b: string) returns (ret: int)
    ensures ret == VerStrCmp(a, b)
  {
    hide Subdivided, Contents, CmpSubs, PreRelease;
    var aLists := Subdivide(a);
    var bLists := Subdivide(b);
    ghost var x, y := Contents(aLists), Contents(bLists);
    SubdividedIsProper(a);
    SubdividedIsProper(b);
    ContentsAt(aLists);
    ContentsAt(bLists);
    var index := 0;
    while index < |aLists| && index < |bLists|
      invariant index <= |aLists| && index <= |bLists|
      invariant CmpParts(x, y) == CmpParts(x[index..], y[index..])
      invariant forall i :: 0 <= i < |x| ==> x[i] == aLists[i].items
      invariant forall i :: 0 <= i < |y| ==> y[i] == bLists[i].items
    {
      ret := CompareSubs(aLists[index].items, bLists[index].items);
      assert x[index..][1..] == x[index + 1..] && y[index..][1..] == y[index + 1..];
      if ret != 0 { return; }
      index := index + 1;
    }
    CmpEnds(x, y, index);
    if |aLists| > |bLists| && PreRelease(aLists[index].items[0]) { return -1; }
    if |aLists| < |bLists| && PreRelease(bLists[index].items[0]) { return 1; }
    return |aLists| - |bLists|;
  }

  lemma ContentsAt(parts: seq<SubList>)
    ensures |Contents(parts)| == |parts| && forall i :: 0 <= i < |parts| ==> Contents(parts)[i] == parts[i].items
  {
  }

  lemma CmpEnds(a: seq<seq<Sub>>, b: seq<seq<Sub>>, i: nat)
    requires Proper(a) && Proper(b) && (i == |a| <= |b| || i == |b| <= |a|)
    ensures CmpParts(a[i..], b[i..]) ==
      if |a| > |b| && PreRelease(a[i][0]) then -1 else if |a| < |b| && PreRelease(b[i][0]) then 1 else |a| - |b|
  {
  }

  lemma SubdividedIsProper(version: string)
    ensures Proper(Subdivided(version))
  {
    PartsAreProper(Split(version, '.'));
  }

  // ---------- pruning ----------

  datatype Blob = Blob(file: string, name: string, version: string, release: string, subarch: string)

  function BlobCmp(a: Blob, b: Blob): int
  {
    if CmpStr(a.name, b.name) != 0 then CmpStr(a.name, b.name)
    else if VerStrCmp(a.version, b.version) != 0 then VerStrCmp(a.version, b.version)
    else VerStrCmp(a.release, b.release)
  }

  /** The versions and the releases of three packages are not tangled. */
  predicate Comparable(a: Blob, b: Blob, c: Blob)
  {
    !Tangled(a.version, b.version, c.version) && !Tangled(a.release, b.release, c.release)
  }

  /** All packages of the list can be ordered. */
  ghost predicate Orderable(bs: seq<Blob>)
  {
    forall a, b, c :: a in bs && b in bs && c in bs ==> Comparable(a, b, c)
  }

  /** The order in which `sort(rpmblob_cmp, reverse=True)` puts blobs: the highest first. */
  predicate NotBelow(a: Blob, b: Blob) { BlobCmp(a, b) >= 0 }

  lemma BlobCmpIsPreorder(a: Blob, b: Blob, c: Blob)
    requires Comparable(a, b, c)
    ensures BlobCmp(a, b) == -BlobCmp(b, a)
    ensures BlobCmp(a, b) <= 0 && BlobCmp(b, c) <= 0 ==> BlobCmp(a, c) <= 0
  {
    hide VerStrCmp, CmpStr, Tangled, Subdivided;
    CmpStrLaws(a.name, b.name, c.name);
    VerStrCmpOrders(a.version, b.version, c.version);
    VerStrCmpOrders(a.release, b.release, c.release);
  }

  predicate SameRelease(a: Blob, b: Blob) { a.version == b.version && a.release == b.release }

  function SameReleaseAs(bs: seq<Blob>, first: Blob): seq<Blob>
  {
    if bs == [] then []
    else SameReleaseAs(bs[..|bs| - 1], first) + if SameRelease(bs[|bs| - 1], first) then [bs[|bs| - 1]] else []
  }

  /** The blobs of one package after sorting and keeping the version and release of the first. */
  function Latest(bs: seq<Blob>): seq<Blob>
    requires bs != []
  {
    var sorted := Apply(Order(bs, NotBelow), bs);
    SameReleaseAs(sorted, sorted[0])
  }

  lemma {:induction false} SameReleaseAsFilters(bs: seq<Blob>, first: Blob)
    ensures forall b :: b in SameReleaseAs(bs, first) <==> b in bs && SameRelease(b, first)
  {
    if bs != [] {
      SameReleaseAsFilters(bs[..|bs| - 1], first);
      assert bs == bs[..|bs| - 1] + [bs[|bs| - 1]];
    }
  }

  lemma SortedHasTheSameBlobs(bs: seq<Blob>)
    ensures forall b :: b in Apply(Order(bs, NotBelow), bs) <==> b in bs
  {
    var p := Order(bs, NotBelow);
    hide Order, Apply;
    forall b | b in bs ensures b in Apply(p, bs) {
      var k :| 0 <= k < |bs| && bs[k] == b;
      var i := PermHits(p, |bs|, k);
      assert Apply(p, bs)[i] == b;
    }
  }

  lemma OrderableIsPreordered(bs: seq<Blob>)
    requires Orderable(bs)
    ensures PreorderOn(bs, NotBelow)
  {
    hide BlobCmp, Comparable;
    forall i, j | 0 <= i < |bs| && 0 <= j < |bs| ensures NotBelow(bs[i], bs[j]) || NotBelow(bs[j], bs[i]) {
      BlobCmpIsPreorder(bs[i], bs[j], bs[i]);
    }
    forall i, j, k | 0 <= i < |bs| && 0 <= j < |bs| && 0 <= k < |bs| && NotBelow(bs[i], bs[j]) && NotBelow(bs[j], bs[k])
      ensures NotBelow(bs[i], bs[k])
    {
      BlobCmpIsPreorder(bs[k], bs[j], bs[i]);
      BlobCmpIsPreorder(bs[j], bs[i], bs[i]);
      BlobCmpIsPreorder(bs[i], bs[k], bs[i]);
    }
  }

  /** The blobs of one entry of `pkgs`: at least one, all of the same name. */
  predicate OnePackage(bs: seq<Blob>) { bs != [] && forall b :: b in bs ==> b.name == bs[0].name }

  /** What is kept is one version-release that no blob of the package exceeds, and all blobs of it. */
  lemma LatestIsNotExceeded(bs: seq<Blob>)
    requires OnePackage(bs) && Orderable(bs)
    ensures Latest(bs) != [] && forall b :: b in Latest(bs) <==> b in bs && SameRelease(b, Latest(bs)[0])
    ensures forall b, k :: b in bs && k in Latest(bs) ==> BlobCmp(b, k) <= 0
  {
    hide BlobCmp, Comparable, Order, SameReleaseAs;
    OrderableIsPreordered(bs);
    OrderSorts(bs, NotBelow);
    SortedHasTheSameBlobs(bs);
    var p := Order(bs, NotBelow);
    var sorted := Apply(p, bs);
    SameReleaseAsFilters(sorted, sorted[0]);
    assert sorted[0] in sorted && sorted[0] in Latest(bs);
    assert Latest(bs)[0] in Latest(bs);
    forall b, k | b in bs && k in Latest(bs) ensures BlobCmp(b, k) <= 0 {
      var i :| 0 <= i < |sorted| && sorted[i] == b;
      assert i > 0 ==> NotBelow(sorted[0], b);
      assert Comparable(sorted[0], b, b);
      FirstIsHighest(sorted[0], b, k, i == 0);
    }
  }

  lemma FirstIsHighest(first: Blob, b: Blob, k: Blob, same: bool)
    requires if same then b == first else NotBelow(first, b)
    requires Comparable(first, b, b) && SameRelease(k, first) && b.name == k.name == first.name
    ensures BlobCmp(b, k) <= 0
  {
    hide VerStrCmp, Tangled;
    BlobCmpIsPreorder(first, b, b);
    VerStrCmpIsAntisymmetric(first.version, first.version);
    VerStrCmpIsAntisymmetric(first.release, first.release);
  }

  // ---------- plain numbers ----------

  /** Decimal numbers without leading zeros. */
  predicate Plain(s: string) { s != "" && IsInteger(s) && Dec(ToNumber(s)) == s }

  lemma PlainParts(s: string)
    requires Plain(s)
    ensures Subdivided(s) == [[Num(ToNumber(s))]] && Final(s)
  {
    hide ToNumber, Dec, Subdivided;
    RunIs(s, "");
    assert s + "" == s && s[..|s|] == s && s[|s|..] == "";
    assert '.' !in s;
    SplitWithout(s, '.');
    assert SubParts(s) == [Num(ToNumber(s))] + SubParts("");
    assert SubParts("") == [];
    OnePart(s);
    PlainSubdivided(s, Num(ToNumber(s)));
  }

  lemma PlainSubdivided(s: string, x: Sub)
    requires Split(s, '.') == [s] && SubParts(s) == [x] && x.Num? && Parts([s]) == Repeat([x], 1)
    ensures Subdivided(s) == [[x]] && Final(s)
  {
    hide SubParts, Split, Parts;
    assert Repeat([x], 1) == Repeat([x], 0) + [[x]];
  }

  /** Plain numbers compare by their value. */
  lemma PlainsGoByValue(s: string, t: string)
    requires Plain(s) && Plain(t)
    ensures VerStrCmp(s, t) < 0 <==> ToNumber(s) < ToNumber(t)
    ensures VerStrCmp(s, t) == 0 <==> s == t
  {
    hide VerStrCmp, ToNumber, Dec, Subdivided;
    VerStrCmpIsAntisymmetric(s, t);
    PlainParts(s);
    PlainParts(t);
    assert "" + (s + "") == s && "" + (t + "") == t;
    if ToNumber(s) < ToNumber(t) { LowerNumberIsLower("", ToNumber(s), ToNumber(t), "", ""); }
    if ToNumber(s) > ToNumber(t) { LowerNumberIsLower("", ToNumber(t), ToNumber(s), "", ""); }
  }

  /** The versions and releases of all blobs are plain numbers. */
  predicate Numbered(bs: seq<Blob>) { forall b :: b in bs ==> Plain(b.version) && Plain(b.release) }

  /** A higher version, or the same and a higher release. */
  predicate Above(c: Blob, b: Blob)
    requires Plain(c.version) && Plain(c.release) && Plain(b.version) && Plain(b.release)
  {
    var v, w := ToNumber(c.version), ToNumber(b.version);
    v > w || (v == w && ToNumber(c.release) > ToNumber(b.release))
  }

  lemma AboveIsHigher(c: Blob, b: Blob)
    requires Plain(c.version) && Plain(c.release) && Plain(b.version) && Plain(b.release) && c.name == b.name
    ensures Above(c, b) <==> BlobCmp(c, b) > 0
    ensures BlobCmp(c, b) == 0 <==> SameRelease(c, b)
  {
    hide VerStrCmp, ToNumber, Dec, Plain;
    PlainsGoByValue(b.version, c.version);
    PlainsGoByValue(b.release, c.release);
    PlainsGoByValue(c.version, b.version);
    PlainsGoByValue(c.release, b.release);
    VerStrCmpIsAntisymmetric(b.version, c.version);
    VerStrCmpIsAntisymmetric(b.release, c.release);
  }

  lemma NumberedIsOrderable(bs: seq<Blob>)
    requires Numbered(bs)
    ensures Orderable(bs)
  {
    hide Plain, Tangled;
    forall a, b, c | a in bs && b in bs && c in bs ensures Comparable(a, b, c) {
      PlainIsUntangled(a.version, b.version, c.version);
      PlainIsUntangled(a.release, b.release, c.release);
    }
  }

  lemma PlainIsUntangled(a: string, b: string, c: string)
    requires Plain(a) && Plain(b) && Plain(c)
    ensures !Tangled(a, b, c)
  {
    hide Plain, Subdivided;
    PlainParts(a);
    PlainParts(b);
    PlainParts(c);
    FinalPartsAreUntangled(Subdivided(a), Subdivided(b), Subdivided(c));
  }

  ghost predicate KeepsTheHighest(bs: seq<Blob>, kept: seq<Blob>)
    requires Numbered(bs)
  {
    forall b :: b in kept <==> b in bs && forall c :: c in bs ==> !Above(c, b)
  }

  /** Of versions and releases that are plain numbers exactly the highest are kept. */
  lemma HighestNumberIsKept(bs: seq<Blob>, b: Blob)
    requires OnePackage(bs) && Numbered(bs)
    ensures b in Latest(bs) <==> b in bs && forall c :: c in bs ==> !Above(c, b)
  {
    hide Latest, BlobCmp, Plain, Above, Comparable, SameRelease;
    NumberedIsOrderable(bs);
    LatestIsNotExceeded(bs);
    forall c | c in bs && b in bs ensures Above(c, b) <==> BlobCmp(c, b) > 0 {
      AboveIsHigher(c, b);
    }
    var k := Latest(bs)[0];
    assert k in Latest(bs) && k in bs;
    if b in bs {
      AboveIsHigher(k, b);
      assert BlobCmp(b, k) <= 0;
      AboveIsHigher(b, k);
      NumbersAreAntisymmetric(b, k);
      SameReleaseIsSymmetric(b, k);
    }
  }

  lemma SameReleaseIsSymmetric(b: Blob, k: Blob)
    ensures SameRelease(b, k) <==> SameRelease(k, b)
  {
  }

  lemma NumbersAreAntisymmetric(b: Blob, k: Blob)
    requires Plain(b.version) && Plain(b.release) && Plain(k.version) && Plain(k.release)
    requires BlobCmp(b, k) <= 0 && b.name == k.name
    ensures BlobCmp(k, b) >= 0
  {
    hide VerStrCmp, Plain;
    VerStrCmpIsAntisymmetric(b.version, k.version);
    VerStrCmpIsAntisymmetric(b.release, k.release);
  }

  // ---------- one subarch per architecture ----------

  const SUBARCH_MAPPING: map<string, string> := map[
    "athlon" := "x86", "i686" := "x86", "i586" := "x86", "i486" := "x86", "i386" := "x86",
    "x86_64" := "x86_64", "noarch" := "noarch"]

  const ARCH_MAPPING: map<string, seq<string>> := map[
    "x86" := ["athlon", "i686", "i586", "i486", "i386"], "x86_64" := ["x86_64"], "noarch" := ["noarch"]]

  /** `subarchs.index(subarch)` in the list of its architecture. */
  function Rank(subarch: string): nat
  {
    if subarch == "i686" then 1 else if subarch == "i586" then 2 else if subarch == "i486" then 3
    else if subarch == "i386" then 4 else 0
  }

  lemma RankIsIndex(subarch: string)
    requires subarch in SUBARCH_MAPPING
    ensures var arch := SUBARCH_MAPPING[subarch];
      arch in ARCH_MAPPING && Rank(subarch) < |ARCH_MAPPING[arch]| && ARCH_MAPPING[arch][Rank(subarch)] == subarch
  {
  }

  predicate KnownArch(b: Blob) { b.subarch in SUBARCH_MAPPING }

  function ArchOf(b: Blob): string
    requires KnownArch(b)
  {
    SUBARCH_MAPPING[b.subarch]
  }

  /** No blob of the same architecture before position i has so low a rank. */
  ghost predicate FirstOfRank(bs: seq<Blob>, i: nat)
    requires i < |bs| && forall b :: b in bs ==> KnownArch(b)
  {
    forall j :: 0 <= j < i && ArchOf(bs[j]) == ArchOf(bs[i]) ==> Rank(bs[j].subarch) > Rank(bs[i].subarch)
  }

  /** For each architecture among the blobs, one of them, of a subarch that none of the others precedes. */
  ghost predicate Sifted(sifter: map<string, Blob>, bs: seq<Blob>)
    requires forall b :: b in bs ==> KnownArch(b)
  {
    && (forall b :: b in bs ==> ArchOf(b) in sifter)
    && (forall arch :: arch in sifter ==> sifter[arch] in bs && ArchOf(sifter[arch]) == arch)
    && (forall b :: b in bs ==> Rank(sifter[ArchOf(b)].subarch) <= Rank(b.subarch))
  }

  /** Every blob kept is the first of its rank among the first n. */
  ghost predicate KeepsFirst(sifter: map<string, Blob>, bs: seq<Blob>, n: nat)
    requires n <= |bs| && forall b :: b in bs ==> KnownArch(b)
  {
    forall arch :: arch in sifter ==> exists i :: 0 <= i < n && sifter[arch] == bs[i] && FirstOfRank(bs, i)
  }

  method SiftArchs(rpmblobs: seq<Blob>) returns (arch_sifter: map<string, Blob>)
    requires forall b :: b in rpmblobs ==> KnownArch(b)
    ensures Sifted(arch_sifter, rpmblobs) && KeepsFirst(arch_sifter, rpmblobs, |rpmblobs|)
  {
    hide Rank, KeepsFirst;
    arch_sifter := map[];
    NothingKept(rpmblobs);
    for i := 0 to |rpmblobs|
      invariant Sifted(arch_sifter, rpmblobs[..i]) && KeepsFirst(arch_sifter, rpmblobs, i)
    {
      var challenger := rpmblobs[i];
      assert rpmblobs[..i + 1] == rpmblobs[..i] + [challenger];
      KeepFirst(arch_sifter, rpmblobs, i);
      var arch := ArchOf(challenger);
      if arch !in arch_sifter {
        arch_sifter := arch_sifter[arch := challenger];
      } else if Rank(challenger.subarch) < Rank(arch_sifter[arch].subarch) {
        arch_sifter := arch_sifter[arch := challenger];
      }
    }
    assert rpmblobs[..|rpmblobs|] == rpmblobs;
  }

  lemma NothingKept(bs: seq<Blob>)
    requires forall b :: b in bs ==> KnownArch(b)
    ensures KeepsFirst(map[], bs, 0)
  {
  }

  lemma KeepFirst(sifter: map<string, Blob>, bs: seq<Blob>, n: nat)
    requires n < |bs| && (forall b :: b in bs ==> KnownArch(b))
    requires Sifted(sifter, bs[..n]) && KeepsFirst(sifter, bs, n)
    ensures KeepsFirst(sifter, bs, n + 1)
    ensures var arch := ArchOf(bs[n]);
      arch !in sifter || Rank(bs[n].subarch) < Rank(sifter[arch].subarch) ==>
        KeepsFirst(sifter[arch := bs[n]], bs, n + 1)
  {
    hide Rank, ArchOf;
    var arch := ArchOf(bs[n]);
    forall j | 0 <= j < n && ArchOf(bs[j]) == arch
      ensures arch in sifter && Rank(sifter[arch].subarch) <= Rank(bs[j].subarch)
    {
      assert bs[j] in bs[..n];
    }
    if arch !in sifter || Rank(bs[n].subarch) < Rank(sifter[arch].subarch) { assert FirstOfRank(bs, n); }
  }

  type Packages = map<string, seq<Blob>>

  /** Every entry of `pkgs` lists at least one blob, all of its name. */
  ghost predicate Grouped(pkgs: Packages)
  {
    forall n :: n in pkgs ==> OnePackage(pkgs[n]) && pkgs[n][0].name == n
  }

  method PrunePkgsLatest(pkgs: Packages) returns (latest_pkgs: Packages)
    requires Grouped(pkgs)
    ensures latest_pkgs.Keys == pkgs.Keys && forall n :: n in pkgs ==> latest_pkgs[n] == Latest(pkgs[n])
    ensures forall n :: n in pkgs && Numbered(pkgs[n]) ==> KeepsTheHighest(pkgs[n], latest_pkgs[n])
  {
    hide Latest, Numbered, KeepsTheHighest;
    latest_pkgs := map[];
    var todo := pkgs.Keys;
    while todo != {}
      invariant todo <= pkgs.Keys && latest_pkgs.Keys == pkgs.Keys - todo
      invariant forall n :: n in latest_pkgs ==> latest_pkgs[n] == Latest(pkgs[n])
    {
      var n :| n in todo;
      FirstOfSorted(pkgs[n]);
      var rpmblobs := Apply(Order(pkgs[n], NotBelow), pkgs[n]);
      var pkg_name := rpmblobs[0].name;
      latest_pkgs := latest_pkgs[pkg_name := SameReleaseAs(rpmblobs, rpmblobs[0])];
      todo := todo - {n};
    }
    forall n | n in pkgs && Numbered(pkgs[n]) ensures KeepsTheHighest(pkgs[n], latest_pkgs[n]) {
      HighestIsKept(pkgs[n]);
    }
  }

  lemma HighestIsKept(bs: seq<Blob>)
    requires OnePackage(bs) && Numbered(bs)
    ensures KeepsTheHighest(bs, Latest(bs))
  {
    hide Latest, Plain, Above;
    forall b | b in bs || b in Latest(bs)
      ensures b in Latest(bs) <==> b in bs && forall c :: c in bs ==> !Above(c, b)
    {
      HighestNumberIsKept(bs, b);
    }
  }

  lemma FirstOfSorted(bs: seq<Blob>)
    requires OnePackage(bs)
    ensures var sorted := Apply(Order(bs, NotBelow), bs);
      sorted != [] && sorted[0].name == bs[0].name && Latest(bs) == SameReleaseAs(sorted, sorted[0])
  {
    SortedHasTheSameBlobs(bs);
    var sorted := Apply(Order(bs, NotBelow), bs);
    assert sorted[0] in sorted;
  }

  /** What both prunings keep for an architecture of a package. */
  lemma PrunedTwice(bs: seq<Blob>, sifter: map<string, Blob>, arch: string, b: Blob)
    requires OnePackage(bs) && Orderable(bs) && forall c :: c in bs ==> KnownArch(c)
    requires (forall c :: c in Latest(bs) ==> KnownArch(c)) && Sifted(sifter, Latest(bs)) && arch in sifter && b in bs
    ensures sifter[arch] in bs && ArchOf(sifter[arch]) == arch && BlobCmp(b, sifter[arch]) <= 0
    ensures SameRelease(b, sifter[arch]) && ArchOf(b) == arch ==> Rank(sifter[arch].subarch) <= Rank(b.subarch)
  {
    hide BlobCmp, Comparable, Latest, Rank;
    LatestIsNotExceeded(bs);
  }
}
