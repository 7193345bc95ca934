/** Digit separators (dequoteNumber and parseTerm in parser/parse_expr.go, scanNumber in
    lexer/lexer.go): which numbers lose them, and what is left of those. */
module Separators {
  import opened Token
  import opened Scanner
  import opened Chars
  import opened Locality
  import Digits

  function Strip(s: string): string {
    if s == "" then "" else (if s[0] == '_' then "" else [s[0]]) + Strip(s[1..])
  }

  /** The separator at `j` stands between two digits of the number's base. */
  predicate Between(s: string, j: nat) {
    0 < j < |s| - 1 && Digits.BaseDigit(s, s[j - 1]) && Digits.BaseDigit(s, s[j + 1])
  }

  predicate WellSeparated(s: string, from: nat) {
    forall j :: from <= j < |s| && s[j] == '_' ==> Between(s, j)
  }

  lemma {:induction false} StripJoins(a: string, b: string)
    ensures Strip(a + b) == Strip(a) + Strip(b)
  {
    if a == "" {
      assert a + b == b;
    } else {
      assert (a + b)[1..] == a[1..] + b;
      StripJoins(a[1..], b);
    }
  }

  lemma StripNext(s: string, i: nat)
    requires i < |s|
    ensures Strip(s[..i + 1]) == Strip(s[..i]) + (if s[i] == '_' then "" else [s[i]])
  {
    assert s[..i + 1] == s[..i] + [s[i]];
    StripJoins(s[..i], [s[i]]);
    assert Strip([s[i]]) == (if s[i] == '_' then "" else [s[i]]) + Strip([s[i]][1..]);
  }

  lemma {:induction false} CompactMeans(s: string, i: nat)
    requires i <= |s| && forall j :: 0 <= j < i && s[j] == '_' ==> Between(s, j)
    requires |Strip(s[..i])| <= i
    ensures Digits.Compact(s, i, Strip(s[..i])).Value? <==> WellSeparated(s, i)
    ensures WellSeparated(s, i) ==> Digits.Compact(s, i, Strip(s[..i])) == Digits.Value(Strip(s))
    decreases |s| - i
  {
    var out := Strip(s[..i]);
    if i == |s| {
      assert s[..i] == s;
    } else {
      StripNext(s, i);
      if s[i] != '_' {
        CompactMeans(s, i + 1);
        assert WellSeparated(s, i) <==> WellSeparated(s, i + 1);
      } else {
        if i > 0 {
          StripNext(s, i - 1);
          assert s[i - 1] != '_';
          assert out[|out| - 1] == s[i - 1];
        }
        if Between(s, i) {
          assert Strip(s[..i + 1]) == out + "" == out;
          CompactMeans(s, i + 1);
          assert WellSeparated(s, i) <==> WellSeparated(s, i + 1);
        } else {
          assert !WellSeparated(s, i);
        }
      }
    }
  }

  /** Removing the separators succeeds exactly when each stands between two digits of the right
      base, and then nothing else is removed. */
  lemma {:induction false} DequotesWellSeparated(s: string)
    ensures Digits.DequoteNumber(s).Value? <==> WellSeparated(s, 0)
    ensures WellSeparated(s, 0) ==> Digits.DequoteNumber(s) == Digits.Value(Strip(s))
  {
    assert s[..0] == "";
    CompactMeans(s, 0);
  }

  /** The separator at `j` is the first that does not stand between two digits. */
  predicate FirstBad(s: string, from: nat, j: nat) {
    from <= j < |s| && s[j] == '_' && !Between(s, j) && forall m :: from <= m < j && s[m] == '_' ==> Between(s, m)
  }

  /** What a rejected number is reported as: up to the bad separator without the separators, and
      from there on as the buffer was. */
  lemma {:induction false} MisplacedAt(s: string, i: nat) returns (j: nat)
    requires i <= |s| && forall m :: 0 <= m < i && s[m] == '_' ==> Between(s, m)
    requires |Strip(s[..i])| <= i && !WellSeparated(s, i)
    ensures FirstBad(s, i, j) && |Strip(s[..j])| <= |s|
    ensures Digits.Compact(s, i, Strip(s[..i])) == Digits.Misplaced(Strip(s[..j]) + s[|Strip(s[..j])|..])
    decreases |s| - i
  {
    hide Between, Strip;
    StripNext(s, i);
    if s[i] != '_' {
      j := MisplacedAt(s, i + 1);
    } else if Between(s, i) {
      BetweenKept(s, i);
      assert Strip(s[..i]) + "" == Strip(s[..i]);
      j := MisplacedAt(s, i + 1);
    } else {
      BetweenKept(s, i);
      j := i;
    }
  }

  lemma BetweenKept(s: string, i: nat)
    requires i < |s| && s[i] == '_' && forall m :: 0 <= m < i && s[m] == '_' ==> Between(s, m)
    ensures var out := Strip(s[..i]);
            Between(s, i) <==> |out| > 0 && Digits.BaseDigit(s, out[|out| - 1]) && i + 1 < |s| && Digits.BaseDigit(s, s[i + 1])
  {
    if i > 0 {
      StripNext(s, i - 1);
    }
  }

  /** A number with a misplaced separator is reported from its first bad one on as it stands,
      closed up before that. */
  lemma {:induction false} MisplacedReport(s: string) returns (j: nat)
    requires Digits.DequoteNumber(s).Misplaced?
    ensures FirstBad(s, 0, j) && |Strip(s[..j])| <= |s|
    ensures Digits.DequoteNumber(s).buffer == Strip(s[..j]) + s[|Strip(s[..j])|..]
  {
    hide Between, Digits.Compact;
    assert s[..0] == "";
    DequotesWellSeparated(s);
    j := MisplacedAt(s, 0);
  }

  /** The kind parseTerm gives the literal of a dequoted number. */
  function LiteralKind(value: string): Kind {
    if ('.' in value || 'e' in value || 'E' in value)
       && !(|value| >= 2 && value[0] == '0' && (value[1] == 'x' || value[1] == 'X'))
    then FLOAT else INTEGER
  }

  /** Digits and separators only. */
  predicate IsRun(hex: bool, s: string) {
    forall j :: 0 <= j < |s| ==> s[j] == '_' || (if hex then IsHex(s[j]) else IsDigit(s[j]))
  }

  lemma {:induction false} StripRun(hex: bool, s: string)
    requires IsRun(hex, s)
    ensures IsRun(hex, Strip(s)) && '_' !in Strip(s)
  {
    if s != "" {
      StripRun(hex, s[1..]);
    }
  }

  lemma {:induction false} RunIsRun(hex: bool, z: string, n: nat)
    requires n <= EndOf(z)
    ensures var cls := if hex then HexAndSeparators else DigitsAndSeparators;
            IsRun(hex, z[n..Run(cls, z, n)])
    decreases EndOf(z) - n
  {
    var cls := if hex then HexAndSeparators else DigitsAndSeparators;
    if InClass(cls, At(z, n)) {
      RunIsRun(hex, z, n + 1);
      assert z[n..Run(cls, z, n)] == [z[n]] + z[n + 1..Run(cls, z, n)];
    }
  }

  /** A run of digits with something else, or nothing, after it. */
  lemma {:induction false} RunOver(hex: bool, z: string, n: nat, m: nat)
    requires n <= m <= |z| && EndOf(z) == |z| && IsRun(hex, z[n..m])
    requires !InClass(if hex then HexAndSeparators else DigitsAndSeparators, At(z, m))
    ensures Run(if hex then HexAndSeparators else DigitsAndSeparators, z, n) == m
    decreases m - n
  {
    if n < m {
      assert z[n..m][0] == z[n];
      assert z[n + 1..m] == z[n..m][1..];
      RunOver(hex, z, n + 1, m);
    }
  }

  /** The parts of a decimal number: digits, a dot and digits, an exponent mark ("e" and the
      digit or sign after it) and digits. */
  datatype Parts = Parts(whole: string, dot: bool, fraction: string, mark: string, exponent: string) {
    function Dot(): string { if dot then "." else "" }

    function Spelled(): string { whole + (Dot() + (fraction + (mark + exponent))) }

    predicate Valid() {
      && IsRun(false, whole) && IsRun(false, fraction) && IsRun(false, exponent)
      && (dot || fraction == "")
      && (if mark == "" then exponent == "" else IsMark(mark, exponent))
      && (if whole == "" then dot && Starts(fraction) else Starts(whole))
    }

    function Stripped(): Parts { Parts(Strip(whole), dot, Strip(fraction), mark, Strip(exponent)) }

    function Kind(): Kind { if dot || mark != "" then FLOAT else INTEGER }
  }

  predicate Starts(s: string) { s != "" && IsDigit(s[0]) }

  predicate IsMark(mark: string, exponent: string) {
    && |mark| == 2 && (mark[0] == 'e' || mark[0] == 'E')
    && (IsDigit(mark[1]) || ((mark[1] == '+' || mark[1] == '-') && Starts(exponent)))
  }

  lemma StripStarts(s: string)
    requires Starts(s)
    ensures Starts(Strip(s)) && Strip(s)[0] == s[0]
  {
  }

  lemma {:induction false} StripNone(s: string)
    requires '_' !in s
    ensures Strip(s) == s
  {
    if s != "" {
      StripNone(s[1..]);
      assert s == [s[0]] + s[1..];
    }
  }

  /** Stripping the text strips its parts. */
  lemma {:induction false} StripParts(ps: Parts)
    requires ps.Valid()
    ensures ps.Stripped().Valid() && Strip(ps.Spelled()) == ps.Stripped().Spelled()
    ensures '_' !in Strip(ps.whole) && '_' !in Strip(ps.fraction) && '_' !in Strip(ps.exponent)
  {
    hide Strip;
    StripRun(false, ps.whole);
    StripRun(false, ps.fraction);
    StripRun(false, ps.exponent);
    StripJoins(ps.whole, ps.Dot() + (ps.fraction + (ps.mark + ps.exponent)));
    StripJoins(ps.Dot(), ps.fraction + (ps.mark + ps.exponent));
    StripJoins(ps.fraction, ps.mark + ps.exponent);
    StripJoins(ps.mark, ps.exponent);
    StripNone(ps.Dot());
    StripNone(ps.mark);
    StripNone("");
    if Starts(ps.whole) { StripStarts(ps.whole); }
    if Starts(ps.fraction) { StripStarts(ps.fraction); }
    if Starts(ps.exponent) { StripStarts(ps.exponent); }
  }

  /** A decimal number without separators is scanned whole, as what its parts make it. */
  lemma {:induction false} PartsScan(ps: Parts, d: string)
    requires ps.Valid() && d == ps.Spelled()
    requires '_' !in ps.whole && '_' !in ps.fraction && '_' !in ps.exponent
    ensures IsDigit(At(d, 0)) || (At(d, 0) == '.' && IsDigit(At(d, 1)))
    ensures ScanNumber(d) == Scanned(ps.Kind(), |d|)
  {
    hide Run, EndOf, IsRun, ExponentAt, HexNumber, Whole, WithFraction, Exponent;
    var a := |ps.whole|;
    var b := a + |ps.Dot()| + |ps.fraction|;
    var kind := if ps.dot then FLOAT else INTEGER;
    PartsAt(ps, d);
    assert d[0..a] == ps.whole;
    WholeOver(d, a);
    FractionOver(d, a, b, ps.dot);
    assert ps.mark != "" ==> d[b + 2..|d|] == d[b + 2..];
    ExponentOver(d, b, kind, ps.mark != "");
    NothingMore(d);
  }

  lemma WholeOver(d: string, a: nat)
    requires EndOf(d) == |d| && a <= |d| && IsRun(false, d[0..a]) && '_' !in d[0..a] && !InClass(DigitsAndSeparators, At(d, a))
    requires IsDigit(At(d, 0)) || (At(d, 0) == '.' && IsDigit(At(d, 1)))
    ensures Whole(d) == Scanned(INTEGER, a)
  {
    hide EndOf, Run, IsRun;
    RunOver(false, d, 0, a);
  }

  lemma FractionOver(d: string, a: nat, b: nat, dot: bool)
    requires EndOf(d) == |d| && a <= b <= |d| && (dot <==> At(d, a) == '.') && !InClass(DigitsAndSeparators, At(d, b))
    requires if dot then a < b && IsRun(false, d[a + 1..b]) && '_' !in d[a + 1..b] else a == b
    ensures WithFraction(d, Scanned(INTEGER, a)) == Scanned(if dot then FLOAT else INTEGER, b)
  {
    hide EndOf, Run, IsRun;
    if dot {
      RunOver(false, d, a + 1, b);
    }
  }

  lemma ExponentOver(d: string, b: nat, kind: Kind, marked: bool)
    requires EndOf(d) == |d| && b <= |d| && (marked <==> ExponentAt(d, b)) && At(d, |d|) == NUL && (kind.FLOAT? || kind.INTEGER?)
    requires if marked then b + 2 <= |d| && IsRun(false, d[b + 2..|d|]) && '_' !in d[b + 2..|d|] else b == |d|
    ensures Exponent(d, Scanned(kind, b)) == Scanned(if marked then FLOAT else kind, |d|)
  {
    hide EndOf, Run, IsRun, ExponentAt;
    if marked {
      RunOver(false, d, b + 2, |d|);
    }
  }

  lemma NothingMore(d: string)
    requires EndOf(d) == |d|
    ensures Run(IdChars, d, |d|) == |d|
  {
  }

  /** Four stretches in a row. */
  lemma Rows(d: string, x: string, y: string, z: string, w: string)
    requires d == x + (y + (z + w))
    ensures |d| == |x| + |y| + |z| + |w|
    ensures d[..|x|] == x && d[|x|..|x| + |y|] == y
    ensures d[|x| + |y|..|x| + |y| + |z|] == z && d[|x| + |y| + |z|..] == w
  {
    assert d[|x|..] == y + (z + w);
    assert d[|x| + |y|..] == d[|x|..][|y|..] == z + w;
  }

  /** None of the characters of a decimal number is one of these. */
  predicate Clean(s: string) {
    forall j :: 0 <= j < |s| ==> s[j] != NUL && s[j] != 'x' && s[j] != 'X'
  }

  lemma PartsClean(ps: Parts)
    requires ps.Valid()
    ensures Clean(ps.Spelled())
  {
    assert Clean(ps.whole) && Clean(ps.fraction) && Clean(ps.exponent) && Clean(ps.Dot()) && Clean(ps.mark);
    assert Clean(ps.mark + ps.exponent);
    assert Clean(ps.fraction + (ps.mark + ps.exponent));
    assert Clean(ps.Dot() + (ps.fraction + (ps.mark + ps.exponent)));
  }

  /** What comes after the whole part, and after the fraction. */
  lemma MarkAt(d: string, b: nat, mark: string, exponent: string)
    requires b <= |d| && d[b..] == mark + exponent
    requires if mark == "" then exponent == "" else IsMark(mark, exponent)
    ensures !InClass(DigitsAndSeparators, At(d, b)) && At(d, b) != '.'
    ensures if mark == "" then b == |d| && !ExponentAt(d, b) else ExponentAt(d, b) && b + 2 <= |d| && d[b + 2..] == exponent
  {
    if mark != "" {
      var rest := mark + exponent;
      assert |rest| == 2 + |exponent| && rest[2..] == exponent;
      assert d[b + 2..] == d[b..][2..];
      assert d[b] == d[b..][0] == mark[0] && d[b + 1] == d[b..][1] == mark[1];
      assert exponent != "" ==> d[b + 2] == d[b..][2] == exponent[0];
    }
  }

  lemma NumberStart(ps: Parts, d: string)
    requires ps.Valid() && |ps.whole| <= |d| && d[..|ps.whole|] == ps.whole
    requires ps.whole == "" ==> 1 + |ps.fraction| <= |d| && d[0] == '.' && d[1..1 + |ps.fraction|] == ps.fraction
    requires Clean(d)
    ensures (IsDigit(At(d, 0)) || (At(d, 0) == '.' && IsDigit(At(d, 1)))) && !HexNumber(d)
  {
    if ps.whole == "" {
      assert d[1..1 + |ps.fraction|][0] == d[1];
    } else {
      assert d[..|ps.whole|][0] == d[0];
    }
  }

  /** Where the parts lie in the text, and what stands at their ends. */
  lemma {:induction false} PartsAt(ps: Parts, d: string)
    requires ps.Valid() && d == ps.Spelled()
    ensures var a := |ps.whole|;
            var b := a + |ps.Dot()| + |ps.fraction|;
            && EndOf(d) == |d| && d[..a] == ps.whole
            && a <= b <= |d| && (ps.dot ==> a < |d| && d[a] == '.' && d[a + 1..b] == ps.fraction)
            && (!ps.dot ==> b == a && At(d, a) != '.')
            && !InClass(DigitsAndSeparators, At(d, a)) && !InClass(DigitsAndSeparators, At(d, b)) && At(d, |d|) == NUL
            && (if ps.mark == "" then b == |d| && !ExponentAt(d, b) else ExponentAt(d, b) && b + 2 <= |d| && d[b + 2..] == ps.exponent)
    ensures (IsDigit(At(d, 0)) || (At(d, 0) == '.' && IsDigit(At(d, 1)))) && !HexNumber(d)
  {
    hide EndOf, Clean, IsRun, ExponentAt, HexNumber, InClass;
    var a := |ps.whole|;
    var b := a + |ps.Dot()| + |ps.fraction|;
    Rows(d, ps.whole, ps.Dot(), ps.fraction, ps.mark + ps.exponent);
    PartsClean(ps);
    CleanEnd(d);
    MarkAt(d, b, ps.mark, ps.exponent);
    DotAt(ps, d, a, b);
    NumberStart(ps, d);
  }

  lemma DotAt(ps: Parts, d: string, a: nat, b: nat)
    requires a <= b <= |d| && (ps.dot ==> a < |d| && d[a..a + |ps.Dot()|] == ps.Dot())
    requires !ps.dot ==> !InClass(DigitsAndSeparators, At(d, a)) && At(d, a) != '.'
    ensures ps.dot ==> d[a] == '.'
    ensures !InClass(DigitsAndSeparators, At(d, a)) && (!ps.dot ==> At(d, a) != '.')
  {
    if ps.dot {
      assert d[a] == d[a..a + 1][0];
    }
  }

  lemma CleanEnd(d: string)
    requires Clean(d)
    ensures EndOf(d) == |d|
  {
    FirstNul(d, |d|);
  }

  /** A decimal number's text is the spelling of its parts. */
  lemma {:induction false} DecimalParts(z: string) returns (ps: Parts)
    requires IsDigit(At(z, 0)) || (At(z, 0) == '.' && IsDigit(At(z, 1)))
    ensures ps.Valid() && z[..DecimalBody(z).n] == ps.Spelled()
  {
    hide EndOf, Run, IsRun, IsMark, Starts, Whole, WithFraction, Exponent, Parts.Spelled, Parts.Valid;
    var s1 := Whole(z);
    var s2 := WithFraction(z, s1);
    var c := Exponent(z, s2).n;
    WholePart(z);
    var dot, fraction := FractionPart(z, s1);
    var mark, exponent := ExponentPart(z, s2);
    WholeStarts(z);
    var whole := z[0..s1.n];
    ps := Parts.Parts(whole, dot, fraction, mark, exponent);
    FirstPart(z, s1.n, s2.n, dot, fraction);
    PartsValid(ps);
    SpelledIs(ps);
    PartsText(z, s1.n, s2.n, c, ps.Dot(), fraction, mark, exponent);
  }

  lemma FirstPart(z: string, a: nat, b: nat, dot: bool, fraction: string)
    requires a <= b <= |z| && (dot <==> At(z, a) == '.') && (dot ==> a < b && fraction == z[a + 1..b])
    requires if a == 0 then At(z, 0) == '.' && Starts(z[1..b]) else Starts(z[0..a])
    ensures Starts(z[0..a]) || (z[0..a] == "" && dot && Starts(fraction))
  {
    hide Starts;
  }

  lemma PartsValid(ps: Parts)
    requires IsRun(false, ps.whole) && IsRun(false, ps.fraction) && IsRun(false, ps.exponent)
    requires ps.dot || ps.fraction == ""
    requires if ps.mark == "" then ps.exponent == "" else IsMark(ps.mark, ps.exponent)
    requires Starts(ps.whole) || (ps.whole == "" && ps.dot && Starts(ps.fraction))
    ensures ps.Valid()
  {
    hide IsRun, IsMark;
  }

  lemma SpelledIs(ps: Parts)
    ensures ps.Spelled() == ps.whole + (ps.Dot() + (ps.fraction + (ps.mark + ps.exponent)))
  {
  }

  lemma WholePart(z: string)
    requires IsDigit(At(z, 0)) || (At(z, 0) == '.' && IsDigit(At(z, 1)))
    ensures IsRun(false, z[0..Whole(z).n])
  {
    hide EndOf, Run, IsRun;
    RunIsRun(false, z, 0);
  }

  lemma FractionPart(z: string, s: Scanned) returns (dot: bool, fraction: string)
    requires s.n <= EndOf(z) && (s.kind.INTEGER? || s.kind.QNUMBER?)
    ensures dot <==> At(z, s.n) == '.'
    ensures var r := WithFraction(z, s);
            var d := if dot then "." else "";
            && s.n + |d| <= r.n && z[s.n..s.n + |d|] == d && z[s.n + |d|..r.n] == fraction
            && (dot ==> s.n < r.n && fraction == z[s.n + 1..r.n])
            && IsRun(false, fraction) && (dot || fraction == "")
  {
    hide EndOf, Run, IsRun;
    dot := At(z, s.n) == '.';
    NoDigits();
    fraction := "";
    if dot {
      RunIsRun(false, z, s.n + 1);
      fraction := z[s.n + 1..WithFraction(z, s).n];
    }
  }

  lemma ExponentPart(z: string, s: Scanned) returns (mark: string, exponent: string)
    requires s.n <= EndOf(z) && (s.kind.INTEGER? || s.kind.FLOAT? || s.kind.QNUMBER?)
    ensures var r := Exponent(z, s);
            && s.n + |mark| <= r.n && z[s.n..s.n + |mark|] == mark && z[s.n + |mark|..r.n] == exponent
            && IsRun(false, exponent) && (if mark == "" then exponent == "" else IsMark(mark, exponent))
  {
    hide EndOf, Run, IsRun, IsMark;
    NoDigits();
    mark, exponent := "", "";
    if ExponentAt(z, s.n) {
      RunIsRun(false, z, s.n + 2);
      ExponentStarts(z, s.n);
      mark, exponent := z[s.n..s.n + 2], z[s.n + 2..Exponent(z, s).n];
    }
  }

  lemma NoDigits()
    ensures IsRun(false, "")
  {
  }

  lemma PartsText(z: string, a: nat, b: nat, c: nat, dot: string, fraction: string, mark: string, exponent: string)
    requires a + |dot| <= b && b + |mark| <= c <= |z|
    requires z[a..a + |dot|] == dot && z[a + |dot|..b] == fraction && z[b..b + |mark|] == mark && z[b + |mark|..c] == exponent
    ensures z[..c] == z[0..a] + (dot + (fraction + (mark + exponent)))
  {
    assert z[b..c] == mark + exponent;
    assert z[a + |dot|..c] == fraction + z[b..c];
    assert z[a..c] == dot + z[a + |dot|..c];
    assert z[..c] == z[0..a] + z[a..c];
  }

  /** The first run is empty only before a dot with a digit after it. */
  lemma WholeStarts(z: string)
    requires IsDigit(At(z, 0)) || (At(z, 0) == '.' && IsDigit(At(z, 1)))
    ensures var s1 := Whole(z);
            && (s1.n == 0 ==> WithFraction(z, s1).n > 0)
            && if s1.n == 0 then At(z, 0) == '.' && Starts(z[1..WithFraction(z, s1).n]) else Starts(z[0..s1.n])
  {
    if IsDigit(At(z, 0)) {
      assert Run(DigitsAndSeparators, z, 0) > 0;
    } else {
      assert Run(DigitsAndSeparators, z, 0) == 0;
      assert Run(DigitsAndSeparators, z, 1) > 1;
    }
  }

  lemma ExponentStarts(z: string, n: nat)
    requires n <= EndOf(z) && ExponentAt(z, n)
    ensures n + 2 <= EndOf(z) && IsMark(z[n..n + 2], z[n + 2..Run(DigitsAndSeparators, z, n + 2)])
  {
    assert z[n..n + 2] == [z[n], z[n + 1]];
    if !IsDigit(z[n + 1]) {
      assert Run(DigitsAndSeparators, z, n + 2) > n + 2;
    }
  }

  lemma {:induction false} KindOfParts(ps: Parts)
    requires ps.Valid() && '_' !in ps.whole && '_' !in ps.fraction && '_' !in ps.exponent
    ensures LiteralKind(ps.Spelled()) == ps.Kind()
  {
    hide EndOf;
    var d := ps.Spelled();
    PartsAt(ps, d);
    PartsClean(ps);
    if ps.dot {
      assert d[|ps.whole|] == '.';
    } else if ps.mark != "" {
      assert d[|ps.whole|] == ps.mark[0] by { Rows(d, ps.whole, ps.Dot(), ps.fraction, ps.mark + ps.exponent); }
    } else {
      assert d == ps.whole;
    }
  }

  /** What dequoting a number token leaves is scanned, at its full length, as the kind of number
      parseTerm makes of it. */
  lemma {:induction false} DequotedRescans(z: string)
    requires IsDigit(At(z, 0)) || (At(z, 0) == '.' && IsDigit(At(z, 1)))
    requires ScanNumber(z).kind.QNUMBER?
    requires Digits.DequoteNumber(z[..ScanNumber(z).n]).Value?
    ensures var value := Digits.DequoteNumber(z[..ScanNumber(z).n]).digits;
            && (IsDigit(At(value, 0)) || (At(value, 0) == '.' && IsDigit(At(value, 1))))
            && ScanNumber(value) == Scanned(LiteralKind(value), |value|)
  {
    hide EndOf, Run, Digits.DequoteNumber, Strip, DecimalBody, HexBody, LiteralKind;
    var raw := z[..ScanNumber(z).n];
    DequotesWellSeparated(raw);
    if HexNumber(z) {
      HexRescans(z);
    } else {
      var ps := DecimalParts(z);
      StripParts(ps);
      PartsScan(ps.Stripped(), Strip(raw));
      KindOfParts(ps.Stripped());
    }
  }

  lemma {:induction false} HexRescans(z: string)
    requires HexNumber(z)
    ensures var value := Strip(z[..HexBody(z).n]);
            && IsDigit(At(value, 0))
            && ScanNumber(value) == Scanned(LiteralKind(value), |value|)
  {
    hide EndOf, Run, Strip, IsRun;
    var n := HexBody(z).n;
    RunIsRun(true, z, 3);
    var head, tail := z[..3], z[3..n];
    assert z[..n] == head + tail;
    StripJoins(head, tail);
    StripNone(head);
    StripRun(true, tail);
    var value := head + Strip(tail);
    assert value[3..] == Strip(tail) == value[3..|value|];
    HexClean(head, Strip(tail));
    FirstNul(value, |value|);
    RunOver(true, value, 3, |value|);
    assert '_' !in value[3..|value|];
    NothingMore(value);
  }

  lemma HexClean(head: string, tail: string)
    requires NUL !in head && IsRun(true, tail)
    ensures NUL !in head + tail
  {
  }
}
