/** Digit separators in numbers (dequoteNumber in parser/parse_expr.go). */
module Digits {

  import opened Chars

  predicate HexPrefixed(s: string) {
    |s| > 1 && s[0] == '0' && (s[1] == 'x' || s[1] == 'X')
  }

  /** A digit of the number's own base. */
  predicate BaseDigit(s: string, c: char) {
    if HexPrefixed(s) then IsHex(c) else IsDigit(c)
  }

  /** The number without its separators, or the partly rewritten buffer at the first bad one. */
  datatype Compacted = Value(digits: string) | Misplaced(buffer: string)

  /** `out` holds what was kept of `s[..i]`; the buffer is `out` written over the front of `s`. */
  function Compact(s: string, i: nat, out: string): Compacted
    requires |out| <= i <= |s|
    decreases |s| - i
  {
    if i == |s| then
      Value(out)
    else if s[i] != '_' then
      Compact(s, i + 1, out + [s[i]])
    else if |out| > 0 && BaseDigit(s, out[|out| - 1]) && i + 1 < |s| && BaseDigit(s, s[i + 1]) then
      Compact(s, i + 1, out)
    else
      Misplaced(out + s[|out|..])
  }

  function DequoteNumber(s: string): Compacted {
    Compact(s, 0, "")
  }

  /** With `out` kept of the first `i` characters, the number comes to what it does as a whole. */
  ghost predicate Leads(s: string, i: nat, out: string) {
    |out| <= i <= |s| && Compact(s, i, out) == DequoteNumber(s)
  }

  lemma KeepsOn(s: string, i: nat, out: string)
    requires Leads(s, i, out) && i < |s| && s[i] != '_'
    ensures Leads(s, i + 1, out + [s[i]])
  {
  }

  lemma SkipsOn(s: string, i: nat, out: string)
    requires Leads(s, i, out) && i < |s| && s[i] == '_'
    ensures |out| <= i
    ensures if |out| > 0 && BaseDigit(s, out[|out| - 1]) && i + 1 < |s| && BaseDigit(s, s[i + 1])
            then Leads(s, i + 1, out) else DequoteNumber(s) == Misplaced(out + s[|out|..])
  {
  }

  lemma LeadsEnd(s: string, out: string)
    ensures Leads(s, 0, "")
    ensures Leads(s, |s|, out) ==> DequoteNumber(s) == Value(out)
  {
  }

  /** The in-place compaction: `buf` is rewritten from the front while it is read further on. */
  method DequoteInPlace(text: string) returns (r: Compacted)
    ensures r == DequoteNumber(text)
  {
    hide DequoteNumber, Leads, BaseDigit;
    var buf := new char[|text|](i requires 0 <= i < |text| => text[i]);
    var n := 0;
    var i := 0;
    ghost var kept := "";
    LeadsEnd(text, "");
    while i < |text|
      invariant 0 <= n <= i <= |text| && n == |kept|
      invariant forall j :: 0 <= j < n ==> buf[j] == kept[j]
      invariant forall j :: n <= j < |text| ==> buf[j] == text[j]
      invariant Leads(text, i, kept)
    {
      var c := buf[i];
      if c != '_' {
        KeepsOn(text, i, kept);
        buf[n] := c;
        kept := kept + [c];
        n := n + 1;
      } else {
        SkipsOn(text, i, kept);
        var prevOK := n > 0 && BaseDigit(text, buf[n - 1]);
        var nextOK := i + 1 < |text| && BaseDigit(text, buf[i + 1]);
        if !prevOK || !nextOK {
          assert buf[..] == kept + text[n..];
          return Misplaced(buf[..]);
        }
      }
      i := i + 1;
    }
    LeadsEnd(text, kept);
    assert buf[..n] == kept;
    return Value(buf[..n]);
  }
}
