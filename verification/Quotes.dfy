/** Quoted tokens and their contents (scan's quote case in lexer/lexer.go; identOf and dequote
    in parser/parser.go). */
module Quotes {
  import opened Token
  import opened Scanner
  import opened Locality

  /** The content with every delimiter doubled. */
  function Doubled(content: string, d: char): string {
    if content == "" then ""
    else (if content[0] == d then [d, d] else [content[0]]) + Doubled(content[1..], d)
  }

  function Quoted(content: string, d: char): string { [d] + Doubled(content, d) + [d] }

  /** strings.ReplaceAll(s, dd, d) */
  function Collapse(s: string, d: char): string {
    if s == "" then ""
    else if |s| > 1 && s[0] == d && s[1] == d then [d] + Collapse(s[2..], d)
    else [s[0]] + Collapse(s[1..], d)
  }

  /** dequote(): without the delimiters, the doubled ones made single. A body without any is
      returned as it is. */
  function Dequote(s: string, d: char): string
    requires s != ""
  {
    var body := s[1..];
    var inner := if body != "" && body[|body| - 1] == d then body[..|body| - 1] else body;
    if d !in inner then inner else Collapse(inner, d)
  }

  /** identOf(): the name a token spells. */
  function NameOf(raw: string): string {
    if |raw| >= 2 && IsQuote(raw[0]) then Dequote(raw, raw[0])
    else if |raw| >= 2 && raw[0] == '[' then raw[1..|raw| - 1]
    else raw
  }

  lemma {:induction false} CollapseDoubled(content: string, d: char)
    ensures Collapse(Doubled(content, d), d) == content
  {
    if content != "" {
      var rest := Doubled(content[1..], d);
      CollapseDoubled(content[1..], d);
      if content[0] == d {
        assert Doubled(content, d) == [d, d] + rest && ([d, d] + rest)[2..] == rest;
        assert [d] + content[1..] == content;
      } else {
        assert Doubled(content, d) == [content[0]] + rest && ([content[0]] + rest)[1..] == rest;
        assert [content[0]] + content[1..] == content;
      }
    }
  }

  lemma {:induction false} DoubledPlain(content: string, d: char)
    ensures d in Doubled(content, d) <==> d in content
    ensures d !in content ==> Doubled(content, d) == content
    ensures NUL in Doubled(content, d) <==> NUL in content
  {
    if content != "" {
      DoubledPlain(content[1..], d);
      assert content == [content[0]] + content[1..];
    }
  }

  /** Taking the quotes off gives the content. */
  lemma {:induction false} NameOfQuoted(content: string, d: char)
    requires IsQuote(d)
    ensures NameOf(Quoted(content, d)) == content
  {
    var s := Quoted(content, d);
    var inner := Doubled(content, d);
    assert s[1..] == inner + [d] && (inner + [d])[..|inner|] == inner;
    CollapseDoubled(content, d);
    DoubledPlain(content, d);
  }

  /** The closing delimiter of a doubled content is the one after it. */
  lemma {:induction false} DoubledEnds(z: string, n: nat, content: string, d: char)
    requires d != NUL && n <= EndOf(z) && NUL !in content
    requires n + |Doubled(content, d)| < |z| && z[n..n + |Doubled(content, d)|] == Doubled(content, d)
    requires z[n + |Doubled(content, d)|] == d && At(z, n + |Doubled(content, d)| + 1) != d
    ensures QuoteEnd(z, n, d) == n + |Doubled(content, d)|
    decreases |content|
  {
    hide EndOf;
    var body := Doubled(content, d);
    if content != "" {
      var step := if content[0] == d then 2 else 1;
      var rest := Doubled(content[1..], d);
      assert z[n..n + |body|][0] == z[n] && z[n + step..n + |body|] == z[n..n + |body|][step..] == rest;
      assert step == 2 ==> z[n + 1] == z[n..n + |body|][1] == d;
      assert n + step <= EndOf(z) by { Inside(z, n, step); }
      DoubledEnds(z, n + step, content[1..], d);
    }
  }

  lemma Inside(z: string, n: nat, step: nat)
    requires n <= EndOf(z) && 1 <= step <= 2 && n + step <= |z| && z[n] != NUL && (step == 2 ==> z[n + 1] != NUL)
    ensures n + step <= EndOf(z)
  {
  }

  /** Any content without a NUL, doubled and delimited, is one token wherever the delimiter
      does not follow it, and its name is the content. */
  lemma {:induction false} QuotedScans(words: map<string, Kind>, content: string, d: char, rest: string)
    requires IsQuote(d) && NUL !in content && At(rest, 0) != d
    ensures Scan(words, Quoted(content, d) + rest) == Scanned(if d == '\'' then STRING else ID, |Quoted(content, d)|)
    ensures NameOf(Quoted(content, d)) == content
  {
    hide EndOf, QuoteEnd, NameOf, Doubled;
    var z := Quoted(content, d) + rest;
    var body := Doubled(content, d);
    assert z == [d] + body + [d] + rest;
    assert z[1..1 + |body|] == body && z[1 + |body|] == d;
    assert At(z, |body| + 2) == At(rest, 0);
    DoubledEnds(z, 1, content, d);
    NameOfQuoted(content, d);
  }

  /** What scanning passes over on the way to the closing delimiter is a doubled content. */
  lemma {:induction false} EndsDoubled(z: string, n: nat, d: char) returns (content: string)
    requires d != NUL && n <= EndOf(z)
    ensures NUL !in content && z[n..QuoteEnd(z, n, d)] == Doubled(content, d)
    decreases EndOf(z) - n
  {
    hide EndOf;
    content := "";
    if At(z, n) != NUL && At(z, n) != d {
      var more := EndsDoubled(z, n + 1, d);
      content := [z[n]] + more;
      assert content[1..] == more;
      assert z[n..QuoteEnd(z, n, d)] == [z[n]] + z[n + 1..QuoteEnd(z, n + 1, d)];
    } else if At(z, n) == d && At(z, n + 1) == d {
      var more := EndsDoubled(z, n + 2, d);
      content := [d] + more;
      assert content[1..] == more;
      assert z[n..QuoteEnd(z, n, d)] == [d, d] + z[n + 2..QuoteEnd(z, n + 2, d)];
    }
  }

  /** Every quoted token the scanner accepts is written from exactly one content: its name. */
  lemma {:induction false} QuotedFromOne(words: map<string, Kind>, z: string)
    requires |z| > 0 && IsQuote(z[0]) && !Scan(words, z).kind.ILLEGAL?
    ensures var raw := z[..Scan(words, z).n];
            && NUL !in NameOf(raw) && raw == Quoted(NameOf(raw), z[0])
            && forall content :: Quoted(content, z[0]) == raw ==> content == NameOf(raw)
  {
    hide EndOf, QuoteEnd, NameOf, Doubled;
    var d := z[0];
    var raw := z[..Scan(words, z).n];
    var n := QuoteEnd(z, 1, d);
    var content := EndsDoubled(z, 1, d);
    assert raw == [d] + z[1..n] + [d];
    NameOfQuoted(content, d);
    forall other
      ensures Quoted(other, d) == raw ==> other == NameOf(raw)
    {
      NameOfQuoted(other, d);
    }
  }

  /** A name in square brackets has no escapes: any content without a NUL or a closing bracket. */
  lemma {:induction false} BracketedName(words: map<string, Kind>, z: string)
    requires |z| > 0 && z[0] == '[' && !Scan(words, z).kind.ILLEGAL?
    ensures var raw := z[..Scan(words, z).n];
            && raw == "[" + NameOf(raw) + "]"
            && NUL !in NameOf(raw) && ']' !in NameOf(raw)
  {
    hide EndOf, Run;
    var n := Run(BracketRest, z, 1);
    RunInside(BracketRest, z, 1);
    assert z[..n + 1] == "[" + z[1..n] + "]";
  }

  /** Everything a run passes is in its class. */
  lemma {:induction false} RunInside(cls: Class, z: string, n: nat)
    requires n <= EndOf(z)
    ensures forall j :: n <= j < Run(cls, z, n) ==> InClass(cls, z[j])
    decreases EndOf(z) - n
  {
    if InClass(cls, At(z, n)) {
      RunInside(cls, z, n + 1);
    }
  }

  /** A name that is not quoted is its own spelling, and quotes of one style leave the others
      alone. */
  lemma {:induction false} PlainName(raw: string, d: char)
    ensures |raw| < 2 || raw[0] !in {'\'', '"', '`', '['} ==> NameOf(raw) == raw
    ensures d in {'\'', '"', '`'} && d !in raw ==> NameOf([d] + raw + [d]) == raw
    ensures NameOf(['['] + raw + [']']) == raw
  {
    hide Collapse;
    assert ([d] + raw + [d])[1..] == raw + [d] && (raw + [d])[..|raw|] == raw;
    var s := ['['] + raw + [']'];
    assert s[1..|s| - 1] == raw;
  }
}
