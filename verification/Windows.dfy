/** The words WINDOW, OVER and FILTER are keywords only next to certain tokens
    (resolveWindowKeywords in lexer/lexer.go). */
module Windows {
  import opened Token

  predicate IsWindowWord(k: Kind) { k.WINDOW? || k.OVER? || k.FILTER? }

  /** asID(): the kinds that count as a name beside a window word. INDEXED does not. */
  predicate AsId(k: Kind) {
    k.ID? || k.STRING? || k.JOIN_KW? || k.WINDOW? || k.OVER? || CanFallback(k)
  }

  function KindAt(toks: seq<SourceToken>, j: int): Kind {
    if 0 <= j < |toks| then toks[j].kind else EOF
  }

  /** What the token at `j` is, given its neighbours as they were scanned. */
  function Decide(toks: seq<SourceToken>, j: nat): Kind
    requires j < |toks|
  {
    var k, prev, next := toks[j].kind, KindAt(toks, j - 1), KindAt(toks, j + 1);
    if k.WINDOW? then (if AsId(next) && KindAt(toks, j + 2).AS? then WINDOW else ID)
    else if k.OVER? then (if prev.RP? && (next.LP? || AsId(next)) then OVER else ID)
    else if k.FILTER? then (if prev.RP? && next.LP? then FILTER else ID)
    else k
  }

  /** Every token decided on its own, from the original kinds. */
  function Resolve(toks: seq<SourceToken>): (r: seq<SourceToken>)
    ensures |r| == |toks|
    ensures forall j :: 0 <= j < |toks| ==> r[j] == toks[j].(kind := Decide(toks, j))
  {
    seq(|toks|, j requires 0 <= j < |toks| => toks[j].(kind := Decide(toks, j)))
  }

  /** The rewrite in place, which looks back at kinds it has already rewritten, decides every
      token as if it were alone. */
  method ResolveWindowKeywords(a: array<SourceToken>)
    modifies a
    ensures a[..] == Resolve(old(a[..]))
  {
    ghost var was := a[..];
    var prev := ILLEGAL;
    for i := 0 to a.Length
      invariant forall j :: 0 <= j < i ==> a[j] == Resolve(was)[j]
      invariant forall j :: i <= j < a.Length ==> a[j] == was[j]
      invariant prev == if i == 0 then ILLEGAL else a[i - 1].kind
    {
      var k := a[i].kind;
      var next := if i + 1 < a.Length then a[i + 1].kind else EOF;
      if k.WINDOW? {
        if !(AsId(next) && i + 2 < a.Length && a[i + 2].kind.AS?) {
          a[i] := a[i].(kind := ID);
        }
      } else if k.OVER? {
        if !(prev.RP? && (next.LP? || AsId(next))) {
          a[i] := a[i].(kind := ID);
        }
      } else if k.FILTER? {
        if !(prev.RP? && next.LP?) {
          a[i] := a[i].(kind := ID);
        }
      }
      prev := a[i].kind;
    }
  }

  /** Resolving again changes nothing. */
  lemma {:induction false} ResolveIdempotent(toks: seq<SourceToken>)
    ensures Resolve(Resolve(toks)) == Resolve(toks)
  {
    var r := Resolve(toks);
    forall j | 0 <= j < |toks|
      ensures Decide(r, j) == Decide(toks, j)
    {
      assert AsId(KindAt(r, j + 1)) || !AsId(KindAt(toks, j + 1));
      assert KindAt(r, j + 2).AS? <==> KindAt(toks, j + 2).AS?;
    }
  }

  /** Without a window word there is nothing to resolve, so the pass can be skipped. */
  lemma {:induction false} ResolveSkips(toks: seq<SourceToken>)
    requires forall j :: 0 <= j < |toks| ==> !IsWindowWord(toks[j].kind)
    ensures Resolve(toks) == toks
  {
    forall j | 0 <= j < |toks|
      ensures Resolve(toks)[j] == toks[j]
    {
    }
  }

  /** Only the kinds of its own and the three neighbouring tokens decide a token, so lists with
      the same kinds are resolved alike. */
  lemma {:induction false} ResolveByKinds(a: seq<SourceToken>, b: seq<SourceToken>)
    requires |a| == |b| && forall j :: 0 <= j < |a| ==> a[j].kind == b[j].kind
    ensures forall j :: 0 <= j < |a| ==> Resolve(a)[j].kind == Resolve(b)[j].kind
  {
    forall j | 0 <= j < |a|
      ensures Decide(a, j) == Decide(b, j)
    {
      assert KindAt(a, j - 1) == KindAt(b, j - 1) && KindAt(a, j + 1) == KindAt(b, j + 1) && KindAt(a, j + 2) == KindAt(b, j + 2);
    }
  }

  /** The kinds that are a name beside a window word, one by one. */
  predicate IsNameBeside(k: Kind) {
    k.ID? || k.STRING? || k.JOIN_KW? || k.WINDOW? || k.OVER? || k.CAST? || k.CTIME_KW? || k.END? || k.LIKE_KW?
    || k.MATCH? || k.RAISE? || k.WITH? || k.FallbackKw?
  }

  /** FILTER is a keyword exactly between brackets, OVER exactly after a closing bracket and
      before an opening one or a name, WINDOW exactly before a name and AS. Every other of these
      words is an identifier, and no other token changes. */
  lemma {:induction false} WindowWordsDecided(toks: seq<SourceToken>, j: nat)
    requires j < |toks|
    ensures var k, r := toks[j].kind, Resolve(toks)[j];
            && r.pos == toks[j].pos && r.end == toks[j].end
            && (!k.FILTER? && !k.OVER? && !k.WINDOW? ==> r.kind == k)
            && (k.FILTER? || k.OVER? || k.WINDOW? ==> r.kind == k || r.kind.ID?)
            && (k.FILTER? ==> (r.kind.FILTER? <==>
                 0 < j < |toks| - 1 && toks[j - 1].kind.RP? && toks[j + 1].kind.LP?))
            && (k.OVER? ==> (r.kind.OVER? <==>
                 0 < j < |toks| - 1 && toks[j - 1].kind.RP? && (toks[j + 1].kind.LP? || IsNameBeside(toks[j + 1].kind))))
            && (k.WINDOW? ==> (r.kind.WINDOW? <==>
                 j < |toks| - 2 && IsNameBeside(toks[j + 1].kind) && toks[j + 2].kind.AS?))
  {
    hide CanFallback;
    forall k: Kind
      ensures AsId(k) <==> IsNameBeside(k)
    {
      SameNames(k);
    }
  }

  lemma SameNames(k: Kind)
    ensures AsId(k) <==> IsNameBeside(k)
  {
  }

  /** A function may be called "filter" or "over": without a closing bracket directly before it
      neither word is a keyword, whatever follows. */
  lemma {:induction false} NamesStayNames(toks: seq<SourceToken>, j: nat)
    requires j < |toks| && (toks[j].kind.FILTER? || toks[j].kind.OVER?)
    requires j == 0 || !toks[j - 1].kind.RP?
    ensures Resolve(toks)[j].kind.ID?
  {
    WindowWordsDecided(toks, j);
  }
}
