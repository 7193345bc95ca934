/** Bind parameter numbers (bindParam in parser/parse_expr.go). */
module Binds {

  /** The largest value of a Go int on a 64-bit platform. */
  const MAX_INT: int := 0x7fff_ffff_ffff_ffff

  /** `n++` on a Go int. */
  function Increment(n: int): int { if n == MAX_INT then -MAX_INT - 1 else n + 1 }

  /** The parser's counter and its map of named parameters. */
  datatype Numbers = Numbers(nVar: int, names: map<string, int>)

  const NONE := Numbers(0, map[])

  predicate AllDigits(s: string) { forall i :: 0 <= i < |s| ==> '0' <= s[i] <= '9' }

  function ValueOf(s: string): nat
    requires AllDigits(s)
  {
    if |s| == 0 then 0 else ValueOf(s[..|s| - 1]) * 10 + (s[|s| - 1] as int - '0' as int)
  }

  /** strconv.Atoi on what follows a '?': a parse error for anything out of range. */
  predicate Parses(s: string) { |s| > 0 && AllDigits(s) && ValueOf(s) <= MAX_INT }

  predicate Numbered(raw: string) { |raw| > 1 && raw[0] == '?' }

  /** The number a parameter gets. */
  function NumberOf(nb: Numbers, raw: string): int {
    if raw == "?" then Increment(nb.nVar)
    else if Numbered(raw) then (if Parses(raw[1..]) then ValueOf(raw[1..]) else 0)
    else if raw in nb.names then nb.names[raw]
    else Increment(nb.nVar)
  }

  /** The counter and the map after it. */
  function Bind(nb: Numbers, raw: string): Numbers {
    var v := NumberOf(nb, raw);
    if raw == "?" then nb.(nVar := v)
    else if Numbered(raw) then (if Parses(raw[1..]) && v > nb.nVar then nb.(nVar := v) else nb)
    else if raw in nb.names then nb
    else Numbers(v, nb.names[raw := v])
  }

  /** The counter and the map after a run of parameters. */
  function After(raws: seq<string>): Numbers {
    if raws == [] then NONE else Bind(After(raws[..|raws| - 1]), raws[|raws| - 1])
  }

  /** The number the parameter `k` of a run gets. */
  function Given(raws: seq<string>, k: nat): int
    requires k < |raws|
  {
    NumberOf(After(raws[..k]), raws[k])
  }

  predicate IsNamed(raw: string) { raw != "?" && !Numbered(raw) }

  /** A parameter that takes a new number: "?", and a name not seen before. */
  predicate Fresh(raws: seq<string>, k: nat)
    requires k < |raws|
  {
    raws[k] == "?" || (IsNamed(raws[k]) && raws[k] !in raws[..k])
  }

  /** The counter is never incremented at the largest int. */
  ghost predicate NoWrap(raws: seq<string>) {
    forall k :: 0 <= k < |raws| && Fresh(raws, k) ==> After(raws[..k]).nVar != MAX_INT
  }

  /** How many of the parameters `raws[lo..hi]` take a new number. */
  function FreshIn(raws: seq<string>, lo: nat, hi: nat): nat
    requires lo <= hi <= |raws|
  {
    if lo == hi then 0 else FreshIn(raws, lo, hi - 1) + (if Fresh(raws, hi - 1) then 1 else 0)
  }

  /** An explicit number in range. */
  predicate Explicit(raw: string) { Numbered(raw) && Parses(raw[1..]) }

  /** Said of the spellings alone: before every parameter that takes a new number, those that
      took one before it are fewer than the largest int, and so is every explicit number
      together with those that came after it. */
  ghost predicate StaysBelow(raws: seq<string>) {
    forall k :: 0 <= k < |raws| && Fresh(raws, k) ==> RoomAt(raws, k, MAX_INT)
  }

  ghost predicate RoomAt(raws: seq<string>, k: nat, m: int)
    requires k <= |raws|
  {
    && FreshIn(raws, 0, k) < m
    && forall j :: 0 <= j < k && Explicit(raws[j]) ==> ValueOf(raws[j][1..]) + FreshIn(raws, j + 1, k) < m
  }

  /** Every new number is above all the earlier ones. */
  ghost predicate Rising(raws: seq<string>) {
    forall k :: 0 <= k < |raws| && Fresh(raws, k) ==> forall j :: 0 <= j < k ==> Given(raws, j) < Given(raws, k)
  }

  /** What the counter and the map mean after a run. */
  ghost predicate Means(nb: Numbers, raws: seq<string>) {
    && 0 <= nb.nVar <= MAX_INT
    && (forall j :: 0 <= j < |raws| ==> 0 <= Given(raws, j) <= nb.nVar)
    && (nb.nVar == 0 || exists j :: 0 <= j < |raws| && Given(raws, j) == nb.nVar)
    && (forall w :: w in nb.names <==> IsNamed(w) && w in raws)
    && (forall j :: 0 <= j < |raws| && IsNamed(raws[j]) ==> raws[j] in nb.names && nb.names[raws[j]] == Given(raws, j))
    && (forall a, b :: a in nb.names && b in nb.names && nb.names[a] == nb.names[b] ==> a == b)
    && (forall a :: a in nb.names ==> 0 < nb.names[a] <= nb.nVar)
  }

  lemma {:induction false} GivenBefore(raws: seq<string>, raw: string, j: nat)
    requires j < |raws|
    ensures Given(raws + [raw], j) == Given(raws, j) && Fresh(raws + [raw], j) == Fresh(raws, j)
  {
    assert (raws + [raw])[..j] == raws[..j];
  }

  lemma GivenLast(raws: seq<string>, raw: string)
    ensures After(raws + [raw]) == Bind(After(raws), raw)
    ensures Given(raws + [raw], |raws|) == NumberOf(After(raws), raw)
    ensures Fresh(raws + [raw], |raws|) == (raw == "?" || (IsNamed(raw) && raw !in raws))
  {
    assert (raws + [raw])[..|raws|] == raws;
  }

  lemma {:induction false} NoWrapPrefix(raws: seq<string>, raw: string)
    requires NoWrap(raws + [raw])
    ensures NoWrap(raws)
    ensures raw == "?" || (IsNamed(raw) && raw !in raws) ==> After(raws).nVar != MAX_INT
  {
    hide Given, After, Fresh;
    forall k | 0 <= k < |raws| && Fresh(raws, k)
      ensures After(raws[..k]).nVar != MAX_INT
    {
      GivenBefore(raws, raw, k);
      assert (raws + [raw])[..k] == raws[..k];
    }
    GivenLast(raws, raw);
    assert (raws + [raw])[..|raws|] == raws;
  }

  lemma {:induction false} MeansStep(nb: Numbers, raws: seq<string>, raw: string)
    requires nb == After(raws) && Means(nb, raws)
    requires raw == "?" || (IsNamed(raw) && raw !in raws) ==> nb.nVar != MAX_INT
    ensures Means(Bind(nb, raw), raws + [raw])
  {
    hide Given, After, Bind, NumberOf;
    var all := raws + [raw];
    var n := |raws|;
    GivenLast(raws, raw);
    forall j | 0 <= j < n
      ensures Given(all, j) == Given(raws, j) && all[j] == raws[j]
    {
      GivenBefore(raws, raw, j);
    }
    var nb2 := Bind(nb, raw);
    Counts(nb, raw);
    NamesGrow(nb, raw);
    assert forall w :: w in all <==> w in raws || w == raw;
    if nb2.nVar != nb.nVar {
      assert Given(all, n) == nb2.nVar;
    } else if nb.nVar != 0 {
      var j :| 0 <= j < n && Given(raws, j) == nb.nVar;
      assert Given(all, j) == nb2.nVar;
    }
  }

  /** One parameter only raises the counter, and then to its own number. */
  lemma Counts(nb: Numbers, raw: string)
    requires 0 <= nb.nVar <= MAX_INT && forall a :: a in nb.names ==> 0 < nb.names[a] <= nb.nVar
    requires raw == "?" || (IsNamed(raw) && raw !in nb.names) ==> nb.nVar != MAX_INT
    ensures 0 <= NumberOf(nb, raw) <= Bind(nb, raw).nVar <= MAX_INT && nb.nVar <= Bind(nb, raw).nVar
    ensures Bind(nb, raw).nVar != nb.nVar ==> NumberOf(nb, raw) == Bind(nb, raw).nVar
  {
    hide ValueOf;
  }

  /** A name that is new gets a number above the counter; nothing else changes the map. */
  lemma NamesGrow(nb: Numbers, raw: string)
    requires IsNamed(raw) && raw !in nb.names ==> nb.nVar != MAX_INT
    ensures var nb2 := Bind(nb, raw);
            if IsNamed(raw) && raw !in nb.names then
              nb2.names == nb.names[raw := nb2.nVar] && NumberOf(nb, raw) == nb2.nVar == nb.nVar + 1
            else
              nb2.names == nb.names && (IsNamed(raw) ==> NumberOf(nb, raw) == nb.names[raw])
  {
  }

  lemma {:induction false} RunMeans(raws: seq<string>)
    requires NoWrap(raws)
    ensures Means(After(raws), raws)
  {
    hide Given, Fresh, Bind;
    if raws != [] {
      var n := |raws| - 1;
      assert raws == raws[..n] + [raws[n]];
      NoWrapPrefix(raws[..n], raws[n]);
      RunMeans(raws[..n]);
      MeansStep(After(raws[..n]), raws[..n], raws[n]);
    }
  }

  lemma {:induction false} NoWrapTake(raws: seq<string>, n: nat)
    requires n <= |raws| && forall k :: 0 <= k < n && Fresh(raws, k) ==> After(raws[..k]).nVar != MAX_INT
    ensures NoWrap(raws[..n])
  {
    forall k | 0 <= k < n && Fresh(raws[..n], k)
      ensures After(raws[..n][..k]).nVar != MAX_INT
    {
      assert raws[..n][..k] == raws[..k];
    }
  }

  lemma {:induction false} GivenTake(raws: seq<string>, n: nat, j: nat)
    requires j < n <= |raws|
    ensures Given(raws[..n], j) == Given(raws, j)
  {
    assert raws[..n][..j] == raws[..j];
  }

  /** The counter on ints without a bound. */
  function Peak(raws: seq<string>, k: nat): int
    requires k <= |raws|
  {
    if k == 0 then 0
    else
      var p := Peak(raws, k - 1);
      if Fresh(raws, k - 1) then p + 1
      else if Explicit(raws[k - 1]) && ValueOf(raws[k - 1][1..]) > p then ValueOf(raws[k - 1][1..])
      else p
  }

  lemma {:induction false} CounterIsPeak(raws: seq<string>, k: nat)
    requires k <= |raws| && NoWrap(raws[..k])
    ensures After(raws[..k]).nVar == Peak(raws, k)
  {
    hide After, Given, ValueOf, NoWrap;
    if k == 0 {
      NothingGiven(raws);
    } else {
      var raw := raws[k - 1];
      assert raws[..k] == raws[..k - 1] + [raw];
      NoWrapPrefix(raws[..k - 1], raw);
      RunMeans(raws[..k - 1]);
      CounterIsPeak(raws, k - 1);
      GivenLast(raws[..k - 1], raw);
    }
  }

  lemma NothingGiven(raws: seq<string>)
    ensures After(raws[..0]).nVar == 0
  {
  }

  lemma {:induction false} PeakBelow(raws: seq<string>, k: nat, m: int)
    requires k <= |raws|
    ensures Peak(raws, k) < m <==> RoomAt(raws, k, m)
  {
    hide Fresh, Explicit, ValueOf;
    if k > 0 {
      PeakBelow(raws, k - 1, if Fresh(raws, k - 1) then m - 1 else m);
      assert FreshIn(raws, k, k) == 0;
      OneOrOther(raws, k - 1);
    }
  }

  lemma OneOrOther(raws: seq<string>, k: nat)
    requires k < |raws|
    ensures !(Fresh(raws, k) && Explicit(raws[k])) && (Explicit(raws[k]) ==> AllDigits(raws[k][1..]))
  {
  }

  /** The condition on the spellings is the condition on the counter. */
  lemma {:induction false} BelowIsNoWrap(raws: seq<string>)
    ensures StaysBelow(raws) <==> NoWrap(raws)
  {
    hide Fresh, After, Peak, RoomAt;
    if NoWrap(raws) {
      forall k | 0 <= k < |raws| && Fresh(raws, k)
        ensures RoomAt(raws, k, MAX_INT)
      {
        NoWrapTake(raws, k);
        RunMeans(raws[..k]);
        CounterIsPeak(raws, k);
        PeakBelow(raws, k, MAX_INT);
      }
    } else {
      var k := FirstWrap(raws, 0);
      NoWrapTake(raws, k);
      CounterIsPeak(raws, k);
      PeakBelow(raws, k, MAX_INT);
    }
  }

  /** Every new number is above all the earlier ones exactly when the spellings keep the counter
      below the largest int: `?9223372036854775807` may not come before a "?". */
  lemma {:induction false} RisingUnlessWrapped(raws: seq<string>)
    ensures Rising(raws) <==> StaysBelow(raws)
  {
    hide StaysBelow;
    BelowIsNoWrap(raws);
    if NoWrap(raws) {
      forall k, j | 0 <= j < k < |raws| && Fresh(raws, k)
        ensures Given(raws, j) < Given(raws, k)
      {
        RisesAt(raws, j, k);
      }
    } else {
      var j, k := WrapFalls(raws);
    }
  }

  /** Where the counter wraps, a new number is below an earlier one, the largest int. */
  lemma {:induction false} WrapFalls(raws: seq<string>) returns (j: nat, k: nat)
    requires !NoWrap(raws)
    ensures j < k < |raws| && Fresh(raws, k) && Given(raws, j) == MAX_INT && Given(raws, k) == -MAX_INT - 1
    ensures After(raws[..k + 1]).nVar == -MAX_INT - 1
  {
    hide After, Given, Fresh;
    k := FirstWrap(raws, 0);
    NoWrapTake(raws, k);
    RunMeans(raws[..k]);
    j :| 0 <= j < k && Given(raws[..k], j) == MAX_INT;
    GivenTake(raws, k, j);
    FreshNumber(raws, k);
  }

  /** After every part of the run the counter is the largest number handed out, 0 if that is all
      there is. */
  ghost predicate Largest(raws: seq<string>) {
    forall n :: 0 <= n <= |raws| ==> LargestOf(After(raws[..n]).nVar, raws, n)
  }

  ghost predicate LargestOf(v: int, raws: seq<string>, n: nat)
    requires n <= |raws|
  {
    && (forall j :: 0 <= j < n ==> 0 <= Given(raws, j) <= v)
    && (v == 0 || exists j :: 0 <= j < n && Given(raws, j) == v)
  }

  lemma {:induction false} CounterIsLargest(raws: seq<string>)
    ensures Largest(raws) <==> StaysBelow(raws)
  {
    hide StaysBelow, After, Given;
    BelowIsNoWrap(raws);
    if NoWrap(raws) {
      forall n | 0 <= n <= |raws|
        ensures LargestOf(After(raws[..n]).nVar, raws, n)
      {
        NoWrapTake(raws, n);
        RunMeans(raws[..n]);
        forall j | 0 <= j < n
          ensures Given(raws, j) == Given(raws[..n], j)
        {
          GivenTake(raws, n, j);
        }
      }
    } else {
      var j, k := WrapFalls(raws);
      assert !LargestOf(After(raws[..k + 1]).nVar, raws, k + 1);
    }
  }

  /** A name keeps its number. */
  lemma {:induction false} NameKept(raws: seq<string>, j: nat, n: nat)
    requires j < n <= |raws| && IsNamed(raws[j])
    ensures raws[j] in After(raws[..n]).names && After(raws[..n]).names[raws[j]] == Given(raws, j)
    decreases n
  {
    hide Given, After;
    assert raws[..n] == raws[..n - 1] + [raws[n - 1]];
    GivenLast(raws[..n - 1], raws[n - 1]);
    if n - 1 > j {
      NameKept(raws, j, n - 1);
    } else {
      GivenIs(raws, j);
    }
  }

  /** Parameters with the same name share a number, whatever comes between them. */
  lemma {:induction false} SameNameShares(raws: seq<string>, j: nat, k: nat)
    requires j < |raws| && k < |raws| && IsNamed(raws[j]) && raws[j] == raws[k]
    ensures Given(raws, j) == Given(raws, k)
  {
    hide Given, After;
    NameKept(raws, j, |raws|);
    NameKept(raws, k, |raws|);
  }

  /** Two named parameters share a number exactly when they are spelled the same. */
  ghost predicate NamesApart(raws: seq<string>) {
    forall j, k :: 0 <= j < |raws| && 0 <= k < |raws| && IsNamed(raws[j]) && IsNamed(raws[k]) ==>
      (Given(raws, j) == Given(raws, k) <==> raws[j] == raws[k])
  }

  lemma {:induction false} NamesShare(raws: seq<string>)
    requires StaysBelow(raws)
    ensures NamesApart(raws)
  {
    hide Given, After, StaysBelow;
    BelowIsNoWrap(raws);
    RunMeans(raws);
  }

  /** All that is promised of parameter numbers holds exactly when the spellings keep the counter
      below the largest int. */
  lemma {:induction false} NumberedAsPromised(raws: seq<string>)
    ensures Rising(raws) && Largest(raws) && NamesApart(raws) <==> StaysBelow(raws)
  {
    hide Rising, Largest, NamesApart, StaysBelow;
    RisingUnlessWrapped(raws);
    CounterIsLargest(raws);
    if StaysBelow(raws) {
      NamesShare(raws);
    }
  }

  lemma FreshNumber(raws: seq<string>, k: nat)
    requires k < |raws| && Fresh(raws, k) && NoWrap(raws[..k])
    ensures Given(raws, k) == Increment(After(raws[..k]).nVar)
    ensures After(raws[..k + 1]).nVar == Given(raws, k)
  {
    hide Given, After;
    RunMeans(raws[..k]);
    GivenIs(raws, k);
    assert raws[..k + 1] == raws[..k] + [raws[k]];
    GivenLast(raws[..k], raws[k]);
  }

  lemma GivenIs(raws: seq<string>, k: nat)
    requires k < |raws|
    ensures Given(raws, k) == NumberOf(After(raws[..k]), raws[k])
  {
  }

  lemma RisesAt(raws: seq<string>, j: nat, k: nat)
    requires NoWrap(raws) && j < k < |raws| && Fresh(raws, k)
    ensures Given(raws, j) < Given(raws, k)
  {
    hide Given, After;
    NoWrapTake(raws, k);
    RunMeans(raws[..k]);
    GivenTake(raws, k, j);
    FreshNumber(raws, k);
  }

  /** The first parameter that wraps the counter. */
  lemma FirstWrap(raws: seq<string>, from: nat) returns (k: nat)
    requires !NoWrap(raws) && from <= |raws|
    requires forall l :: 0 <= l < from && Fresh(raws, l) ==> After(raws[..l]).nVar != MAX_INT
    ensures k < |raws| && Fresh(raws, k) && After(raws[..k]).nVar == MAX_INT
    ensures forall l :: 0 <= l < k && Fresh(raws, l) ==> After(raws[..l]).nVar != MAX_INT
    decreases |raws| - from
  {
    hide After, Fresh;
    if from < |raws| && Fresh(raws, from) && After(raws[..from]).nVar == MAX_INT {
      k := from;
    } else if from < |raws| {
      k := FirstWrap(raws, from + 1);
    } else {
      assert false;
    }
  }

  /** The wrapped counter: after the largest number, "?" is given the smallest. */
  lemma WrapsAround()
    ensures var raws := ["?9223372036854775807", "?"];
            Given(raws, 0) == MAX_INT && Given(raws, 1) == -MAX_INT - 1 && !Rising(raws)
  {
    var raws := ["?9223372036854775807", "?"];
    var digits := "9223372036854775807";
    assert raws[0][1..] == digits && AllDigits(digits);
    LargestInt();
    assert raws[..0] == [] && raws[..1] == [raws[0]] && raws[..1][..0] == [];
    assert Fresh(raws, 1);
  }

  /** Once the counter has wrapped, an explicit number can set it back, and two names come to
      share one. */
  lemma NamesCollide()
    ensures var raws := [":a", "?9223372036854775807", "?", "?0", ":b"];
            Given(raws, 0) == 1 && Given(raws, 4) == 1 && !NamesApart(raws)
  {
    var raws := [":a", "?9223372036854775807", "?", "?0", ":b"];
    LargestInt();
    ZeroParses();
    var r1, r2, r3, r4 := [":a"], [":a", raws[1]], [":a", raws[1], "?"], [":a", raws[1], "?", "?0"];
    assert raws[1][1..] == "9223372036854775807" && raws[3][1..] == "0";
    var n1 := Numbers(1, map[":a" := 1]);
    assert [] + [":a"] == r1 && After([]) == NONE;
    GivenLast([], ":a");
    assert After(r1) == n1;
    assert r1 + [raws[1]] == r2;
    GivenLast(r1, raws[1]);
    assert After(r2) == n1.(nVar := MAX_INT);
    assert r2 + ["?"] == r3;
    GivenLast(r2, "?");
    assert After(r3) == n1.(nVar := -MAX_INT - 1);
    assert r3 + ["?0"] == r4;
    GivenLast(r3, "?0");
    assert After(r4) == n1.(nVar := 0);
    assert raws[..0] == [] && raws[..4] == r4;
  }

  lemma ZeroParses()
    ensures Parses("0") && ValueOf("0") == 0
  {
    assert "0"[..0] == "";
  }

  lemma LargestInt()
    ensures AllDigits("9223372036854775807") && ValueOf("9223372036854775807") == MAX_INT
  {
    hide ValueOf, AllDigits;
    var digits := "9223372036854775807";
    var s, v := "", 0;
    NoDigits();
    while |s| < |digits|
      invariant |s| <= |digits| && s == digits[..|s|]
      invariant AllDigits(s) && ValueOf(s) == v && v == [0, 9, 92, 922, 9223, 92233, 922337, 9223372, 92233720, 922337203, 9223372036, 92233720368, 922337203685, 9223372036854, 92233720368547, 922337203685477, 9223372036854775, 92233720368547758, 922337203685477580, 9223372036854775807][|s|]
    {
      Append(s, digits[|s|], v);
      v := v * 10 + (digits[|s|] as int - '0' as int);
      s := s + [digits[|s|]];
    }
    assert s == digits;
  }

  lemma NoDigits()
    ensures AllDigits("") && ValueOf("") == 0
  {
  }

  lemma Append(s: string, c: char, v: nat)
    requires AllDigits(s) && ValueOf(s) == v && '0' <= c <= '9'
    ensures AllDigits(s + [c]) && ValueOf(s + [c]) == v * 10 + (c as int - '0' as int)
  {
    assert (s + [c])[..|s|] == s;
  }

  /** "?" and digits, as it is written. */
  predicate IsExplicit(raw: string) {
    |raw| > 1 && raw[0] == '?' && forall i :: 1 <= i < |raw| ==> '0' <= raw[i] <= '9'
  }

  /** The number written, for one that is. */
  function Written(raw: string): nat
    requires IsExplicit(raw)
  {
    ValueOf(raw[1..])
  }

  /** An explicit number is the parameter's number, whatever came before it. One that is no int
      counts as 0 and leaves the counter and the names as they were. */
  lemma {:induction false} ExplicitGiven(raws: seq<string>, k: nat)
    requires k < |raws| && IsExplicit(raws[k])
    ensures var v := Written(raws[k]);
            if v <= 0x7fff_ffff_ffff_ffff then Given(raws, k) == v
            else Given(raws, k) == 0 && After(raws[..k + 1]) == After(raws[..k])
  {
    hide ValueOf;
    GivenIs(raws, k);
    assert raws[..k + 1] == raws[..k] + [raws[k]];
    GivenLast(raws[..k], raws[k]);
  }

  /** Two explicit parameters share a number exactly when they write the same one. */
  lemma {:induction false} ExplicitShare(raws: seq<string>, j: nat, k: nat)
    requires j < |raws| && k < |raws| && IsExplicit(raws[j]) && IsExplicit(raws[k])
    requires Written(raws[j]) <= 0x7fff_ffff_ffff_ffff && Written(raws[k]) <= 0x7fff_ffff_ffff_ffff
    ensures Given(raws, j) == Given(raws, k) <==> Written(raws[j]) == Written(raws[k])
  {
    hide Given, Written;
    ExplicitGiven(raws, j);
    ExplicitGiven(raws, k);
  }

  /** Leading zeros do not count, and every further digit weighs ten times the one after it. */
  lemma {:induction false} DigitsWeigh(s: string, c: char, d: char)
    requires AllDigits(s) && '0' <= c <= '9' && '0' <= d <= '9'
    ensures ValueOf(s + [c]) == 10 * ValueOf(s) + (c as int - '0' as int)
    ensures ValueOf(['0'] + s) == ValueOf(s) && ValueOf([d]) == d as int - '0' as int
    decreases |s|
  {
    Append(s, c, ValueOf(s));
    NoDigits();
    Append("", d, 0);
    assert "" + [d] == [d];
    if s != "" {
      var n := |s| - 1;
      DigitsWeigh(s[..n], s[n], d);
      assert (['0'] + s)[..n + 1] == ['0'] + s[..n];
    } else {
      Append("", '0', 0);
      assert ['0'] + s == ['0'];
    }
  }

  /** A "?" and a name not seen before take the number after the largest so far, 1 if there is
      none, as long as the spellings keep the counter below the largest int. */
  lemma {:induction false} NewIsNext(raws: seq<string>, k: nat)
    requires StaysBelow(raws) && k < |raws|
    requires raws[k] == "?" || (raws[k] !in raws[..k] && (|raws[k]| < 2 || raws[k][0] != '?'))
    ensures forall j :: 0 <= j < k ==> Given(raws, j) < Given(raws, k)
    ensures Given(raws, k) == 1 || exists j :: 0 <= j < k && Given(raws, j) == Given(raws, k) - 1
  {
    hide Given, After, StaysBelow;
    RisingUnlessWrapped(raws);
    CounterIsLargest(raws);
    BelowIsNoWrap(raws);
    NoWrapTake(raws, k);
    FreshNumber(raws, k);
    assert LargestOf(After(raws[..k]).nVar, raws, k);
  }
}
