/** The keyword index (token/keywords.go): a table sorted by length and spelling, with the
    first row and the number of rows for every length and first letter. */
module Keywords {
  import opened Token
  import opened Scanner

  const MIN_LENGTH := 2
  const MAX_LENGTH := 17

  predicate IsWord(w: string) {
    MIN_LENGTH <= |w| <= MAX_LENGTH && 'A' <= w[0] <= 'Z' && UpperCase(w) == w
  }

  /** A keyword map the index can hold: its offsets are single bytes. */
  ghost predicate Indexable(words: map<string, Kind>) {
    |words| <= 255 && Keywords(words) && forall w :: w in words ==> IsWord(w)
  }

  /** strings.Compare(a, b) < 0. */
  predicate Less(a: string, b: string) {
    if a == "" || b == "" then a == "" && b != ""
    else a[0] < b[0] || (a[0] == b[0] && Less(a[1..], b[1..]))
  }

  /** The table's order: by length, then by spelling. */
  predicate Before(a: string, b: string) {
    |a| < |b| || (|a| == |b| && Less(a, b))
  }

  predicate Ordered(names: seq<string>) {
    forall j :: 0 < j < |names| ==> !Before(names[j], names[j - 1])
  }

  lemma {:induction false} LessOneWay(a: string, b: string)
    requires Less(a, b)
    ensures !Less(b, a)
  {
    if a != "" && b != "" && a[0] == b[0] {
      LessOneWay(a[1..], b[1..]);
    }
  }

  /** slices.SortFunc, by insertion. */
  function Insert(name: string, names: seq<string>): seq<string> {
    if names == [] || Before(name, names[0]) then [name] + names
    else [names[0]] + Insert(name, names[1..])
  }

  function Sort(names: seq<string>): seq<string> {
    if names == [] then [] else Insert(names[0], Sort(names[1..]))
  }

  lemma {:induction false} InsertOrders(name: string, names: seq<string>)
    requires Ordered(names)
    ensures Ordered(Insert(name, names)) && multiset(Insert(name, names)) == multiset(names) + multiset{name}
    ensures Insert(name, names)[0] == name || (names != [] && Insert(name, names)[0] == names[0])
  {
    if names == [] {
    } else if Before(name, names[0]) {
      if |name| == |names[0]| {
        LessOneWay(name, names[0]);
      }
    } else {
      assert names == [names[0]] + names[1..];
      InsertOrders(name, names[1..]);
    }
  }

  lemma {:induction false} SortOrders(names: seq<string>)
    ensures Ordered(Sort(names)) && multiset(Sort(names)) == multiset(names)
  {
    if names != [] {
      assert names == [names[0]] + names[1..];
      SortOrders(names[1..]);
      InsertOrders(names[0], Sort(names[1..]));
    }
  }

  /** Where a word's group stands among the groups. */
  function Key(w: string): int
    requires w != ""
  {
    |w| * 26 + (w[0] as int - 'A' as int)
  }

  predicate InGroup(w: string, length: nat, letter: nat) {
    |w| == length && w != "" && w[0] as int == 'A' as int + letter
  }

  /** In an ordered list of words the groups stand in order. */
  lemma {:induction false} KeysAscend(names: seq<string>, j: nat, k: nat)
    requires Ordered(names) && j <= k < |names| && forall l :: 0 <= l < |names| ==> IsWord(names[l])
    ensures names[j] != "" && names[k] != "" && Key(names[j]) <= Key(names[k])
    decreases k
  {
    if j < k {
      KeysAscend(names, j, k - 1);
      assert !Before(names[k], names[k - 1]);
    }
  }

  lemma GroupKey(a: string, b: string, length: nat, letter: nat)
    requires IsWord(a) && IsWord(b) && InGroup(a, length, letter)
    ensures Key(a) == Key(b) <==> InGroup(b, length, letter)
  {
  }

  datatype Row = Row(name: string, kind: Kind)

  /** Two bytes of the shape table. */
  datatype Group = Group(lo: nat, n: nat)

  function Byte(n: nat): nat { n % 256 }

  /** `g` gives exactly the rows of its group among the first `m` names. */
  ghost predicate Delimits(g: Group, names: seq<string>, m: nat, length: nat, letter: nat)
    requires m <= |names|
  {
    && g.lo + g.n <= m
    && forall j :: 0 <= j < m ==> (g.lo <= j < g.lo + g.n <==> InGroup(names[j], length, letter))
  }

  /** c &^ 0x20 of a byte. */
  function ClearCaseBit(c: char): int {
    if (c as int / 32) % 2 == 1 then c as int - 32 else c as int
  }

  lemma ClearedIsUpper(c: char)
    ensures 'A' as int <= ClearCaseBit(c) <= 'Z' as int <==> 'A' <= Upper(c) <= 'Z'
    ensures 'A' <= Upper(c) <= 'Z' ==> Upper(c) as int == ClearCaseBit(c)
  {
  }

  /** A group after one more name. */
  function Counted(g: Group, i: nat): Group {
    Group(if g.n == 0 then Byte(i) else g.lo, Byte(g.n + 1))
  }

  lemma {:induction false} GroupGrows(g: Group, names: seq<string>, m: nat, length: nat, letter: nat)
    requires m < |names| <= 255 && Ordered(names) && (forall l :: 0 <= l < |names| ==> IsWord(names[l]))
    requires Delimits(g, names, m, length, letter)
    ensures Delimits(if InGroup(names[m], length, letter) then Counted(g, m) else g, names, m + 1, length, letter)
  {
    if InGroup(names[m], length, letter) && g.n > 0 {
      assert InGroup(names[g.lo], length, letter);
      KeysAscend(names, g.lo, m - 1);
      KeysAscend(names, m - 1, m);
      GroupKey(names[m], names[g.lo], length, letter);
      GroupKey(names[m], names[m - 1], length, letter);
    }
  }

  /** The shape table describes the first `m` names. */
  ghost predicate Describes(shape: array2<Group>, names: seq<string>, m: nat)
    reads shape
    requires m <= |names| && shape.Length0 == MAX_LENGTH + 1 && shape.Length1 == 26
  {
    forall l, c :: 0 <= l <= MAX_LENGTH && 0 <= c < 26 ==> Delimits(shape[l, c], names, m, l, c)
  }

  class KeywordIndex {
    const table: array<Row>
    const shape: array2<Group>
    ghost const words: map<string, Kind>

    ghost predicate Valid()
      reads table, shape
    {
      && Indexable(words)
      && shape.Length0 == MAX_LENGTH + 1 && shape.Length1 == 26
      && table.Length <= 255
      && Lists(table[..], words)
      && Describes(shape, Names(table[..]), table.Length)
    }

    /** init(): the names in any order, sorted, and their groups counted. */
    constructor (words: map<string, Kind>)
      requires Indexable(words)
      ensures Valid() && this.words == words && fresh(table) && fresh(shape)
    {
      var names := NamesOf(words);
      var rows := new Row[|names|](_ => Row("", ID));
      var groups := new Group[MAX_LENGTH + 1, 26]((l, c) => Group(0, 0));
      assert Describes(groups, names, 0);
      for i := 0 to |names|
        invariant forall j :: 0 <= j < i ==> rows[j] == Row(names[j], words[names[j]])
        invariant Describes(groups, names, i)
      {
        rows[i] := Row(names[i], words[names[i]]);
        AddToGroup(groups, names, i);
      }
      table, shape := rows, groups;
      this.words := words;
      new;
      RowsList(words, names, rows[..]);
    }

    /** Lookup(): an identifier's kind, found among the words of its length and first letter. */
    method Lookup(name: string) returns (kind: Kind)
      requires Valid()
      ensures kind == Scanner.Lookup(words, name)
    {
      hide UpperCase, Indexable, Lists, Delimits, InGroup;
      UpperShape(words, name);
      if |name| < MIN_LENGTH || |name| > MAX_LENGTH {
        return ID;
      }
      var c := ClearCaseBit(name[0]);
      if c < 'A' as int || c > 'Z' as int {
        return ID;
      }
      var g := shape[|name|, c - 'A' as int];
      assert Delimits(g, Names(table[..]), table.Length, |name|, c - 'A' as int);
      GroupFits(g, Names(table[..]), |name|, c - 'A' as int);
      var j := g.lo;
      while j < Byte(g.lo + g.n)
        invariant g.lo <= j <= g.lo + g.n <= table.Length
        invariant forall l :: g.lo <= l < j ==> table[..][l].name != UpperCase(name)
        decreases g.lo + g.n - j
      {
        RowInGroup(g, Names(table[..]), j, |name|, c - 'A' as int);
        var same := EqualUpper(name, table[j].name);
        if same {
          Listed(table[..], words, j);
          return table[j].kind;
        }
        j := j + 1;
      }
      Unlisted(table[..], words, g, UpperCase(name));
      return ID;
    }
  }

  function Names(rows: seq<Row>): (names: seq<string>)
    ensures |names| == |rows| && forall j :: 0 <= j < |rows| ==> names[j] == rows[j].name
  {
    seq(|rows|, j requires 0 <= j < |rows| => rows[j].name)
  }

  /** The rows hold the map, and nothing else. */
  ghost predicate Lists(rows: seq<Row>, words: map<string, Kind>) {
    && (forall j :: 0 <= j < |rows| ==> rows[j].name in words && words[rows[j].name] == rows[j].kind)
    && (forall w :: w in words ==> w in Names(rows))
  }

  lemma RowsList(words: map<string, Kind>, names: seq<string>, rows: seq<Row>)
    requires |rows| == |names| && (forall w :: w in words <==> w in names)
    requires forall j :: 0 <= j < |names| ==> names[j] in words && rows[j] == Row(names[j], words[names[j]])
    ensures Names(rows) == names && Lists(rows, words)
  {
    assert Names(rows) == names;
  }

  lemma Listed(rows: seq<Row>, words: map<string, Kind>, j: nat)
    requires Lists(rows, words) && j < |rows|
    ensures rows[j].name in words && words[rows[j].name] == rows[j].kind
  {
  }

  /** A word none of whose group's rows has its name is not in the map. */
  lemma Unlisted(rows: seq<Row>, words: map<string, Kind>, g: Group, w: string)
    requires Lists(rows, words) && IsLetter(w)
    requires Delimits(g, Names(rows), |rows|, |w|, w[0] as int - 'A' as int)
    requires forall l :: g.lo <= l < g.lo + g.n ==> rows[l].name != w
    ensures w !in words
  {
  }

  lemma RowInGroup(g: Group, names: seq<string>, j: nat, length: nat, letter: nat)
    requires Delimits(g, names, |names|, length, letter) && g.lo <= j < g.lo + g.n
    ensures j < |names| && |names[j]| == length
  {
  }

  lemma GroupFits(g: Group, names: seq<string>, length: nat, letter: nat)
    requires Delimits(g, names, |names|, length, letter)
    ensures g.lo + g.n <= |names|
  {
  }

  predicate IsLetter(w: string) { w != "" && 'A' <= w[0] <= 'Z' }

  /** A name of no word's shape is no word; otherwise its first byte gives its letter. */
  lemma UpperShape(words: map<string, Kind>, name: string)
    requires Indexable(words)
    ensures |UpperCase(name)| == |name|
    ensures |name| < MIN_LENGTH || |name| > MAX_LENGTH ==> UpperCase(name) !in words
    ensures name != "" && !('A' as int <= ClearCaseBit(name[0]) <= 'Z' as int) ==> UpperCase(name) !in words
    ensures name != "" && 'A' as int <= ClearCaseBit(name[0]) <= 'Z' as int ==>
              IsLetter(UpperCase(name)) && UpperCase(name)[0] as int == ClearCaseBit(name[0])
  {
    if name != "" {
      ClearedIsUpper(name[0]);
    }
  }

  /** One turn of init()'s loop: the name `names[i]` is counted in its group. */
  method AddToGroup(groups: array2<Group>, names: seq<string>, i: nat)
    requires groups.Length0 == MAX_LENGTH + 1 && groups.Length1 == 26
    requires i < |names| <= 255 && Ordered(names) && forall l :: 0 <= l < |names| ==> IsWord(names[l])
    requires Describes(groups, names, i)
    modifies groups
    ensures Describes(groups, names, i + 1)
  {
    hide Ordered, Delimits;
    var name := names[i];
    assert IsWord(name);
    var letter := name[0] as int - 'A' as int;
    forall l, c | 0 <= l <= MAX_LENGTH && 0 <= c < 26
      ensures Delimits(if l == |name| && c == letter then Counted(groups[l, c], i) else groups[l, c], names, i + 1, l, c)
    {
      GroupGrows(groups[l, c], names, i, l, c);
    }
    var g := groups[|name|, letter];
    if g.n == 0 {
      g := g.(lo := Byte(i));
    }
    g := g.(n := Byte(g.n + 1));
    groups[|name|, letter] := g;
  }

  /** The keys of the map, drawn in any order and sorted. */
  method NamesOf(words: map<string, Kind>) returns (names: seq<string>)
    requires Indexable(words)
    ensures Ordered(names) && |names| == |words|
    ensures forall w :: w in words <==> w in names
    ensures forall j :: 0 <= j < |names| ==> IsWord(names[j])
  {
    var drawn: seq<string> := [];
    var rest := words.Keys;
    while rest != {}
      invariant rest <= words.Keys && |drawn| + |rest| == |words|
      invariant forall w :: w in words ==> (w in rest || w in drawn)
      invariant forall w :: w in drawn ==> w in words
      decreases rest
    {
      var name :| name in rest;
      drawn := drawn + [name];
      rest := rest - {name};
    }
    SortOrders(drawn);
    names := Sort(drawn);
    assert |multiset(names)| == |multiset(drawn)|;
    forall w
      ensures w in words <==> w in names
    {
      assert w in names <==> w in multiset(names);
      assert w in drawn <==> w in multiset(drawn);
    }
    assert forall j :: 0 <= j < |names| ==> names[j] in names;
  }

  /** equalUpper(): whether `name` in upper case is `word`. */
  method EqualUpper(name: string, word: string) returns (same: bool)
    requires |name| == |word|
    ensures same <==> UpperCase(name) == word
  {
    for i := 0 to |name|
      invariant forall j :: 0 <= j < i ==> UpperCase(name)[j] == word[j]
    {
      var c := name[i];
      if 'a' <= c <= 'z' {
        c := (c as int - 32) as char;
      }
      if c != word[i] {
        assert UpperCase(name)[i] != word[i];
        return false;
      }
    }
    return true;
  }
}
