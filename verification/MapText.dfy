/** Printing a map as "k=v,k=v" in whatever order the map is iterated, and the
    parser that undoes it. */
module MapText {
  import opened Prelude

  /** One possible iteration order of a map. */
  ghost predicate Enumerates(order: seq<string>, m: map<string, string>) {
    Distinct(order) && forall k :: k in order <==> k in m
  }

  /** An item without a value is printed as its bare key. */
  function Item(k: string, v: string, keyValueSep: string): string {
    if v == "" then k else k + keyValueSep + v
  }

  function Print(order: seq<string>, m: map<string, string>, keyValueSep: string, itemSep: string): string
    requires forall k :: k in order ==> k in m
  {
    if order == [] then ""
    else
      var k := order[|order| - 1];
      (if |order| == 1 then "" else Print(order[..|order| - 1], m, keyValueSep, itemSep) + itemSep) +
      Item(k, m[k], keyValueSep)
  }

  ghost predicate IsPrinting(text: string, m: map<string, string>, keyValueSep: string, itemSep: string) {
    exists order :: Enumerates(order, m) && text == Print(order, m, keyValueSep, itemSep)
  }

  /** The keys of `m` are split into those printed and those still to come. */
  ghost predicate Splits(order: seq<string>, rest: set<string>, m: map<string, string>) {
    && Distinct(order)
    && (forall k :: k in m <==> k in order || k in rest)
    && (forall k :: k in order ==> k !in rest)
  }

  lemma SplitsOneMore(order: seq<string>, rest: set<string>, m: map<string, string>, key: string)
    requires Splits(order, rest, m) && key in rest
    ensures Splits(order + [key], rest - {key}, m)
  {
  }

  lemma PrintSnoc(order: seq<string>, m: map<string, string>, key: string, keyValueSep: string, itemSep: string)
    requires key in m && forall k :: k in order ==> k in m
    ensures Print(order + [key], m, keyValueSep, itemSep) ==
            (if order == [] then "" else Print(order, m, keyValueSep, itemSep) + itemSep) + Item(key, m[key], keyValueSep)
  {
    TakeOfSnoc(order, key);
  }

  lemma AppendItem(text: string, key: string, value: string, keyValueSep: string)
    ensures (text + key) + keyValueSep + value == text + (key + keyValueSep + value)
  {
    ConcatAssociates(text, key, keyValueSep);
    ConcatAssociates(text, key + keyValueSep, value);
  }

  method MapToString(m: map<string, string>, keyValueSep: string, itemSep: string) returns (text: string)
    ensures IsPrinting(text, m, keyValueSep, itemSep)
  {
    ghost var order: seq<string> := [];
    if |m| == 0 {
      assert Enumerates(order, m);
      return "";
    }
    text := "";
    var sep := "";
    var rest := m.Keys;
    while rest != {}
      invariant Splits(order, rest, m)
      invariant text == Print(order, m, keyValueSep, itemSep)
      invariant sep == if order == [] then "" else itemSep
      decreases rest
    {
      var key :| key in rest;
      ghost var prefix := text + sep;
      text := text + sep + key;
      var value := m[key];
      if value != "" {
        text := text + keyValueSep + value;
        AppendItem(prefix, key, value, keyValueSep);
      }
      sep := itemSep;
      PrintSnoc(order, m, key, keyValueSep, itemSep);
      SplitsOneMore(order, rest, m, key);
      assert text == prefix + Item(key, value, keyValueSep);
      rest := rest - {key};
      order := order + [key];
    }
    assert Enumerates(order, m);
  }

  // ------------------------------------------------------------------- parser

  function Split(text: string, sep: char): (parts: seq<string>)
    ensures |parts| >= 1
  {
    if text == [] then [[]] else Cut(text[0], sep, Split(text[1..], sep))
  }

  /** The parts once `c` is put in front of them. */
  function Cut(c: char, sep: char, rest: seq<string>): (parts: seq<string>)
    requires |rest| >= 1
    ensures |parts| >= 1
  {
    if c == sep then [[]] + rest else [[c] + rest[0]] + rest[1..]
  }

  lemma CutConcat(c: char, sep: char, a: seq<string>, b: seq<string>)
    requires |a| >= 1
    ensures Cut(c, sep, a + b) == Cut(c, sep, a) + b
  {
  }

  lemma {:induction false} SplitPartsAreFree(text: string, sep: char)
    ensures forall p :: p in Split(text, sep) ==> sep !in p
  {
    if text != [] {
      SplitPartsAreFree(text[1..], sep);
      var rest := Split(text[1..], sep);
      forall p | p in Split(text, sep) ensures sep !in p {
        if text[0] == sep {
          assert p == [] || p in rest;
        } else {
          assert rest[0] in rest;
          assert p == [text[0]] + rest[0] || p in rest[1..];
        }
      }
    }
  }

  lemma {:induction false} SplitOfFreeText(text: string, sep: char)
    requires sep !in text
    ensures Split(text, sep) == [text]
  {
    if text != [] {
      SplitOfFreeText(text[1..], sep);
      assert text == [text[0]] + text[1..];
    }
  }

  lemma {:induction false} SplitJoined(a: string, sep: char, b: string)
    ensures Split(a + [sep] + b, sep) == Split(a, sep) + Split(b, sep)
  {
    var t := a + [sep] + b;
    if a == [] {
      assert t[1..] == b && t[0] == sep;
    } else {
      SplitJoined(a[1..], sep, b);
      assert t[1..] == a[1..] + [sep] + b;
      CutConcat(a[0], sep, Split(a[1..], sep), Split(b, sep));
    }
  }

  /** Key and value of one item: cut at the first key separator. */
  function ParseItem(part: string, keyValueSep: char): (kv: (string, string))
    ensures keyValueSep !in kv.0
    ensures forall c :: c in kv.0 || c in kv.1 ==> c in part
  {
    if part == [] then ([], [])
    else if part[0] == keyValueSep then ([], part[1..])
    else
      var (k, v) := ParseItem(part[1..], keyValueSep);
      ([part[0]] + k, v)
  }

  function ParseItems(parts: seq<string>, keyValueSep: char): map<string, string> {
    if parts == [] then map[]
    else
      var (k, v) := ParseItem(parts[|parts| - 1], keyValueSep);
      ParseItems(parts[..|parts| - 1], keyValueSep)[k := v]
  }

  function Parse(text: string, keyValueSep: char, itemSep: char): map<string, string> {
    if text == "" then map[] else ParseItems(Split(text, itemSep), keyValueSep)
  }

  // --------------------------------------------------------------- round trip

  /** Keys free of both separators, values free of the item separator. */
  predicate SeparatorFree(m: map<string, string>, keyValueSep: char, itemSep: char) {
    forall k :: k in m ==> keyValueSep !in k && itemSep !in k && itemSep !in m[k]
  }

  /** What a caller can check before printing: free of separators, and not the map
      whose only entry is empty on both sides. */
  predicate Printable(m: map<string, string>, keyValueSep: char, itemSep: char) {
    SeparatorFree(m, keyValueSep, itemSep) && m != map["" := ""]
  }

  lemma {:induction false} ParseItemOfItem(k: string, v: string, keyValueSep: char)
    requires keyValueSep !in k
    ensures ParseItem(Item(k, v, [keyValueSep]), keyValueSep) == (k, v)
  {
    var part := Item(k, v, [keyValueSep]);
    if k == [] {
      assert v != "" ==> part[1..] == v;
    } else {
      assert part[0] == k[0];
      assert part[1..] == Item(k[1..], v, [keyValueSep]);
      ParseItemOfItem(k[1..], v, keyValueSep);
      assert [k[0]] + k[1..] == k;
    }
  }

  ghost function Items(order: seq<string>, m: map<string, string>, keyValueSep: char): (parts: seq<string>)
    requires forall k :: k in order ==> k in m
    ensures |parts| == |order|
    ensures forall i :: 0 <= i < |order| ==> parts[i] == Item(order[i], m[order[i]], [keyValueSep])
  {
    seq(|order|, i requires 0 <= i < |order| => Item(order[i], m[order[i]], [keyValueSep]))
  }

  lemma ItemsSnoc(order: seq<string>, m: map<string, string>, k: string, keyValueSep: char)
    requires k in m && forall x :: x in order ==> x in m
    ensures Items(order + [k], m, keyValueSep) == Items(order, m, keyValueSep) + [Item(k, m[k], [keyValueSep])]
  {
  }

  lemma ItemIsFree(k: string, v: string, keyValueSep: char, itemSep: char)
    requires keyValueSep != itemSep && itemSep !in k && itemSep !in v
    ensures itemSep !in Item(k, v, [keyValueSep])
  {
  }

  lemma {:induction false} SplitOfPrint(order: seq<string>, m: map<string, string>, keyValueSep: char, itemSep: char)
    requires order != [] && forall k :: k in order ==> k in m
    requires keyValueSep != itemSep
    requires forall k :: k in m ==> itemSep !in k && itemSep !in m[k]
    ensures Split(Print(order, m, [keyValueSep], [itemSep]), itemSep) == Items(order, m, keyValueSep)
  {
    var front, k := order[..|order| - 1], order[|order| - 1];
    var item := Item(k, m[k], [keyValueSep]);
    assert order == front + [k];
    PrintSnoc(front, m, k, [keyValueSep], [itemSep]);
    ItemsSnoc(front, m, k, keyValueSep);
    ItemIsFree(k, m[k], keyValueSep, itemSep);
    SplitOfFreeText(item, itemSep);
    if front == [] {
      ConcatEmpty(item);
      ConcatEmpty([item]);
    } else {
      SplitOfPrint(front, m, keyValueSep, itemSep);
      SplitJoined(Print(front, m, [keyValueSep], [itemSep]), itemSep, item);
    }
  }

  ghost function Restrict(order: seq<string>, m: map<string, string>): map<string, string>
    requires forall k :: k in order ==> k in m
  {
    map k | k in order :: m[k]
  }

  lemma {:induction false} ParseOfItems(order: seq<string>, m: map<string, string>, keyValueSep: char)
    requires forall k :: k in order ==> k in m && keyValueSep !in k
    ensures ParseItems(Items(order, m, keyValueSep), keyValueSep) == Restrict(order, m)
  {
    if order != [] {
      var front, k := order[..|order| - 1], order[|order| - 1];
      assert order == front + [k];
      ItemsSnoc(front, m, k, keyValueSep);
      TakeOfSnoc(Items(front, m, keyValueSep), Item(k, m[k], [keyValueSep]));
      ParseOfItems(front, m, keyValueSep);
      ParseItemOfItem(k, m[k], keyValueSep);
      RestrictOneMore(front, k, m);
    }
  }

  lemma RestrictOneMore(front: seq<string>, k: string, m: map<string, string>)
    requires k in m && forall x :: x in front ==> x in m
    ensures Restrict(front + [k], m) == Restrict(front, m)[k := m[k]]
  {
  }

  lemma PrintedIsEmpty(order: seq<string>, m: map<string, string>, keyValueSep: char, itemSep: char)
    requires Enumerates(order, m)
    ensures Print(order, m, [keyValueSep], [itemSep]) == "" <==> m == map[] || m == map["" := ""]
  {
    if order != [] {
      var k := order[|order| - 1];
      assert k in m;
      if Print(order, m, [keyValueSep], [itemSep]) == "" {
        assert |order| == 1 && k == "" && m[k] == "";
        assert forall x :: x in m ==> x in order && x == "";
      }
      if m == map["" := ""] {
        assert order[0] in order && order[|order| - 1] in order;
        assert order[0] == order[|order| - 1] == "";
      }
    } else {
      assert forall x :: x in m ==> x in order;
      assert m.Keys == {};
    }
  }

  lemma {:induction false} ParsedIsClean(parts: seq<string>, keyValueSep: char, itemSep: char)
    requires forall p :: p in parts ==> itemSep !in p
    ensures var m := ParseItems(parts, keyValueSep);
            forall k :: k in m ==> keyValueSep !in k && itemSep !in k && itemSep !in m[k]
  {
    if parts != [] {
      ParsedIsClean(parts[..|parts| - 1], keyValueSep, itemSep);
      assert parts[|parts| - 1] in parts;
    }
  }

  /** Parsed keys are free of both separators, parsed values of the item separator. */
  lemma ParsedTextIsClean(text: string, keyValueSep: char, itemSep: char)
    requires text != ""
    ensures var m := Parse(text, keyValueSep, itemSep);
            forall k :: k in m ==> keyValueSep !in k && itemSep !in k && itemSep !in m[k]
  {
    SplitPartsAreFree(text, itemSep);
    ParsedIsClean(Split(text, itemSep), keyValueSep, itemSep);
  }

  /** Whatever the iteration order was, the printed text parses back to the map,
      exactly for the printable maps. */
  lemma PrintParseRoundTrip(text: string, m: map<string, string>, keyValueSep: char, itemSep: char)
    requires keyValueSep != itemSep
    requires IsPrinting(text, m, [keyValueSep], [itemSep])
    ensures Parse(text, keyValueSep, itemSep) == m <==> Printable(m, keyValueSep, itemSep)
  {
    var order :| Enumerates(order, m) && text == Print(order, m, [keyValueSep], [itemSep]);
    hide Print, ParseItems, Split;
    PrintedIsEmpty(order, m, keyValueSep, itemSep);
    if text == "" {
      assert "" in map["" := ""];
    } else {
      ParsedTextIsClean(text, keyValueSep, itemSep);
      if Printable(m, keyValueSep, itemSep) {
        ParseOfPrint(order, m, keyValueSep, itemSep);
      }
    }
  }

  lemma ParseOfPrint(order: seq<string>, m: map<string, string>, keyValueSep: char, itemSep: char)
    requires keyValueSep != itemSep && m != map[] && Printable(m, keyValueSep, itemSep)
    requires Enumerates(order, m)
    ensures ParseItems(Split(Print(order, m, [keyValueSep], [itemSep]), itemSep), keyValueSep) == m
  {
    hide Print, Split, ParseItems;
    EnumerationIsWhole(order, m);
    SplitOfPrint(order, m, keyValueSep, itemSep);
    ParseOfItems(order, m, keyValueSep);
  }

  lemma EnumerationIsWhole(order: seq<string>, m: map<string, string>)
    requires Enumerates(order, m)
    ensures Restrict(order, m) == m && (order == [] <==> m == map[])
  {
    if order == [] {
      assert m.Keys == {};
    } else {
      assert order[0] in m;
    }
  }

  /** Hence two printable maps with a common text are equal. */
  lemma PrintingIsInjective(text: string, m1: map<string, string>, m2: map<string, string>,
                            keyValueSep: char, itemSep: char)
    requires keyValueSep != itemSep
    requires Printable(m1, keyValueSep, itemSep) && Printable(m2, keyValueSep, itemSep)
    requires IsPrinting(text, m1, [keyValueSep], [itemSep]) && IsPrinting(text, m2, [keyValueSep], [itemSep])
    ensures m1 == m2
  {
    PrintParseRoundTrip(text, m1, keyValueSep, itemSep);
    PrintParseRoundTrip(text, m2, keyValueSep, itemSep);
  }

  /** The parts of a printed text: each key with its value behind the separator, or the
      bare key where there is no value. */
  lemma PrintedParts(text: string, m: map<string, string>, keyValueSep: char, itemSep: char) returns (order: seq<string>)
    requires keyValueSep != itemSep && m != map[]
    requires forall k :: k in m ==> itemSep !in k && itemSep !in m[k]
    requires IsPrinting(text, m, [keyValueSep], [itemSep])
    ensures Enumerates(order, m) && |Split(text, itemSep)| == |order|
    ensures forall i :: 0 <= i < |order| && order[i] in m ==>
              Split(text, itemSep)[i] == if m[order[i]] == "" then order[i] else order[i] + [keyValueSep] + m[order[i]]
  {
    order :| Enumerates(order, m) && text == Print(order, m, [keyValueSep], [itemSep]);
    EnumerationIsWhole(order, m);
    SplitOfPrint(order, m, keyValueSep, itemSep);
    hide Print, Split;
  }

  // -------------------------------------------------------- how many printings

  /** Every map can be iterated. */
  lemma {:induction false} SomeOrder(m: map<string, string>, keys: set<string>) returns (order: seq<string>)
    requires keys <= m.Keys
    ensures Distinct(order) && forall k :: k in order <==> k in keys
    decreases keys
  {
    order := [];
    if keys != {} {
      var k :| k in keys;
      order := SomeOrder(m, keys - {k});
      order := order + [k];
    }
  }

  lemma SwappedOrder(order: seq<string>, m: map<string, string>)
    requires Enumerates(order, m) && |order| >= 2
    ensures Enumerates(order[0 := order[1]][1 := order[0]], m)
  {
    var other := order[0 := order[1]][1 := order[0]];
    assert other[0] == order[1] && other[1] == order[0];
    forall k ensures k in other <==> k in order {
      if i :| 0 <= i < |order| && order[i] == k {
        assert other[if i == 0 then 1 else if i == 1 then 0 else i] == k;
      }
    }
  }

  /** The first item tells the first key. */
  lemma FirstKeyShows(x: seq<string>, y: seq<string>, m: map<string, string>, keyValueSep: char, itemSep: char)
    requires keyValueSep != itemSep && SeparatorFree(m, keyValueSep, itemSep)
    requires Enumerates(x, m) && Enumerates(y, m) && x != [] && y != []
    requires Print(x, m, [keyValueSep], [itemSep]) == Print(y, m, [keyValueSep], [itemSep])
    ensures x[0] == y[0]
  {
    SplitOfPrint(x, m, keyValueSep, itemSep);
    SplitOfPrint(y, m, keyValueSep, itemSep);
    hide Print, Split;
    assert x[0] in x && y[0] in y;
    assert Items(x, m, keyValueSep)[0] == Items(y, m, keyValueSep)[0];
    ParseItemOfItem(x[0], m[x[0]], keyValueSep);
    ParseItemOfItem(y[0], m[y[0]], keyValueSep);
  }

  /** A map with two entries, free of separators, has two different printings. */
  lemma TwoPrintings(m: map<string, string>, keyValueSep: char, itemSep: char) returns (a: string, b: string)
    requires keyValueSep != itemSep && SeparatorFree(m, keyValueSep, itemSep) && |m| >= 2
    ensures IsPrinting(a, m, [keyValueSep], [itemSep]) && IsPrinting(b, m, [keyValueSep], [itemSep]) && a != b
  {
    var x := SomeOrder(m, m.Keys);
    assert Enumerates(x, m);
    ShortOrder(x, m);
    var y := x[0 := x[1]][1 := x[0]];
    SwappedOrder(x, m);
    a, b := Print(x, m, [keyValueSep], [itemSep]), Print(y, m, [keyValueSep], [itemSep]);
    if a == b {
      FirstKeyShows(x, y, m, keyValueSep, itemSep);
    }
  }

  lemma ShortOrder(order: seq<string>, m: map<string, string>)
    requires Enumerates(order, m)
    ensures |order| == |m|
  {
    OrderLength(order);
    assert (set k | k in order) == m.Keys;
  }

  lemma {:induction false} OrderLength(order: seq<string>)
    requires Distinct(order)
    ensures |set k | k in order| == |order|
  {
    if order != [] {
      var front, last := order[..|order| - 1], order[|order| - 1];
      OrderLength(front);
      assert order == front + [last];
      assert (set k | k in order) == (set k | k in front) + {last};
      assert last !in front;
    }
  }

  lemma SomePrinting(m: map<string, string>, keyValueSep: string, itemSep: string) returns (text: string)
    ensures IsPrinting(text, m, keyValueSep, itemSep)
  {
    var order := SomeOrder(m, m.Keys);
    assert Enumerates(order, m);
    text := Print(order, m, keyValueSep, itemSep);
  }

  /** A map with at most one entry has one iteration order. */
  lemma OneOrder(x: seq<string>, y: seq<string>, m: map<string, string>)
    requires Enumerates(x, m) && Enumerates(y, m) && |m| <= 1
    ensures x == y
  {
    ShortOrder(x, m);
    ShortOrder(y, m);
    assert forall k :: k in x <==> k in y;
    assert (x != [] ==> x[0] in x) && (y != [] ==> y[0] in y);
  }

  /** All printings of a map free of separators agree if and only if it has at most one entry. */
  lemma OnePrintingIffFew(m: map<string, string>, keyValueSep: char, itemSep: char)
    requires keyValueSep != itemSep && SeparatorFree(m, keyValueSep, itemSep)
    ensures (forall a, b :: IsPrinting(a, m, [keyValueSep], [itemSep]) && IsPrinting(b, m, [keyValueSep], [itemSep]) ==>
               a == b) <==> |m| <= 1
  {
    if |m| <= 1 {
      forall a, b | IsPrinting(a, m, [keyValueSep], [itemSep]) && IsPrinting(b, m, [keyValueSep], [itemSep])
        ensures a == b
      {
        var x :| Enumerates(x, m) && a == Print(x, m, [keyValueSep], [itemSep]);
        var y :| Enumerates(y, m) && b == Print(y, m, [keyValueSep], [itemSep]);
        OneOrder(x, y, m);
      }
    } else {
      var a, b := TwoPrintings(m, keyValueSep, itemSep);
    }
  }
}
