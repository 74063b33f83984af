/**
  Reading a list is reading its items one by one. The items and the function that
  reads them are left open here.
 */
module ListReading {
  import opened CxxReader
  import opened Generator

  /** The text of an item, what it stands for, and whether it can be read at all. */
  datatype Item<T> = Item(text: string, value: T, legible: bool)

  function TextsFrom<T>(items: seq<Item<T>>, k: nat): string
    requires k <= |items|
    decreases |items| - k
  {
    if k == |items| then "" else items[k].text + TextsFrom(items, k + 1)
  }

  function ValuesFrom<T>(items: seq<Item<T>>, k: nat): (values: seq<T>)
    requires k <= |items|
    ensures |values| == |items| - k
    ensures forall i | k <= i < |items| :: values[i - k] == items[i].value
    decreases |items| - k
  {
    if k == |items| then [] else [items[k].value] + ValuesFrom(items, k + 1)
  }

  predicate LegibleFrom<T>(items: seq<Item<T>>, k: nat) {
    forall i | k <= i < |items| :: items[i].legible
  }

  /** Not white space. */
  predicate Solid(s: string) {
    s != [] && !IsSpace(s[0])
  }

  /** With this text behind it, the item reads as its value, or not at all. */
  predicate ReadsBefore<T(==)>(open: string, read: string -> Read<T>, item: Item<T>, tail: string) {
    && open <= item.text && Solid(item.text)
    && ReadItem(read, item.text + tail) == if item.legible then Got(item.value, tail) else Fail
  }

  ghost predicate AlwaysReads<T>(open: string, read: string -> Read<T>, item: Item<T>) {
    Solid(item.text) && forall tail | Solid(tail) :: ReadsBefore(open, read, item, tail)
  }

  lemma TextsSolid<T>(items: seq<Item<T>>, k: nat, rest: string)
    requires k <= |items| && Solid(rest) && (k < |items| ==> Solid(items[k].text))
    ensures Solid(TextsFrom(items, k) + rest)
  {
    if k == |items| {
      assert TextsFrom(items, k) + rest == rest;
    } else {
      assert (TextsFrom(items, k) + rest)[0] == items[k].text[0];
    }
  }

  lemma OneText<T>(items: seq<Item<T>>)
    requires items != []
    ensures TextsFrom(items, |items| - 1) == items[|items| - 1].text
  {
    var text := items[|items| - 1].text;
    assert TextsFrom(items, |items|) == "" && text + "" == text;
  }

  lemma ListStep<T>(open: string, read: string -> Read<T>, item: Item<T>, tail: string)
    requires ReadsBefore(open, read, item, tail)
    ensures ReadList(open, read, item.text + tail)
         == if item.legible then Cons(item.value, ReadList(open, read, tail)) else Fail
  {
    assert open <= item.text + tail;
    assert |tail| < |item.text + tail|;
  }

  /** The list reads as the values of its items, unless one of them cannot be read. */
  lemma {:induction false} ListReads<T>(
      open: string, read: string -> Read<T>, items: seq<Item<T>>, k: nat, rest: string)
    requires k <= |items| && Expect(rest, open).Fail?
    requires forall i | k <= i < |items| :: ReadsBefore(open, read, items[i], TextsFrom(items, i + 1) + rest)
    ensures ReadList(open, read, TextsFrom(items, k) + rest)
         == if LegibleFrom(items, k) then Got(ValuesFrom(items, k), rest) else Fail
    decreases |items| - k
  {
    if k == |items| {
      assert TextsFrom(items, k) + rest == rest;
    } else {
      Assoc(items[k].text, TextsFrom(items, k + 1), rest);
      ListStep(open, read, items[k], TextsFrom(items, k + 1) + rest);
      ListReads(open, read, items, k + 1, rest);
      assert LegibleFrom(items, k) <==> items[k].legible && LegibleFrom(items, k + 1);
    }
  }

  function ConsAll<T>(values: seq<T>, r: Read<seq<T>>): Read<seq<T>> {
    match r
    case Fail => Fail
    case Got(more, rest) => Got(values + more, rest)
  }

  lemma ConsThen<T>(x: T, values: seq<T>, r: Read<seq<T>>)
    ensures Cons(x, ConsAll(values, r)) == ConsAll([x] + values, r)
  {
    if r.Got? {
      assert [x] + (values + r.value) == ([x] + values) + r.value;
    }
  }

  /** Items that can all be read, with any text behind them. */
  lemma {:induction false} ListReadsOn<T>(
      open: string, read: string -> Read<T>, items: seq<Item<T>>, k: nat, rest: string)
    requires k <= |items| && LegibleFrom(items, k)
    requires forall i | k <= i < |items| :: ReadsBefore(open, read, items[i], TextsFrom(items, i + 1) + rest)
    ensures ReadList(open, read, TextsFrom(items, k) + rest)
         == ConsAll(ValuesFrom(items, k), ReadList(open, read, rest))
    decreases |items| - k
  {
    if k == |items| {
      assert TextsFrom(items, k) + rest == rest;
      var r := ReadList(open, read, rest);
      if r.Got? {
        assert [] + r.value == r.value;
      }
    } else {
      Assoc(items[k].text, TextsFrom(items, k + 1), rest);
      ListStep(open, read, items[k], TextsFrom(items, k + 1) + rest);
      ListReadsOn(open, read, items, k + 1, rest);
      ConsThen(items[k].value, ValuesFrom(items, k + 1), ReadList(open, read, rest));
    }
  }

  /** A list that is not empty is its first item and the rest of the list. */
  lemma ListParts<T>(open: string, read: string -> Read<T>, s: string) returns (x: T, next: string)
    requires ReadList(open, read, s).Got? && ReadList(open, read, s).value != []
    ensures ReadItem(read, s) == Got(x, next) && |next| < |s|
    ensures var r, more := ReadList(open, read, s), ReadList(open, read, next);
            && more.Got? && r.value == [x] + more.value && r.rest == more.rest
            && (more.value == [] ==> more.rest == next)
  {
    x, next := ReadItem(read, s).value, ReadItem(read, s).rest;
  }

  /** A list starts with what its first item reads as. */
  lemma ListHead<T>(open: string, read: string -> Read<T>, s: string)
    requires open <= s && ReadList(open, read, s).Got?
    ensures read(s).Got? && ReadList(open, read, s).value != [] && ReadList(open, read, s).value[0] == read(s).value
  {
  }

  lemma TwoRead<T>(open: string, read: string -> Read<T>, a: Item<T>, b: Item<T>, rest: string)
    requires Expect(rest, open).Fail? && a.legible && b.legible
    requires ReadsBefore(open, read, a, b.text + rest) && ReadsBefore(open, read, b, rest)
    ensures ReadList(open, read, a.text + (b.text + rest)) == Got([a.value, b.value], rest)
  {
    ListStep(open, read, a, b.text + rest);
    ListStep(open, read, b, rest);
    assert [a.value] + ([b.value] + []) == [a.value, b.value];
  }

  // ------------------------------------------------- two items at a time

  /** The items of two lists by turns. */
  function ByTurns<T>(a: seq<Item<T>>, b: seq<Item<T>>): (items: seq<Item<T>>)
    requires |a| == |b|
    ensures |items| == 2 * |a|
  {
    if a == [] then [] else ByTurns(a[..|a| - 1], b[..|b| - 1]) + [a[|a| - 1], b[|b| - 1]]
  }

  lemma {:induction false} ByTurnsAt<T>(a: seq<Item<T>>, b: seq<Item<T>>, k: nat)
    requires k < |a| == |b|
    ensures ByTurns(a, b)[2 * k] == a[k] && ByTurns(a, b)[2 * k + 1] == b[k]
  {
    if k < |a| - 1 {
      ByTurnsAt(a[..|a| - 1], b[..|b| - 1], k);
    }
  }

  lemma TwoTexts<T>(items: seq<Item<T>>, m: nat, first: string, second: string)
    requires m + 2 <= |items| && items[m].text == first && items[m + 1].text == second
    ensures TextsFrom(items, m) == first + (second + TextsFrom(items, m + 2))
  {
  }

  lemma ByTurnsTexts<T>(a: seq<Item<T>>, b: seq<Item<T>>, k: nat)
    requires k < |a| == |b|
    ensures TextsFrom(ByTurns(a, b), 2 * k)
         == a[k].text + (b[k].text + TextsFrom(ByTurns(a, b), 2 * (k + 1)))
  {
    ByTurnsAt(a, b, k);
    var items, m := ByTurns(a, b), 2 * k;
    assert m + 2 <= |items| && m + 2 == 2 * (k + 1);
    TwoTexts(items, m, a[k].text, b[k].text);
  }

  lemma ByTurnsHolds<T>(a: seq<Item<T>>, b: seq<Item<T>>, j: nat)
    requires |a| == |b| && j < |ByTurns(a, b)|
    ensures ByTurns(a, b)[j] == if j % 2 == 0 then a[j / 2] else b[j / 2]
  {
    var k := j / 2;
    assert j == 2 * k || j == 2 * k + 1;
    ByTurnsAt(a, b, k);
  }

  lemma ByTurnsLegible<T>(a: seq<Item<T>>, b: seq<Item<T>>)
    requires |a| == |b|
    ensures LegibleFrom(ByTurns(a, b), 0) <==> LegibleFrom(a, 0) && LegibleFrom(b, 0)
  {
    var items := ByTurns(a, b);
    if LegibleFrom(items, 0) {
      forall k | 0 <= k < |a| ensures a[k].legible && b[k].legible {
        ByTurnsAt(a, b, k);
        assert items[2 * k].legible && items[2 * k + 1].legible;
      }
    }
    if LegibleFrom(a, 0) && LegibleFrom(b, 0) {
      forall j | 0 <= j < |items| ensures items[j].legible {
        ByTurnsHolds(a, b, j);
      }
    }
  }

  lemma AllRead<T>(open: string, read: string -> Read<T>, items: seq<Item<T>>, rest: string)
    requires Solid(rest) && forall j | 0 <= j < |items| :: AlwaysReads(open, read, items[j])
    ensures forall j | 0 <= j < |items| :: ReadsBefore(open, read, items[j], TextsFrom(items, j + 1) + rest)
  {
    forall j | 0 <= j < |items| ensures ReadsBefore(open, read, items[j], TextsFrom(items, j + 1) + rest) {
      TextsSolid(items, j + 1, rest);
    }
  }

  /** Items that can be read or not whatever follows, with any text behind them. */
  lemma ItemsRead<T>(open: string, read: string -> Read<T>, items: seq<Item<T>>, rest: string)
    requires Solid(rest) && forall j | 0 <= j < |items| :: AlwaysReads(open, read, items[j])
    ensures var r := ReadList(open, read, TextsFrom(items, 0) + rest);
            && (LegibleFrom(items, 0) ==> r == ConsAll(ValuesFrom(items, 0), ReadList(open, read, rest)))
            && (Expect(rest, open).Fail? && !LegibleFrom(items, 0) ==> r == Fail)
  {
    AllRead(open, read, items, rest);
    if LegibleFrom(items, 0) {
      ListReadsOn(open, read, items, 0, rest);
    } else if Expect(rest, open).Fail? {
      ListReads(open, read, items, 0, rest);
    }
  }

  lemma ByTurnsRead<T>(open: string, read: string -> Read<T>, a: seq<Item<T>>, b: seq<Item<T>>)
    requires |a| == |b|
    requires forall k | 0 <= k < |a| :: AlwaysReads(open, read, a[k]) && AlwaysReads(open, read, b[k])
    ensures forall j | 0 <= j < |ByTurns(a, b)| :: AlwaysReads(open, read, ByTurns(a, b)[j])
  {
    var items := ByTurns(a, b);
    forall j | 0 <= j < |items| ensures AlwaysReads(open, read, items[j]) {
      ByTurnsHolds(a, b, j);
    }
  }

  /** The same of two lists by turns. */
  lemma ByTurnsListReads<T>(
      open: string, read: string -> Read<T>, a: seq<Item<T>>, b: seq<Item<T>>, rest: string)
    requires |a| == |b| && Solid(rest)
    requires forall k | 0 <= k < |a| :: AlwaysReads(open, read, a[k]) && AlwaysReads(open, read, b[k])
    ensures var items := ByTurns(a, b);
            var r := ReadList(open, read, TextsFrom(items, 0) + rest);
            && (LegibleFrom(a, 0) && LegibleFrom(b, 0) ==>
                  r == ConsAll(ValuesFrom(items, 0), ReadList(open, read, rest)))
            && (Expect(rest, open).Fail? && !(LegibleFrom(a, 0) && LegibleFrom(b, 0)) ==> r == Fail)
  {
    ByTurnsRead(open, read, a, b);
    ByTurnsLegible(a, b);
    ItemsRead(open, read, ByTurns(a, b), rest);
  }
}
