/** The distinct structured-data types of an exported row (src/export/row.rs). */
module StructuredData {
  import opened Text
  import Lists

  /** The order of Rust strings, which is that of their characters. */
  predicate Before(a: string, b: string) {
    b != "" && (a == "" || a[0] < b[0] || (a[0] == b[0] && Before(a[1..], b[1..])))
  }

  /** One text is the beginning of the other, or has the lesser character where they first differ. */
  ghost predicate IsLess(a: string, b: string) {
    || (a <= b && a != b)
    || exists k :: 0 <= k < |a| && k < |b| && a[..k] == b[..k] && a[k] < b[k]
  }

  lemma {:induction false} LessInRest(a: string, b: string)
    requires a != "" && b != "" && a[0] == b[0]
    ensures IsLess(a, b) <==> IsLess(a[1..], b[1..])
  {
    var x, y := a[1..], b[1..];
    assert a == [a[0]] + x && b == [b[0]] + y;
    forall k | 0 <= k < |x| && k < |y|
      ensures a[..k + 1] == b[..k + 1] <==> x[..k] == y[..k]
    {
      assert a[..k + 1] == [a[0]] + x[..k] && b[..k + 1] == [b[0]] + y[..k];
      assert a[..k + 1][1..] == x[..k] && b[..k + 1][1..] == y[..k];
    }
    if k :| 0 <= k < |x| && k < |y| && x[..k] == y[..k] && x[k] < y[k] {
      assert a[..k + 1] == b[..k + 1] && a[k + 1] < b[k + 1];
    }
    if k :| 0 <= k < |a| && k < |b| && a[..k] == b[..k] && a[k] < b[k] {
      assert k > 0 && a[..k - 1 + 1] == b[..k - 1 + 1] && x[k - 1] < y[k - 1];
    }
  }

  lemma {:induction false} BeforeExactly(a: string, b: string)
    ensures Before(a, b) <==> IsLess(a, b)
  {
    if a != "" && b != "" {
      if a[0] == b[0] {
        LessInRest(a, b);
        BeforeExactly(a[1..], b[1..]);
      } else if a[0] < b[0] {
        assert a[..0] == b[..0];
      }
    }
  }

  lemma {:induction false} BeforeIsTotal(a: string, b: string)
    ensures a == b <==> !Before(a, b) && !Before(b, a)
    ensures !(Before(a, b) && Before(b, a))
  {
    if a != "" && b != "" {
      BeforeIsTotal(a[1..], b[1..]);
      assert a == [a[0]] + a[1..] && b == [b[0]] + b[1..];
    }
  }

  lemma {:induction false} BeforeIsTransitive(a: string, b: string, c: string)
    requires Before(a, b) && Before(b, c)
    ensures Before(a, c)
  {
    if a != "" && a[0] == b[0] == c[0] {
      BeforeIsTransitive(a[1..], b[1..], c[1..]);
    }
  }

  /** Each text is followed by one that is not before it. */
  predicate IsSorted(items: seq<string>) {
    forall i :: 0 < i < |items| ==> !Before(items[i], items[i - 1])
  }

  /** Each text is followed by one that it is before. */
  predicate IsAscending(items: seq<string>) {
    forall i :: 0 < i < |items| ==> Before(items[i - 1], items[i])
  }

  ghost predicate SameItems(a: seq<string>, b: seq<string>) {
    forall x :: x in a <==> x in b
  }

  function Insert(x: string, items: seq<string>): seq<string> {
    if items == [] || !Before(items[0], x) then [x] + items else [items[0]] + Insert(x, items[1..])
  }

  function Sort(items: seq<string>): seq<string> {
    if items == [] then [] else Insert(items[0], Sort(items[1..]))
  }

  lemma {:induction false} InsertSorts(x: string, items: seq<string>)
    requires IsSorted(items)
    ensures IsSorted(Insert(x, items))
    ensures Insert(x, items)[0] == x || (items != [] && Insert(x, items)[0] == items[0])
  {
    if items != [] && Before(items[0], x) {
      InsertSorts(x, items[1..]);
      BeforeIsTotal(x, items[0]);
      SortedCons(items[0], Insert(x, items[1..]));
    }
  }

  lemma {:induction false} SortedCons(first: string, rest: seq<string>)
    requires IsSorted(rest) && (rest != [] ==> !Before(rest[0], first))
    ensures IsSorted([first] + rest)
  {
  }

  lemma {:induction false} InsertKeepsItems(x: string, items: seq<string>)
    ensures multiset(Insert(x, items)) == multiset(items) + multiset{x}
  {
    if items != [] {
      assert items == [items[0]] + items[1..];
      InsertKeepsItems(x, items[1..]);
    }
  }

  lemma {:induction false} SortSorts(items: seq<string>)
    ensures IsSorted(Sort(items))
    ensures multiset(Sort(items)) == multiset(items)
  {
    if items != [] {
      SortSorts(items[1..]);
      InsertSorts(items[0], Sort(items[1..]));
      InsertKeepsItems(items[0], Sort(items[1..]));
      assert items == [items[0]] + items[1..];
    }
  }

  /** Drops every text that is equal to the one before it. */
  function Dedup(items: seq<string>): seq<string> {
    if |items| < 2 then items
    else if items[0] == items[1] then Dedup(items[1..])
    else [items[0]] + Dedup(items[1..])
  }

  lemma {:induction false} DedupOfSorted(items: seq<string>)
    requires IsSorted(items)
    ensures IsAscending(Dedup(items)) && SameItems(Dedup(items), items)
    ensures items != [] ==> Dedup(items) != [] && Dedup(items)[0] == items[0]
  {
    if |items| >= 2 {
      DedupOfSorted(items[1..]);
      BeforeIsTotal(items[0], items[1]);
      assert items == [items[0]] + items[1..];
    }
  }

  lemma {:induction false} FirstIsLeast(items: seq<string>, x: string)
    requires IsAscending(items) && x in items
    ensures items[0] == x || Before(items[0], x)
  {
    if items[0] != x {
      assert items == [items[0]] + items[1..];
      FirstIsLeast(items[1..], x);
      if items[1] != x {
        BeforeIsTransitive(items[0], items[1], x);
      }
    }
  }

  /** An ascending list is determined by what it contains. */
  lemma {:induction false} AscendingIsUnique(a: seq<string>, b: seq<string>)
    requires IsAscending(a) && IsAscending(b) && SameItems(a, b)
    ensures a == b
  {
    assert a != [] ==> a[0] in a;
    assert b != [] ==> b[0] in b;
    if a != [] && b != [] {
      FirstIsLeast(a, b[0]);
      FirstIsLeast(b, a[0]);
      BeforeIsTotal(a[0], b[0]);
      RestIsSame(a, b);
      AscendingIsUnique(a[1..], b[1..]);
      assert a == [a[0]] + a[1..] && b == [b[0]] + b[1..];
    }
  }

  lemma {:induction false} RestIsSame(a: seq<string>, b: seq<string>)
    requires IsAscending(a) && IsAscending(b) && SameItems(a, b)
    requires a != [] && b != [] && a[0] == b[0]
    ensures SameItems(a[1..], b[1..])
  {
    HeadIsNotInRest(a);
    HeadIsNotInRest(b);
    assert a == [a[0]] + a[1..] && b == [b[0]] + b[1..];
    forall x
      ensures x in a[1..] <==> x in b[1..]
    {
      assert x in a[1..] <==> x in a && x != a[0];
      assert x in b[1..] <==> x in b && x != b[0];
    }
  }

  lemma {:induction false} HeadIsNotInRest(a: seq<string>)
    requires IsAscending(a) && a != []
    ensures a[0] !in a[1..]
  {
    if a[0] in a[1..] {
      FirstIsLeast(a[1..], a[0]);
      BeforeIsTotal(a[0], a[1]);
    }
  }

  /** The types of a row's entries, sorted and without repeats. */
  function Types(entries: seq<string>): seq<string> {
    Dedup(Sort(entries))
  }

  /** The exported list is the only ascending one with exactly the types of the entries. */
  lemma {:induction false} TypesExactly(entries: seq<string>, types: seq<string>)
    ensures types == Types(entries) <==> IsAscending(types) && SameItems(types, entries)
  {
    SortSorts(entries);
    DedupOfSorted(Sort(entries));
    forall x
      ensures x in Sort(entries) <==> x in entries
    {
      assert x in multiset(Sort(entries)) <==> x in multiset(entries);
    }
    if IsAscending(types) && SameItems(types, entries) {
      AscendingIsUnique(types, Types(entries));
    }
  }

  /** The exported text and the exported count of entries. */
  method ExportTypes(entries: seq<string>) returns (text: string, count: nat)
    ensures exists types :: IsAscending(types) && SameItems(types, entries) && text == Join(types, ",")
    ensures count == |entries|
  {
    var types := Sort(entries);
    types := Dedup(types);
    TypesExactly(entries, types);
    text, count := Join(types, ","), |entries|;
  }

  /** The text tells the types exactly when no type has a comma and they are not just the empty one. */
  lemma {:induction false} TextTellsTypesExactly(entries: seq<string>)
    ensures Lists.ParseStringList(Join(Types(entries), ",")) == Types(entries)
            <==> Lists.CommaFree(entries) && !SameItems(entries, [""])
  {
    TypesExactly(entries, Types(entries));
    Lists.ParseOfJoinExactly(Types(entries));
    TypesExactly(entries, [""]);
  }

  /** Neither the order of a row's entries nor repeats show in the text; a new type does. */
  lemma {:induction false} SameTypesSameText(a: seq<string>, b: seq<string>)
    ensures SameItems(a, b) ==> Join(Types(a), ",") == Join(Types(b), ",")
    ensures Join(Types(a), ",") == Join(Types(b), ",")
            && Lists.CommaFree(a) && Lists.CommaFree(b) && !SameItems(a, [""]) && !SameItems(b, [""])
            ==> SameItems(a, b)
  {
    TypesExactly(a, Types(a));
    TypesExactly(b, Types(b));
    TypesExactly(a, Types(b));
    TextTellsTypesExactly(a);
    TextTellsTypesExactly(b);
  }

  /** An empty type alone looks like none, and a type with a comma like two. */
  lemma {:induction false} EmptyAndCommaAreLost()
    ensures Join(Types([""]), ",") == Join(Types([]), ",") && !SameItems([""], [])
    ensures Join(Types(["a,b"]), ",") == Join(Types(["a", "b"]), ",") && !SameItems(["a,b"], ["a", "b"])
  {
    assert "" in [""] && "" !in [];
    assert "a,b" in ["a,b"] && "a,b" !in ["a", "b"];
    TypesExactly(["a,b"], ["a,b"]);
    assert Before("a", "b");
    TypesExactly(["a", "b"], ["a", "b"]);
    assert "a" + "," + "b" == "a,b";
  }
}
