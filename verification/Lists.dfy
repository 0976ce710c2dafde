/** Comma-separated list text in exports (src/export/queries.rs, src/export/row.rs). */
module Lists {
  import opened Sequences
  import opened Text
  import opened Wrappers

  /** The joined text and the count that are exported for a list of strings. */
  function StringList(items: seq<string>): (string, nat) {
    (Join(items, ","), |items|)
  }

  function ParseStringList(list: string): seq<string> {
    if list == "" then [] else Split(list, ',')
  }

  /** Joining the parsed list gives back every string. */
  lemma {:induction false} JoinOfParse(list: string)
    ensures Join(ParseStringList(list), ",") == list
  {
    JoinOfSplit(list, ',');
  }

  predicate CommaFree(items: seq<string>) {
    forall item :: item in items ==> ',' !in item
  }

  function SplitAtCommas(): string -> seq<string> {
    (item: string) => Split(item, ',')
  }

  /** A joined text splits at the joints and also inside the items. */
  lemma {:induction false} SplitOfJoined(items: seq<string>)
    requires items != []
    ensures Split(Join(items, ","), ',') == Gather(SplitAtCommas(), items)
  {
    if |items| == 1 {
      assert Gather(SplitAtCommas(), items) == Split(items[0], ',') + [];
    } else {
      SplitOfJoined(items[1..]);
      SplitConcat(items[0], ',', Join(items[1..], ","));
    }
  }

  /** Splitting never loses an item, and gains one for each comma inside. */
  lemma {:induction false} PiecesOfItems(items: seq<string>)
    ensures |Gather(SplitAtCommas(), items)| >= |items|
    ensures |Gather(SplitAtCommas(), items)| == |items| <==> CommaFree(items)
  {
    if items != [] {
      PiecesOfItems(items[1..]);
      assert items == [items[0]] + items[1..];
      assert |Split(items[0], ',')| == 1 <==> ',' !in items[0];
    }
  }

  /**
   Parsing the joined list gives the list back, and the exported count is the parsed length,
   for exactly the comma-free lists other than the one that holds just an empty string.
   */
  lemma {:induction false} ParseOfJoinExactly(items: seq<string>)
    ensures ParseStringList(Join(items, ",")) == items <==> CommaFree(items) && items != [""]
    ensures |ParseStringList(StringList(items).0)| == StringList(items).1 <==> CommaFree(items) && items != [""]
  {
    if items != [] && items != [""] {
      SplitOfJoined(items);
      PiecesOfItems(items);
      if CommaFree(items) {
        SplitOfJoin(items, ',');
      }
      JoinedIsNotEmpty(items);
    }
  }

  lemma {:induction false} JoinedIsNotEmpty(items: seq<string>)
    requires items != [] && items != [""]
    ensures Join(items, ",") != ""
  {
    if |items| == 1 {
      assert items == [items[0]];
    }
  }

  /** What is lost: an item with a comma comes back in two, and a single empty item not at all. */
  lemma {:induction false} CommaAndEmptyAreLost()
    ensures ParseStringList(Join(["a,b"], ",")) == ["a", "b"]
    ensures ParseStringList(Join([""], ",")) == []
  {
    SplitOnceAt("a", ',', "b");
    assert "a" + [','] + "b" == "a,b";
    assert Split("b", ',') == ["b"];
  }

  // ---------- "key:value" lists ----------

  type Pair = (string, string)

  function PairText(pair: Pair): string {
    pair.0 + ":" + pair.1
  }

  function PairTexts(pairs: seq<Pair>): seq<string> {
    seq(|pairs|, i requires 0 <= i < |pairs| => PairText(pairs[i]))
  }

  function JoinColonPairs(pairs: seq<Pair>): string {
    Join(PairTexts(pairs), ",")
  }

  /** What a reader of the flat text can tell: cut at commas, then each item at its first colon. */
  function ReadPairs(text: string): seq<Option<Pair>> {
    var items := ParseStringList(text);
    seq(|items|, i requires 0 <= i < |items| => SplitOnce(items[i], ':'))
  }

  predicate IsReadable(pair: Pair) {
    ':' !in pair.0 && ',' !in pair.0 && ',' !in pair.1
  }

  function AllSome(pairs: seq<Pair>): seq<Option<Pair>> {
    seq(|pairs|, i requires 0 <= i < |pairs| => Some(pairs[i]))
  }

  lemma {:induction false} PairTextReads(pair: Pair)
    ensures SplitOnce(PairText(pair), ':') == Some(pair) <==> ':' !in pair.0
    ensures ',' !in PairText(pair) <==> ',' !in pair.0 && ',' !in pair.1
    ensures PairText(pair) != ""
  {
    if ':' !in pair.0 {
      SplitOnceAt(pair.0, ':', pair.1);
    }
    var t := PairText(pair);
    assert forall c :: c in t <==> c in pair.0 || c == ':' || c in pair.1;
  }

  /** The flat text tells the pairs for exactly those without commas and with colon-free keys. */
  lemma {:induction false} ReadPairsExactly(pairs: seq<Pair>)
    ensures ReadPairs(JoinColonPairs(pairs)) == AllSome(pairs) <==> forall p :: p in pairs ==> IsReadable(p)
  {
    var items := PairTexts(pairs);
    forall i | 0 <= i < |pairs|
      ensures SplitOnce(items[i], ':') == Some(pairs[i]) <==> ':' !in pairs[i].0
      ensures ',' !in items[i] <==> ',' !in pairs[i].0 && ',' !in pairs[i].1
      ensures items[i] != ""
    {
      PairTextReads(pairs[i]);
    }
    ParseOfJoinExactly(items);
    CommaFreeTexts(pairs);
    if forall p :: p in pairs ==> IsReadable(p) {
      forall i | 0 <= i < |pairs|
        ensures ReadPairs(JoinColonPairs(pairs))[i] == AllSome(pairs)[i]
      {
        assert pairs[i] in pairs;
      }
    } else if CommaFree(items) {
      var p :| p in pairs && !IsReadable(p);
      var i :| 0 <= i < |pairs| && pairs[i] == p;
      assert items[i] in items;
      assert ReadPairs(JoinColonPairs(pairs))[i] != AllSome(pairs)[i];
    } else {
      assert |ReadPairs(JoinColonPairs(pairs))| != |AllSome(pairs)|;
    }
  }

  /** A colon in a key moves to the value. */
  lemma {:induction false} ColonInKeyIsLost()
    ensures ReadPairs(JoinColonPairs([("a:b", "c")])) == [Some(("a", "b:c"))]
  {
    var pair := ("a:b", "c");
    assert PairText(pair) == "a:b:c" && PairTexts([pair]) == ["a:b:c"];
    assert ',' !in "a:b:c" && Split("a:b:c", ',') == ["a:b:c"];
    SplitOnceAt("a", ':', "b:c");
    assert "a" + [':'] + "b:c" == "a:b:c";
  }

  lemma {:induction false} CommaFreeTexts(pairs: seq<Pair>)
    ensures CommaFree(PairTexts(pairs)) <==> forall p :: p in pairs ==> ',' !in p.0 && ',' !in p.1
  {
    var items := PairTexts(pairs);
    forall i | 0 <= i < |pairs|
      ensures items[i] in items && pairs[i] in pairs
      ensures ',' !in items[i] <==> ',' !in pairs[i].0 && ',' !in pairs[i].1
    {
      PairTextReads(pairs[i]);
    }
    forall item | item in items
      ensures exists p :: p in pairs && PairText(p) == item
    {
      var i :| 0 <= i < |items| && items[i] == item;
      assert pairs[i] in pairs;
    }
  }
}
