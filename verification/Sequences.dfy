/** Sequences of sequences, and what is gathered from the items of a sequence. */
module Sequences {
  function Flat<T>(pieces: seq<seq<T>>): seq<T> {
    if pieces == [] then [] else pieces[0] + Flat(pieces[1..])
  }

  lemma {:induction false} FlatConcat<T>(a: seq<seq<T>>, b: seq<seq<T>>)
    ensures Flat(a + b) == Flat(a) + Flat(b)
  {
    if a == [] {
      assert a + b == b;
    } else {
      assert (a + b)[1..] == a[1..] + b;
      FlatConcat(a[1..], b);
    }
  }

  lemma {:induction false} FlatPush<T>(pieces: seq<seq<T>>, piece: seq<T>)
    ensures Flat(pieces + [piece]) == Flat(pieces) + piece
  {
    FlatConcat(pieces, [piece]);
    assert Flat([piece]) == piece + [];
  }

  /** What `f` finds in each item, in order. */
  function Gather<S, T>(f: S -> seq<T>, items: seq<S>): seq<T> {
    if items == [] then [] else f(items[0]) + Gather(f, items[1..])
  }

  lemma {:induction false} GatherConcat<S, T>(f: S -> seq<T>, a: seq<S>, b: seq<S>)
    ensures Gather(f, a + b) == Gather(f, a) + Gather(f, b)
  {
    if a == [] {
      assert a + b == b;
    } else {
      assert (a + b)[1..] == a[1..] + b;
      GatherConcat(f, a[1..], b);
    }
  }

  lemma {:induction false} GatherOne<S, T>(f: S -> seq<T>, item: S)
    ensures Gather(f, [item]) == f(item)
  {
    assert Gather(f, [item]) == f(item) + [];
  }

  lemma {:induction false} GatherPush<S, T>(f: S -> seq<T>, items: seq<S>, i: nat)
    requires i < |items|
    ensures Gather(f, items[..i + 1]) == Gather(f, items[..i]) + f(items[i])
  {
    assert items[..i + 1] == items[..i] + [items[i]];
    GatherConcat(f, items[..i], [items[i]]);
    assert Gather(f, [items[i]]) == f(items[i]) + [];
  }

  // ---------- Values by name ----------

  /** A value that is given to a name. */
  datatype Entry<N, V> = Entry(name: N, value: V)

  /** An entry's contribution to the values of one name. */
  function Share<N(==), V>(entry: Entry<N, V>, name: N): seq<V> {
    if entry.name == name then [entry.value] else []
  }

  function ShareOf<N(==), V>(name: N): Entry<N, V> -> seq<V> {
    (entry: Entry<N, V>) => Share(entry, name)
  }

  /** For each name, the values given to it, in order. */
  function Values<N(==), V>(entries: seq<Entry<N, V>>): N -> seq<V> {
    (name: N) => Gather(ShareOf(name), entries)
  }

  lemma {:induction false} ValuesConcat<N, V>(a: seq<Entry<N, V>>, b: seq<Entry<N, V>>, name: N)
    ensures Values(a + b)(name) == Values(a)(name) + Values(b)(name)
  {
    GatherConcat(ShareOf(name), a, b);
  }

  lemma {:induction false} ValuesOfOne<N, V>(entry: Entry<N, V>, name: N)
    ensures Values([entry])(name) == Share(entry, name)
  {
    assert Gather(ShareOf<N, V>(name), [entry]) == Share(entry, name) + [];
  }

  // ---------- Tables ----------

  /** The entry at a place of a table in five stretches of 15. */
  function At<T>(a: nat -> T, b: nat -> T, c: nat -> T, d: nat -> T, e: nat -> T, k: nat): T {
    if k < 15 then a(k) else if k < 30 then b(k - 15) else if k < 45 then c(k - 30)
    else if k < 60 then d(k - 45) else e(k - 60)
  }

  function Mapped<S, T>(f: S -> T, items: seq<S>): seq<T> {
    seq(|items|, i requires 0 <= i < |items| => f(items[i]))
  }

  lemma {:induction false} MappedConcat<S, T>(f: S -> T, a: seq<S>, b: seq<S>)
    ensures Mapped(f, a + b) == Mapped(f, a) + Mapped(f, b)
  {
  }
}
