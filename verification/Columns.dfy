/**
 List columns of a record batch: a minimal model of Arrow's list and struct builders, and
 their reading back (src/export/parquet.rs).
 */
module Columns {
  import opened Sequences
  import opened Wrappers

  datatype Kind = Utf8 | Int32 | Int64 | Float64 | Boolean

  /** A value of one kind, or a null of that kind. */
  datatype Cell =
    | Str(text: Option<string>)
    | I32(number: Option<int>)
    | I64(number: Option<int>)
    | F64(value: Option<real>)
    | Flag(flag: Option<bool>)

  function KindOf(cell: Cell): Kind {
    match cell
    case Str(_) => Utf8
    case I32(_) => Int32
    case I64(_) => Int64
    case F64(_) => Float64
    case Flag(_) => Boolean
  }

  predicate IsNull(cell: Cell) {
    match cell
    case Str(text) => text.None?
    case I32(number) => number.None?
    case I64(number) => number.None?
    case F64(value) => value.None?
    case Flag(flag) => flag.None?
  }

  /** One struct of a list: a cell for each field. */
  type Record = seq<Cell>

  datatype Field = Field(name: string, kind: Kind, nullable: bool)

  /** A scalar column, a list of texts, or a list of structs. */
  datatype DataType = Plain(kind: Kind) | Texts | Structs(fields: seq<Field>)

  /** The fields of a list's items; a list of texts has one child, which may hold nulls. */
  function FieldsOf(t: DataType): seq<Field> {
    match t
    case Plain(kind) => [Field("item", kind, true)]
    case Texts => [Field("item", Utf8, true)]
    case Structs(fields) => fields
  }

  /** The cells are of the fields' kinds. */
  predicate Fits(record: Record, fields: seq<Field>) {
    |record| == |fields| && forall k :: 0 <= k < |fields| ==> KindOf(record[k]) == fields[k].kind
  }

  /** No field that must have a value is null. */
  predicate NullsFit(record: Record, fields: seq<Field>) {
    forall k :: 0 <= k < |fields| && k < |record| && !fields[k].nullable ==> !IsNull(record[k])
  }

  predicate Conforms(record: Record, fields: seq<Field>) {
    Fits(record, fields) && NullsFit(record, fields)
  }

  /** A list builder over a struct builder: a child builder for each field, the structs closed so far, and offsets. */
  datatype ListBuilder = ListBuilder(dataType: DataType, children: seq<seq<Cell>>, structs: nat, offsets: seq<nat>) {

    /** `field_builder::<T>(k).unwrap().append_value(..)`: a panic unless child `k` is there and of that kind. */
    function AppendField(k: nat, cell: Cell): Option<ListBuilder> {
      if k < |children| && k < |FieldsOf(dataType)| && KindOf(cell) == FieldsOf(dataType)[k].kind
      then Some(this.(children := children[k := children[k] + [cell]]))
      else None
    }

    /** `values().append(true)` */
    function AppendStruct(): ListBuilder {
      this.(structs := structs + 1)
    }

    /** `append(true)` */
    function AppendList(): ListBuilder {
      this.(offsets := offsets + [structs])
    }

    /** A panic on a ragged struct, or on a null in a field that is not nullable. */
    function Finish(): Option<ListArray> {
      if && (forall child :: child in children ==> |child| == structs)
         && (forall k :: 0 <= k < |children| && k < |FieldsOf(dataType)| && !FieldsOf(dataType)[k].nullable ==>
                           NullFree(children[k]))
      then Some(ListArray(dataType, children, offsets))
      else None
    }
  }

  predicate NullFree(cells: seq<Cell>) {
    forall cell :: cell in cells ==> !IsNull(cell)
  }

  /** The values of each kind, null or not. */
  ghost predicate IsOfKind(cell: Cell, kind: Kind) {
    match kind
    case Utf8 => cell.Str?
    case Int32 => cell.I32?
    case Int64 => cell.I64?
    case Float64 => cell.F64?
    case Boolean => cell.Flag?
  }

  lemma {:induction false} NullExactly(c: Cell)
    ensures IsNull(c) <==> c in {Str(None), I32(None), I64(None), F64(None), Flag(None)}
  {
  }

  /** An append puts a cell of the child's kind behind the others, and panics on any other. */
  lemma {:induction false} AppendFieldExactly(b: ListBuilder, k: nat, cell: Cell)
    requires |b.children| == |FieldsOf(b.dataType)|
    ensures b.AppendField(k, cell).Some?
            <==> k < |b.children| && IsOfKind(cell, FieldsOf(b.dataType)[k].kind)
    ensures b.AppendField(k, cell).Some? ==>
              b.AppendField(k, cell).value
              == ListBuilder(b.dataType, b.children[k := b.children[k] + [cell]], b.structs, b.offsets)
  {
  }

  /** Finishing panics if and only if the children are not of one length or a required one holds a null. */
  lemma {:induction false} FinishExactly(b: ListBuilder)
    requires |b.children| == |FieldsOf(b.dataType)|
    ensures b.Finish().Some?
            <==> && (forall k :: 0 <= k < |b.children| ==> |b.children[k]| == b.structs)
                 && (forall k, c :: 0 <= k < |b.children| && !FieldsOf(b.dataType)[k].nullable && c in b.children[k]
                                    ==> c !in {Str(None), I32(None), I64(None), F64(None), Flag(None)})
  {
    forall c
      ensures IsNull(c) <==> c in {Str(None), I32(None), I64(None), F64(None), Flag(None)}
    {
      NullExactly(c);
    }
    assert forall k :: 0 <= k < |b.children| ==> b.children[k] in b.children;
  }

  function NewListBuilder(t: DataType): ListBuilder {
    ListBuilder(t, seq(|FieldsOf(t)|, _ => []), 0, [0])
  }

  /** A finished list column. */
  datatype ListArray = ListArray(dataType: DataType, children: seq<seq<Cell>>, offsets: seq<nat>)

  // ---------- What a column encodes ----------

  function Offsets<T>(rows: seq<seq<T>>): (offsets: seq<nat>)
    ensures |offsets| == |rows| + 1
  {
    if rows == [] then [0] else Offsets(rows[..|rows| - 1]) + [|Flat(rows)|]
  }

  predicate AllConform(records: seq<Record>, fields: seq<Field>) {
    forall r :: r in records ==> Conforms(r, fields)
  }

  predicate RowsConform(rows: seq<seq<Record>>, fields: seq<Field>) {
    forall row :: row in rows ==> AllConform(row, fields)
  }

  function CellAt(record: Record, k: nat): Cell {
    if k < |record| then record[k] else Str(None)
  }

  /** The `k`-th cell of each record. */
  function Child(records: seq<Record>, k: nat): seq<Cell> {
    seq(|records|, j requires 0 <= j < |records| => CellAt(records[j], k))
  }

  function Encode(rows: seq<seq<Record>>, t: DataType): ListArray {
    ListArray(t, seq(|FieldsOf(t)|, k requires 0 <= k < |FieldsOf(t)| => Child(Flat(rows), k)), Offsets(rows))
  }

  /** Children of equal length, and offsets that grow from 0 to that length. */
  ghost predicate WellFormed(a: ListArray) {
    && |a.offsets| >= 1 && a.offsets[0] == 0
    && (forall i, j :: 0 <= i <= j < |a.offsets| ==> a.offsets[i] <= a.offsets[j])
    && (forall k :: 0 <= k < |a.children| ==> |a.children[k]| == a.offsets[|a.offsets| - 1])
  }

  function RecordAt(children: seq<seq<Cell>>, j: nat): Record
    requires forall k :: 0 <= k < |children| ==> j < |children[k]|
  {
    seq(|children|, k requires 0 <= k < |children| => children[k][j])
  }

  /** Reading a column: slice the children by the offsets of each row. */
  function Decode(a: ListArray): seq<seq<Record>>
    requires WellFormed(a)
  {
    seq(|a.offsets| - 1, i requires 0 <= i < |a.offsets| - 1 => DecodeRow(a, i))
  }

  function DecodeRow(a: ListArray, i: nat): seq<Record>
    requires WellFormed(a) && i < |a.offsets| - 1
  {
    seq(a.offsets[i + 1] - a.offsets[i],
        j requires 0 <= j < a.offsets[i + 1] - a.offsets[i] => RecordAt(a.children, a.offsets[i] + j))
  }

  // ---------- Reading gives back what was encoded ----------

  lemma {:induction false} OffsetAt<T>(rows: seq<seq<T>>, i: nat)
    requires i <= |rows|
    ensures Offsets(rows)[i] == |Flat(rows[..i])|
  {
    if i == |rows| {
      assert rows[..i] == rows;
    } else {
      var shorter := rows[..|rows| - 1];
      OffsetAt(shorter, i);
      assert shorter[..i] == rows[..i];
    }
  }

  lemma {:induction false} OffsetsPush<T>(rows: seq<seq<T>>, row: seq<T>)
    ensures Offsets(rows + [row]) == Offsets(rows) + [|Flat(rows) + row|]
  {
    FlatPush(rows, row);
    assert (rows + [row])[..|rows|] == rows;
  }

  /** Where row `i` is in the flat sequence. */
  lemma {:induction false} FlatRow<T>(rows: seq<seq<T>>, i: nat)
    requires i < |rows|
    ensures |Flat(rows[..i + 1])| == |Flat(rows[..i])| + |rows[i]| <= |Flat(rows)|
    ensures Flat(rows)[|Flat(rows[..i])|..|Flat(rows[..i + 1])|] == rows[i]
  {
    assert rows[..i + 1] == rows[..i] + [rows[i]];
    FlatPush(rows[..i], rows[i]);
    assert rows == rows[..i + 1] + rows[i + 1..];
    FlatConcat(rows[..i + 1], rows[i + 1..]);
  }

  lemma {:induction false} OffsetsGrow<T>(rows: seq<seq<T>>, i: nat, j: nat)
    requires i <= j <= |rows|
    ensures Offsets(rows)[i] <= Offsets(rows)[j]
  {
    OffsetAt(rows, i);
    OffsetAt(rows, j);
    assert rows[..j] == rows[..i] + rows[i..j];
    FlatConcat(rows[..i], rows[i..j]);
  }

  lemma {:induction false} EncodeIsWellFormed(rows: seq<seq<Record>>, t: DataType)
    ensures WellFormed(Encode(rows, t))
  {
    var a := Encode(rows, t);
    forall i, j | 0 <= i <= j < |a.offsets|
      ensures a.offsets[i] <= a.offsets[j]
    {
      OffsetsGrow(rows, i, j);
    }
    OffsetAt(rows, 0);
    OffsetAt(rows, |rows|);
    assert rows[..0] == [] && rows[..|rows|] == rows;
  }

  lemma {:induction false} FlatConforms(rows: seq<seq<Record>>, fields: seq<Field>)
    requires RowsConform(rows, fields)
    ensures AllConform(Flat(rows), fields)
  {
    if rows != [] {
      assert rows[0] in rows && forall row :: row in rows[1..] ==> row in rows;
      FlatConforms(rows[1..], fields);
    }
  }

  /** Slicing by offsets gives back each row's list, record by record and in order. */
  lemma {:induction false} DecodeOfEncode(rows: seq<seq<Record>>, t: DataType)
    requires RowsConform(rows, FieldsOf(t))
    ensures WellFormed(Encode(rows, t))
    ensures Decode(Encode(rows, t)) == rows
  {
    var a := Encode(rows, t);
    EncodeIsWellFormed(rows, t);
    FlatConforms(rows, FieldsOf(t));
    forall i | 0 <= i < |rows|
      ensures Decode(a)[i] == rows[i]
    {
      DecodedRow(rows, t, i);
    }
  }

  lemma {:induction false} DecodedRow(rows: seq<seq<Record>>, t: DataType, i: nat)
    requires AllConform(Flat(rows), FieldsOf(t)) && i < |rows|
    requires WellFormed(Encode(rows, t))
    ensures DecodeRow(Encode(rows, t), i) == rows[i]
  {
    var a := Encode(rows, t);
    OffsetAt(rows, i);
    OffsetAt(rows, i + 1);
    FlatRow(rows, i);
    var lo := a.offsets[i];
    forall j | 0 <= j < |rows[i]|
      ensures RecordAt(a.children, lo + j) == rows[i][j]
    {
      RecordIsWhole(Flat(rows), t, lo + j);
      assert Flat(rows)[lo..a.offsets[i + 1]][j] == rows[i][j];
    }
  }

  lemma {:induction false} RecordIsWhole(records: seq<Record>, t: DataType, j: nat)
    requires AllConform(records, FieldsOf(t)) && j < |records|
    ensures var children := seq(|FieldsOf(t)|, k requires 0 <= k < |FieldsOf(t)| => Child(records, k));
            RecordAt(children, j) == records[j]
  {
    assert records[j] in records;
  }

  // ---------- Appending ----------

  /** A builder in the middle of a list and of a struct: what it holds so far. */
  ghost predicate Building(b: ListBuilder, t: DataType, rows: seq<seq<Record>>, pending: seq<Record>, partial: Record) {
    var closed := Flat(rows) + pending;
    && b.dataType == t
    && |b.children| == |FieldsOf(t)|
    && b.structs == |closed|
    && b.offsets == Offsets(rows)
    && (forall k :: 0 <= k < |b.children| ==>
                      b.children[k] == Child(closed, k) + (if k < |partial| then [partial[k]] else []))
  }

  /** A builder between two rows. */
  ghost predicate Built(b: ListBuilder, t: DataType, rows: seq<seq<Record>>) {
    Building(b, t, rows, [], [])
  }

  lemma {:induction false} NewIsBuilt(t: DataType)
    ensures Built(NewListBuilder(t), t, [])
  {
  }

  lemma {:induction false} StructStep(b: ListBuilder, t: DataType, rows: seq<seq<Record>>, pending: seq<Record>,
                                      record: Record)
    requires Building(b, t, rows, pending, record) && |record| == |FieldsOf(t)|
    ensures Building(b.AppendStruct(), t, rows, pending + [record], [])
  {
    var closed := Flat(rows) + pending;
    assert Flat(rows) + (pending + [record]) == closed + [record];
    forall k | 0 <= k < |b.children|
      ensures b.children[k] == Child(closed + [record], k) + []
    {
      assert Child(closed + [record], k) == Child(closed, k) + [record[k]];
    }
  }

  lemma {:induction false} ListStep(b: ListBuilder, t: DataType, rows: seq<seq<Record>>, pending: seq<Record>)
    requires Building(b, t, rows, pending, [])
    ensures Built(b.AppendList(), t, rows + [pending])
  {
    FlatPush(rows, pending);
    OffsetsPush(rows, pending);
    assert Flat(rows + [pending]) + [] == Flat(rows) + pending;
  }

  /**
   The fields of one record, then the struct itself. A record with a cell for each field is
   appended whole if its cells are of the fields' kinds, and panics if they are not.
   */
  method AppendRecord(b: ListBuilder, t: DataType, record: Record, ghost rows: seq<seq<Record>>,
                      ghost pending: seq<Record>)
    returns (r: Option<ListBuilder>)
    requires Building(b, t, rows, pending, []) && |record| == |FieldsOf(t)|
    ensures r.Some? <==> Fits(record, FieldsOf(t))
    ensures r.Some? ==> Building(r.value, t, rows, pending + [record], [])
  {
    var c := b;
    for k := 0 to |record|
      invariant Building(c, t, rows, pending, record[..k])
      invariant forall j :: 0 <= j < k ==> KindOf(record[j]) == FieldsOf(t)[j].kind
    {
      var appended := c.AppendField(k, record[k]);
      if appended.None? {
        return None;
      }
      c := appended.value;
    }
    assert record[..|record|] == record;
    StructStep(c, t, rows, pending, record);
    return Some(c.AppendStruct());
  }

  function Records<T>(cells: T -> Record, items: seq<T>): seq<Record> {
    seq(|items|, i requires 0 <= i < |items| => cells(items[i]))
  }

  /** One row's list: its records, then the list itself. */
  method AppendRow(b: ListBuilder, t: DataType, records: seq<Record>, ghost rows: seq<seq<Record>>)
    returns (r: Option<ListBuilder>)
    requires Built(b, t, rows) && AllConform(records, FieldsOf(t))
    ensures r.Some? && Built(r.value, t, rows + [records])
  {
    var c := b;
    for i := 0 to |records|
      invariant Building(c, t, rows, records[..i], [])
    {
      assert records[i] in records;
      var appended := AppendRecord(c, t, records[i], rows, records[..i]);
      c := appended.value;
      assert records[..i + 1] == records[..i] + [records[i]];
    }
    assert records[..|records|] == records;
    ListStep(c, t, rows, records);
    return Some(c.AppendList());
  }

  lemma {:induction false} ChildIsNullFree(records: seq<Record>, fields: seq<Field>, k: nat)
    requires k < |fields| && !fields[k].nullable
    requires forall r :: r in records ==> Conforms(r, fields)
    ensures NullFree(Child(records, k))
  {
    forall cell | cell in Child(records, k)
      ensures !IsNull(cell)
    {
      var j :| 0 <= j < |records| && cell == Child(records, k)[j];
      assert records[j] in records;
    }
  }

  lemma {:induction false} NullInChild(records: seq<Record>, r: Record, k: nat)
    requires r in records && k < |r| && IsNull(r[k])
    ensures !NullFree(Child(records, k))
  {
    var j :| 0 <= j < |records| && records[j] == r;
    assert Child(records, k)[j] in Child(records, k);
  }

  /** The children of required fields are free of nulls exactly when every record's nulls fit. */
  lemma {:induction false} NullFreeExactly(records: seq<Record>, fields: seq<Field>)
    requires forall r :: r in records ==> Fits(r, fields)
    ensures (forall k :: 0 <= k < |fields| && !fields[k].nullable ==> NullFree(Child(records, k)))
            <==> forall r :: r in records ==> NullsFit(r, fields)
  {
    if forall r :: r in records ==> NullsFit(r, fields) {
      forall k | 0 <= k < |fields| && !fields[k].nullable
        ensures NullFree(Child(records, k))
      {
        ChildIsNullFree(records, fields, k);
      }
    } else {
      var r :| r in records && !NullsFit(r, fields);
      var k :| 0 <= k < |fields| && !fields[k].nullable && k < |r| && IsNull(r[k]);
      NullInChild(records, r, k);
    }
  }

  lemma {:induction false} BuiltChildren(b: ListBuilder, t: DataType, rows: seq<seq<Record>>)
    requires Built(b, t, rows)
    ensures forall k :: 0 <= k < |b.children| ==> b.children[k] == Child(Flat(rows), k)
    ensures forall child :: child in b.children ==> |child| == b.structs
  {
    assert Flat(rows) + [] == Flat(rows);
    forall k | 0 <= k < |b.children|
      ensures b.children[k] == Child(Flat(rows), k)
    {
    }
  }

  /**
   A builder between two rows finishes as the encoding of its rows, if and only if no record has
   a null in a field that is not nullable.
   */
  lemma {:induction false} FinishBuilt(b: ListBuilder, t: DataType, rows: seq<seq<Record>>)
    requires Built(b, t, rows) && forall r :: r in Flat(rows) ==> Fits(r, FieldsOf(t))
    ensures b.Finish().Some? <==> forall r :: r in Flat(rows) ==> NullsFit(r, FieldsOf(t))
    ensures b.Finish().Some? ==> b.Finish().value == Encode(rows, t)
  {
    BuiltChildren(b, t, rows);
    NullFreeExactly(Flat(rows), FieldsOf(t));
  }

  // ---------- Putting columns under their names ----------

  predicate Distinct<N(==)>(names: seq<N>) {
    forall i, j :: 0 <= i < j < |names| ==> names[i] != names[j]
  }

  /** Each name with the array at its place; a repeated name keeps its last array. */
  method InsertByName<N(==), A>(names: seq<N>, finished: seq<A>) returns (byName: map<N, A>)
    ensures forall x :: x in byName <==> exists k :: 0 <= k < |names| && k < |finished| && names[k] == x
    ensures forall k :: 0 <= k < |names| && k < |finished|
                        && (forall j :: k < j < |names| && j < |finished| ==> names[j] != names[k])
                        ==> byName[names[k]] == finished[k]
  {
    byName := map[];
    var n := if |names| <= |finished| then |names| else |finished|;
    for i := 0 to n
      invariant forall x :: x in byName <==> exists k :: 0 <= k < i && names[k] == x
      invariant forall k :: 0 <= k < i && (forall j :: k < j < i ==> names[j] != names[k])
                            ==> byName[names[k]] == finished[k]
    {
      byName := byName[names[i] := finished[i]];
    }
  }

  /** Takes the arrays out again by name; none stands for the panic on a name without an array. */
  method RemoveByName<N(==), A>(names: seq<N>, byName: map<N, A>) returns (columns: Option<seq<A>>)
    ensures columns.Some? <==> Distinct(names) && forall name :: name in names ==> name in byName
    ensures columns.Some? ==> |columns.value| == |names|
    ensures columns.Some? ==> forall k :: 0 <= k < |names| ==> columns.value[k] == byName[names[k]]
  {
    var left := byName;
    var taken: seq<A> := [];
    for i := 0 to |names|
      invariant |taken| == i
      invariant forall x :: x in left <==> x in byName && x !in names[..i]
      invariant forall x :: x in left ==> left[x] == byName[x]
      invariant Distinct(names[..i])
      invariant forall k :: 0 <= k < i ==> names[k] in byName && taken[k] == byName[names[k]]
    {
      var name := names[i];
      assert name in names;
      if name !in left {
        if name in byName {
          RepeatedName(names, i);
        }
        return None;
      }
      DistinctPush(names, i);
      taken := taken + [left[name]];
      left := left - {name};
      assert names[..i + 1] == names[..i] + [name];
    }
    assert names[..|names|] == names;
    return Some(taken);
  }

  lemma {:induction false} RepeatedName<N>(names: seq<N>, i: nat)
    requires i < |names| && names[i] in names[..i]
    ensures !Distinct(names)
  {
    var k :| 0 <= k < i && names[k] == names[i];
  }

  lemma {:induction false} DistinctPush<N>(names: seq<N>, i: nat)
    requires i < |names| && Distinct(names[..i]) && names[i] !in names[..i]
    ensures Distinct(names[..i + 1])
  {
    var longer := names[..i + 1];
    forall j, k | 0 <= j < k < i + 1
      ensures longer[j] != longer[k]
    {
      assert names[..i][j] == longer[j];
      assert k < i ==> names[..i][k] == longer[k];
    }
  }

  /** The finished arrays in the order of the names. */
  function Assembled<N(==), A>(names: seq<N>, finished: seq<A>): Option<seq<A>> {
    if Distinct(names) && |names| <= |finished| then Some(finished[..|names|]) else None
  }

  /**
   The name-keyed reassembly: each finished array goes under the name at its place, then the
   arrays are taken out again by name. It succeeds exactly when the names are distinct and
   there are arrays enough, and then the arrays come out in the order in which they went in.
   */
  method AssembleColumns<N(==), A>(names: seq<N>, finished: seq<A>) returns (columns: Option<seq<A>>)
    ensures columns == Assembled(names, finished)
  {
    var byName := InsertByName(names, finished);
    if Distinct(names) {
      EveryNameHasAnArray(names, finished, byName.Keys);
    }
    columns := RemoveByName(names, byName);
    if columns.Some? {
      forall k | 0 <= k < |names|
        ensures columns.value[k] == finished[k]
      {
        assert forall j :: k < j < |names| ==> names[j] != names[k];
      }
      assert columns.value == finished[..|names|];
    }
  }

  lemma {:induction false} EveryNameHasAnArray<N, A>(names: seq<N>, finished: seq<A>, keys: set<N>)
    requires Distinct(names)
    requires forall x :: x in keys <==> exists k :: 0 <= k < |names| && k < |finished| && names[k] == x
    ensures (forall name :: name in names ==> name in keys) <==> |names| <= |finished|
  {
    if |names| > |finished| {
      assert names[|finished|] in names && names[|finished|] !in keys;
    }
  }

  /**
   Place by place: a name gets an array of its owner if and only if its owner's array was pushed
   at the place of the name. So all names do if and only if the pushes follow the order of the names.
   */
  lemma {:induction false} OwnNamesExactly<N, A>(names: seq<N>, finished: seq<A>, owner: A -> N)
    ensures Assembled(names, finished).Some? <==> Distinct(names) && |names| <= |finished|
    ensures Assembled(names, finished).Some? ==>
              var columns := Assembled(names, finished).value;
              && |columns| == |names|
              && (forall k :: 0 <= k < |names| ==> (owner(columns[k]) == names[k] <==> owner(finished[k]) == names[k]))
              && (Mapped(owner, columns) == names <==> names <= Mapped(owner, finished))
  {
    if Assembled(names, finished).Some? {
      var columns := Assembled(names, finished).value;
      assert Mapped(owner, columns) == Mapped(owner, finished)[..|names|];
    }
  }

  /** Two arrays pushed in the wrong order are not noticed; a repeated name is. */
  lemma {:induction false} WrongOrderIsSilent()
    ensures Assembled(["a", "b"], ["b", "a"]) == Some(["b", "a"])
    ensures Assembled(["a", "a"], ["a", "b"]) == None
  {
    var names := ["a", "a"];
    assert names[0] == names[1];
    assert "a" != "b" && ["b", "a"][..2] == ["b", "a"];
  }
}
