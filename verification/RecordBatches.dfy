/**
 Building a record batch from rows, for any set of builders: the row loop, finishing, the
 reassembly by name and the checks of a batch against its schema (src/export/parquet.rs).
 */
module RecordBatches {
  import opened Columns
  import opened Wrappers

  /** A finished column. */
  datatype Array = Cells(kind: Kind, cells: seq<Cell>) | Lists(list: ListArray)

  function TypeOf(a: Array): DataType {
    match a
    case Cells(kind, _) => Plain(kind)
    case Lists(list) => list.dataType
  }

  function LengthOf(a: Array): nat {
    match a
    case Cells(_, cells) => |cells|
    case Lists(list) => if list.offsets == [] then 0 else |list.offsets| - 1
  }

  /** No list of a list column is ever null itself. */
  predicate HasNoNulls(a: Array) {
    a.Cells? ==> NullFree(a.cells)
  }

  datatype ArrowBuilder = CellBuilder(kind: Kind, cells: seq<Cell>) | NestedBuilder(list: ListBuilder)

  function NewArrowBuilder(t: DataType): ArrowBuilder {
    if t.Plain? then CellBuilder(t.kind, []) else NestedBuilder(NewListBuilder(t))
  }

  datatype SchemaField = SchemaField(name: string, dataType: DataType, nullable: bool)

  datatype RecordBatch = RecordBatch(schema: seq<SchemaField>, columns: seq<Array>)

  function NamesOf(schema: seq<SchemaField>): seq<string> {
    seq(|schema|, k requires 0 <= k < |schema| => schema[k].name)
  }

  /** A column agrees with its schema field. */
  predicate Matches(field: SchemaField, a: Array, length: nat) {
    TypeOf(a) == field.dataType && LengthOf(a) == length && (field.nullable || HasNoNulls(a))
  }

  /** `RecordBatch::try_new`, behind the check that there are as many columns as fields. */
  function TryNew(schema: seq<SchemaField>, columns: seq<Array>): Option<RecordBatch> {
    if && |columns| == |schema|
       && forall k :: 0 <= k < |schema| ==> Matches(schema[k], columns[k], LengthOf(columns[0]))
    then Some(RecordBatch(schema, columns))
    else None
  }

  /** A column of a field with some rows: of the field's type, and without nulls where the field has none. */
  ghost predicate IsColumn(field: SchemaField, a: Array, rows: nat) {
    match a
    case Cells(kind, cells) =>
      && field.dataType == Plain(kind) && |cells| == rows
      && (field.nullable || forall c :: c in cells ==> c !in {Str(None), I32(None), I64(None), F64(None), Flag(None)})
    case Lists(list) =>
      field.dataType == list.dataType && (|list.offsets| == rows + 1 || (list.offsets == [] && rows == 0))
  }

  lemma {:induction false} MatchesExactly(field: SchemaField, a: Array, rows: nat)
    ensures Matches(field, a, rows) <==> IsColumn(field, a, rows)
  {
    if a.Cells? {
      forall c
        ensures IsNull(c) <==> c in {Str(None), I32(None), I64(None), F64(None), Flag(None)}
      {
        NullExactly(c);
      }
    }
  }

  ghost predicate AreColumns(schema: seq<SchemaField>, columns: seq<Array>, rows: nat) {
    |columns| == |schema| && forall k :: 0 <= k < |schema| ==> IsColumn(schema[k], columns[k], rows)
  }

  /** A batch is made if and only if there is a column for each field, and all have the same number of rows. */
  lemma {:induction false} TryNewExactly(schema: seq<SchemaField>, columns: seq<Array>)
    ensures TryNew(schema, columns).Some? <==> exists rows :: AreColumns(schema, columns, rows)
    ensures TryNew(schema, columns).Some? ==> TryNew(schema, columns).value == RecordBatch(schema, columns)
  {
    forall k, rows: nat | 0 <= k < |schema| && k < |columns|
      ensures Matches(schema[k], columns[k], rows) <==> IsColumn(schema[k], columns[k], rows)
    {
      MatchesExactly(schema[k], columns[k], rows);
    }
    if |columns| == |schema| {
      var first := if columns == [] then 0 else LengthOf(columns[0]);
      if TryNew(schema, columns).Some? {
        assert AreColumns(schema, columns, first);
      }
      if rows :| AreColumns(schema, columns, rows) && columns != [] {
        assert Matches(schema[0], columns[0], rows);
      }
    }
  }

  /** A builder: what it is declared as, and what the row loop appends to it for a row. */
  datatype Push<!R> = CellPush(kind: Kind, cell: R -> Cell) | ListPush(item: DataType, records: R -> seq<Record>)

  function DeclaredType<R>(push: Push<R>): DataType {
    match push
    case CellPush(kind, _) => Plain(kind)
    case ListPush(item, _) => item
  }

  /** Whatever is appended has the kinds of the builder it is appended to, and nulls only where these are allowed. */
  ghost predicate Sound<R(!new)>(push: Push<R>) {
    match push
    case CellPush(kind, cell) => forall row :: KindOf(cell(row)) == kind
    case ListPush(item, records) => !item.Plain? && forall row :: AllConform(records(row), FieldsOf(item))
  }

  ghost predicate AllSound<R(!new)>(order: seq<Push<R>>) {
    forall k :: 0 <= k < |order| ==> Sound(order[k])
  }

  function CellsOf<R>(cell: R -> Cell, rows: seq<R>): seq<Cell> {
    seq(|rows|, i requires 0 <= i < |rows| => cell(rows[i]))
  }

  function ListsOf<R>(records: R -> seq<Record>, rows: seq<R>): seq<seq<Record>> {
    seq(|rows|, i requires 0 <= i < |rows| => records(rows[i]))
  }

  /** The column that holds what a builder gets for each row. */
  function ColumnOf<R>(push: Push<R>, rows: seq<R>): Array {
    match push
    case CellPush(kind, cell) => Cells(kind, CellsOf(cell, rows))
    case ListPush(item, records) => Lists(Encode(ListsOf(records, rows), item))
  }

  function AllColumns<R>(order: seq<Push<R>>, rows: seq<R>): seq<Array> {
    seq(|order|, k requires 0 <= k < |order| => ColumnOf(order[k], rows))
  }

  // ---------- The row loop ----------

  /** An Arrow builder that holds what it got for some rows. */
  ghost predicate Holds<R>(push: Push<R>, rows: seq<R>, a: ArrowBuilder) {
    match push
    case CellPush(kind, cell) => a == CellBuilder(kind, CellsOf(cell, rows))
    case ListPush(item, records) => a.NestedBuilder? && Built(a.list, item, ListsOf(records, rows))
  }

  ghost predicate AllHold<R>(order: seq<Push<R>>, rows: seq<R>, builders: seq<ArrowBuilder>) {
    |builders| == |order| && forall k :: 0 <= k < |order| ==> Holds(order[k], rows, builders[k])
  }

  lemma {:induction false} CellsPush<R>(cell: R -> Cell, rows: seq<R>, row: R)
    ensures CellsOf(cell, rows + [row]) == CellsOf(cell, rows) + [cell(row)]
  {
  }

  lemma {:induction false} ListsPush<R>(records: R -> seq<Record>, rows: seq<R>, row: R)
    ensures ListsOf(records, rows + [row]) == ListsOf(records, rows) + [records(row)]
  {
  }

  /** What one row adds to one builder; none stands for a panic. */
  method AppendTo<R(!new)>(push: Push<R>, row: R, a: ArrowBuilder, ghost rows: seq<R>)
    returns (r: Option<ArrowBuilder>)
    requires Sound(push) && Holds(push, rows, a)
    ensures r.Some? && Holds(push, rows + [row], r.value)
  {
    match push
    case CellPush(kind, cell) =>
      CellsPush(cell, rows, row);
      return Some(CellBuilder(kind, a.cells + [cell(row)]));
    case ListPush(item, records) =>
      ListsPush(records, rows, row);
      var appended := AppendRow(a.list, item, records(row), ListsOf(records, rows));
      return Some(NestedBuilder(appended.value));
  }

  /** One turn of the row loop. */
  method AppendToAll<R(!new)>(order: seq<Push<R>>, row: R, builders: seq<ArrowBuilder>, ghost rows: seq<R>)
    returns (r: Option<seq<ArrowBuilder>>)
    requires AllSound(order) && AllHold(order, rows, builders)
    ensures r.Some? && AllHold(order, rows + [row], r.value)
  {
    var updated: seq<ArrowBuilder> := [];
    for k := 0 to |order|
      invariant |updated| == k
      invariant forall j :: 0 <= j < k ==> Holds(order[j], rows + [row], updated[j])
    {
      var a := AppendTo(order[k], row, builders[k], rows);
      updated := updated + [a.value];
    }
    return Some(updated);
  }

  method NewBuilders<R(!new)>(order: seq<Push<R>>) returns (builders: seq<ArrowBuilder>)
    requires AllSound(order)
    ensures AllHold(order, [], builders)
  {
    builders := seq(|order|, k requires 0 <= k < |order| => NewArrowBuilder(DeclaredType(order[k])));
    forall k | 0 <= k < |order|
      ensures Holds(order[k], [], builders[k])
    {
      NewHolds(order[k]);
    }
  }

  lemma {:induction false} NewHolds<R(!new)>(push: Push<R>)
    requires Sound(push)
    ensures Holds(push, [], NewArrowBuilder(DeclaredType(push)))
  {
    NewIsBuilt(DeclaredType(push));
    assert push.ListPush? ==> ListsOf(push.records, []) == [];
  }

  // ---------- Finishing ----------

  lemma {:induction false} ListsConform<R(!new)>(push: Push<R>, rows: seq<R>)
    requires Sound(push) && push.ListPush?
    ensures RowsConform(ListsOf(push.records, rows), FieldsOf(push.item))
  {
    forall list | list in ListsOf(push.records, rows)
      ensures AllConform(list, FieldsOf(push.item))
    {
      var i :| 0 <= i < |rows| && list == push.records(rows[i]);
    }
  }

  method Finish<R(!new)>(push: Push<R>, a: ArrowBuilder, ghost rows: seq<R>) returns (r: Option<Array>)
    requires Sound(push) && Holds(push, rows, a)
    ensures r == Some(ColumnOf(push, rows))
  {
    match a
    case CellBuilder(kind, cells) =>
      return Some(Cells(kind, cells));
    case NestedBuilder(list) =>
      ListsConform(push, rows);
      FlatConforms(ListsOf(push.records, rows), FieldsOf(push.item));
      FinishBuilt(list, push.item, ListsOf(push.records, rows));
      return Some(Lists(list.Finish().value));
  }

  method FinishAll<R(!new)>(order: seq<Push<R>>, builders: seq<ArrowBuilder>, ghost rows: seq<R>)
    returns (r: Option<seq<Array>>)
    requires AllSound(order) && AllHold(order, rows, builders)
    ensures r == Some(AllColumns(order, rows))
  {
    var finished: seq<Array> := [];
    for k := 0 to |order|
      invariant |finished| == k
      invariant forall j :: 0 <= j < k ==> finished[j] == ColumnOf(order[j], rows)
    {
      var a := Finish(order[k], builders[k], rows);
      finished := finished + [a.value];
    }
    assert finished == AllColumns(order, rows);
    return Some(finished);
  }

  // ---------- The batch ----------

  /** A builder makes columns of a type, and makes no nulls unless they are allowed. */
  ghost predicate Serves<R(!new)>(push: Push<R>, t: DataType, nullable: bool) {
    DeclaredType(push) == t && (push.CellPush? && !nullable ==> forall row :: !IsNull(push.cell(row)))
  }

  /** What a schema asks of the builders that are pushed. */
  ghost predicate Agrees<R(!new)>(order: seq<Push<R>>, schema: seq<SchemaField>) {
    && |schema| <= |order|
    && Distinct(NamesOf(schema))
    && forall k :: 0 <= k < |schema| ==> Serves(order[k], schema[k].dataType, schema[k].nullable)
  }

  lemma {:induction false} ColumnMatches<R(!new)>(push: Push<R>, field: SchemaField, rows: seq<R>)
    requires Serves(push, field.dataType, field.nullable)
    ensures Matches(field, ColumnOf(push, rows), |rows|)
  {
  }

  /** The columns of builders that agree with a schema are never refused. */
  lemma {:induction false} BatchIsAccepted<R(!new)>(order: seq<Push<R>>, schema: seq<SchemaField>, rows: seq<R>)
    requires Agrees(order, schema)
    ensures TryNew(schema, AllColumns(order, rows)[..|schema|])
            == Some(RecordBatch(schema, AllColumns(order, rows)[..|schema|]))
  {
    var columns := AllColumns(order, rows)[..|schema|];
    forall k | 0 <= k < |schema|
      ensures Matches(schema[k], columns[k], |rows|)
    {
      ColumnMatches(order[k], schema[k], rows);
    }
    assert schema != [] ==> Matches(schema[0], columns[0], |rows|);
  }

  /**
   From rows to a batch, with each column what the builder at its place got for each row; none if
   a name is missing or repeated, or the schema refuses a column. Nothing else can panic.
   */
  method BuildBatch<R(!new)>(order: seq<Push<R>>, schema: seq<SchemaField>, rows: seq<R>)
    returns (batch: Option<RecordBatch>)
    requires AllSound(order)
    ensures batch == if |schema| <= |order| && Distinct(NamesOf(schema))
                     then TryNew(schema, AllColumns(order, rows)[..|schema|])
                     else None
  {
    var builders := NewBuilders(order);
    assert rows[..0] == [];
    for i := 0 to |rows|
      invariant AllHold(order, rows[..i], builders)
    {
      var updated := AppendToAll(order, rows[i], builders, rows[..i]);
      builders := updated.value;
      assert rows[..i + 1] == rows[..i] + [rows[i]];
    }
    assert rows[..|rows|] == rows;
    var finished := FinishAll(order, builders, rows);
    var columns := AssembleColumns(NamesOf(schema), finished.value);
    if columns.None? {
      return None;
    }
    return TryNew(schema, columns.value);
  }

  /** The batch that builders make for a schema. */
  function BuiltBatch<R>(order: seq<Push<R>>, schema: seq<SchemaField>, rows: seq<R>): RecordBatch
    requires |schema| <= |order|
  {
    RecordBatch(schema, AllColumns(order, rows)[..|schema|])
  }

  // ---------- Reading a batch by column name ----------

  /** The first place of a name. */
  function PlaceOf(names: seq<string>, name: string): (k: nat)
    ensures k <= |names|
    ensures k < |names| ==> names[k] == name
    ensures name !in names[..k]
  {
    if names == [] || names[0] == name then 0
    else
      var k := PlaceOf(names[1..], name);
      assert names[..k + 1] == [names[0]] + names[1..][..k];
      k + 1
  }

  lemma {:induction false} PlaceOfDistinct(names: seq<string>, k: nat)
    requires k < |names| && Distinct(names)
    ensures PlaceOf(names, names[k]) == k
  {
    if k > 0 {
      assert names[0] != names[k];
      PlaceOfDistinct(names[1..], k - 1);
    }
  }

  /** How many rows a batch has. */
  function RowCount(batch: RecordBatch): nat {
    if batch.columns == [] then 0 else LengthOf(batch.columns[0])
  }

  lemma {:induction false} RowCountOfBuilt<R>(order: seq<Push<R>>, schema: seq<SchemaField>, rows: seq<R>)
    requires 0 < |schema| <= |order|
    ensures RowCount(BuiltBatch(order, schema, rows)) == |rows|
  {
    assert AllColumns(order, rows)[..|schema|][0] == ColumnOf(order[0], rows);
  }

  function ColumnNamed(batch: RecordBatch, name: string): Option<Array> {
    var k := PlaceOf(NamesOf(batch.schema), name);
    if k < |batch.columns| && k < |batch.schema| then Some(batch.columns[k]) else None
  }

  /** The cell of a named column in row `i`. */
  function ReadCell(batch: RecordBatch, name: string, i: nat): Cell {
    match ColumnNamed(batch, name)
    case Some(Cells(_, cells)) => if i < |cells| then cells[i] else Str(None)
    case _ => Str(None)
  }

  ghost predicate Readable(batch: RecordBatch) {
    forall a :: a in batch.columns && a.Lists? ==> WellFormed(a.list)
  }

  lemma {:induction false} NamedIsInBatch(batch: RecordBatch, name: string)
    requires ColumnNamed(batch, name).Some?
    ensures ColumnNamed(batch, name).value in batch.columns
  {
  }

  /** The list of a named column in row `i`. */
  function ReadList(batch: RecordBatch, name: string, i: nat): seq<Record>
    requires Readable(batch)
  {
    var a := ColumnNamed(batch, name);
    if a.Some? && a.value.Lists? then
      NamedIsInBatch(batch, name);
      if i < LengthOf(a.value) then DecodeRow(a.value.list, i) else []
    else []
  }

  /**
   Every column of a built batch reads back, under the name at its place and as what it is, as
   what the builder pushed at that place got for each row.
   */
  lemma {:induction false} BatchRoundTrip<R(!new)>(order: seq<Push<R>>, schema: seq<SchemaField>, rows: seq<R>,
                                                   k: nat, i: nat)
    requires AllSound(order) && Agrees(order, schema) && k < |schema| && i < |rows|
    ensures var batch := BuiltBatch(order, schema, rows);
            && Readable(batch)
            && var name := schema[k].name;
            && ReadCell(batch, name, i) == (if order[k].CellPush? then order[k].cell(rows[i]) else Str(None))
            && ReadList(batch, name, i) == (if order[k].ListPush? then order[k].records(rows[i]) else [])
  {
    var batch := BuiltBatch(order, schema, rows);
    BuiltIsReadable(order, schema, rows);
    PlaceOfDistinct(NamesOf(schema), k);
    assert ColumnNamed(batch, schema[k].name) == Some(ColumnOf(order[k], rows));
    if order[k].ListPush? {
      var lists := ListsOf(order[k].records, rows);
      ListsConform(order[k], rows);
      DecodeOfEncode(lists, order[k].item);
      assert Decode(Encode(lists, order[k].item))[i] == lists[i];
    }
  }

  lemma {:induction false} BuiltIsReadable<R>(order: seq<Push<R>>, schema: seq<SchemaField>, rows: seq<R>)
    requires |schema| <= |order|
    ensures Readable(BuiltBatch(order, schema, rows))
  {
    var columns := AllColumns(order, rows)[..|schema|];
    forall a | a in columns && a.Lists?
      ensures WellFormed(a.list)
    {
      var k :| 0 <= k < |schema| && a == ColumnOf(order[k], rows);
      EncodeIsWellFormed(ListsOf(order[k].records, rows), order[k].item);
    }
  }
}
