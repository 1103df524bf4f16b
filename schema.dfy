/**
 * The schema context of `generateSmartSQL` (lib/gemini.ts): the table,
 * column and foreign-key records of the database rendered as the text block
 * the language model is shown, and the prompt that text is spliced into.
 */
module SchemaPrompt {
  import opened Text
  import opened Js

  /** A column record: name, SQL type and the `is_nullable` flag ("YES" or "NO"). */
  datatype Column = Column(name: string, dataType: string, isNullable: string)

  /** A foreign key: the local column and the table and column it references. */
  datatype ForeignKey = ForeignKey(column: string, refTable: string, refColumn: string)

  /** The detailed schema of one table. A missing `foreign_keys` or `sample_data`
      list behaves as an empty one and is written as `[]`. */
  datatype TableSchema = TableSchema(
    name: string,
    columns: seq<Column>,
    foreignKeys: seq<ForeignKey>,
    sample: seq<Row>,
    rowCount: JsValue)

  /** `schemas.map(s => s.table_name)`. */
  function TableNames(schemas: seq<TableSchema>): (names: seq<string>)
    ensures |names| == |schemas|
    ensures forall i :: 0 <= i < |schemas| ==> names[i] == schemas[i].name
  {
    seq(|schemas|, i requires 0 <= i < |schemas| => schemas[i].name)
  }

  /** `name (type)`, with " NOT NULL" inside the parentheses for a non-nullable column. */
  function ColumnText(c: Column): string {
    c.name + " (" + c.dataType + (if c.isNullable == "NO" then " NOT NULL" else "") + ")"
  }

  function ForeignKeyText(fk: ForeignKey): string {
    fk.column + " -> " + fk.refTable + "." + fk.refColumn
  }

  function ColumnTexts(cols: seq<Column>): (texts: seq<string>)
    ensures |texts| == |cols|
    ensures forall i :: 0 <= i < |cols| ==> texts[i] == ColumnText(cols[i])
  {
    seq(|cols|, i requires 0 <= i < |cols| => ColumnText(cols[i]))
  }

  /** The column list: the columns' texts joined by ", ". */
  function ColumnsText(cols: seq<Column>): string {
    Join(ColumnTexts(cols), ", ")
  }

  function ForeignKeyTexts(fks: seq<ForeignKey>): (texts: seq<string>)
    ensures |texts| == |fks|
    ensures forall i :: 0 <= i < |fks| ==> texts[i] == ForeignKeyText(fks[i])
  {
    seq(|fks|, i requires 0 <= i < |fks| => ForeignKeyText(fks[i]))
  }

  const ForeignKeysLabel: string := "\nForeign Keys: "

  /** The foreign-key line, or nothing for a table without foreign keys: its
      label, then the keys' texts joined by ", ". */
  function ForeignKeyInfo(t: TableSchema): (r: string)
    ensures r == "" <==> |t.foreignKeys| == 0
  {
    if |t.foreignKeys| > 0 then ForeignKeysLabel + Join(ForeignKeyTexts(t.foreignKeys), ", ")
    else ""
  }

  /** At most the first two sample rows are shown. */
  function ShownSample(sample: seq<Row>): (r: seq<Row>)
    ensures |r| == if |sample| < 2 then |sample| else 2
    ensures r == sample[..|r|]
  {
    if |sample| < 2 then sample else sample[..2]
  }

  /** `${schema.row_count || 0}`. */
  function RowCountOrZero(v: JsValue): string {
    if Truthy(v) then ToJsString(v) else "0"
  }

  /** The sample line with the row count, or just the row count when there is no
      sample. `stringify` is `JSON.stringify(rows, null, 2)`. */
  function SampleInfo(t: TableSchema, stringify: seq<Row> -> string): (r: string)
    ensures |r| > 0 && r[0] == '\n'
    ensures t.sample != [] ==> EndsWith(r, stringify(ShownSample(t.sample)))
    ensures t.sample == [] ==>
      r == "\nTotal Rows: " + (if Truthy(t.rowCount) then ToJsString(t.rowCount) else "0")
  {
    if |t.sample| > 0 then
      "\nSample Data (" + ToJsString(t.rowCount) + " total rows): " + stringify(ShownSample(t.sample))
    else "\nTotal Rows: " + RowCountOrZero(t.rowCount)
  }

  /** The header of a table's block: its name and, on the next line, its columns. */
  function TableHeader(t: TableSchema): string {
    "\nTable: " + t.name + "\nColumns: "
  }

  /** The block describing one table: the header, the column list, the
      foreign-key line, the sample line and a line feed. */
  function TableBlock(t: TableSchema, stringify: seq<Row> -> string): string {
    TableHeader(t) + ColumnsText(t.columns) + ForeignKeyInfo(t) + SampleInfo(t, stringify) + "\n"
  }

  function TableBlocks(schemas: seq<TableSchema>, stringify: seq<Row> -> string): (blocks: seq<string>)
    ensures |blocks| == |schemas|
    ensures forall i :: 0 <= i < |schemas| ==> blocks[i] == TableBlock(schemas[i], stringify)
  {
    seq(|schemas|, i requires 0 <= i < |schemas| => TableBlock(schemas[i], stringify))
  }

  /** `schemaContext`: the table blocks joined by line feeds. */
  function SchemaContext(schemas: seq<TableSchema>, stringify: seq<Row> -> string): (r: string)
    ensures forall i | 0 <= i < |schemas| ::
      ContainsAt(r, TableHeader(schemas[i]), JoinOffset(TableBlocks(schemas, stringify), "\n", i))
  {
    BlocksListHeaders(schemas, stringify);
    Join(TableBlocks(schemas, stringify), "\n")
  }

  /** `availableTables`: the table names joined by ", ". */
  function AvailableTables(schemas: seq<TableSchema>): (r: string)
    ensures forall i | 0 <= i < |schemas| ::
      ContainsAt(r, schemas[i].name, JoinOffset(TableNames(schemas), ", ", i))
  {
    JoinContainsEvery(TableNames(schemas), ", ");
    Join(TableNames(schemas), ", ")
  }

  /** The fixed wording of the prompt, in the three pieces the variable parts separate. */
  datatype Instructions = Instructions(intro: string, rules: string, closing: string)

  /** The prompt, the concatenation of its pieces: the introduction, the schema
      context, the table list, the rules and examples, the question in double
      quotes, and the reply format. */
  function Prompt(ins: Instructions, question: string, schemas: seq<TableSchema>,
                  stringify: seq<Row> -> string): (r: string)
    ensures ContainsAt(r, ins.intro, 0)
    ensures ContainsAt(r, SchemaContext(schemas, stringify), |ins.intro|)
    ensures ContainsAt(r, question, JoinOffset(PromptPieces(ins, question, schemas, stringify), "", 6))
  {
    var pieces := PromptPieces(ins, question, schemas, stringify);
    JoinContainsPart(pieces, "", 0);
    JoinContainsPart(pieces, "", 1);
    JoinContainsPart(pieces, "", 6);
    assert pieces[1..][0] == pieces[1];
    Join(pieces, "")
  }

  function PromptPieces(ins: Instructions, question: string, schemas: seq<TableSchema>,
                        stringify: seq<Row> -> string): seq<string> {
    [ins.intro, SchemaContext(schemas, stringify), "\n\nAVAILABLE TABLES: ", AvailableTables(schemas),
     "\n\n", ins.rules, question, "\"\n\n", ins.closing]
  }

  // --------------------------------------------------------------- properties

  /** The column list names every column, in order, at its offset. */
  lemma ColumnsTextLists(cols: seq<Column>)
    ensures forall i | 0 <= i < |cols| ::
      ContainsAt(ColumnsText(cols), ColumnText(cols[i]), JoinOffset(ColumnTexts(cols), ", ", i))
  {
    JoinContainsEvery(ColumnTexts(cols), ", ");
  }

  /** The foreign-key line names every foreign key, in order, after its label. */
  lemma ForeignKeyInfoLists(t: TableSchema)
    ensures forall i | 0 <= i < |t.foreignKeys| ::
      ContainsAt(ForeignKeyInfo(t), ForeignKeyText(t.foreignKeys[i]),
                 |ForeignKeysLabel| + JoinOffset(ForeignKeyTexts(t.foreignKeys), ", ", i))
  {
    forall i | 0 <= i < |t.foreignKeys|
      ensures ContainsAt(ForeignKeyInfo(t), ForeignKeyText(t.foreignKeys[i]),
                         |ForeignKeysLabel| + JoinOffset(ForeignKeyTexts(t.foreignKeys), ", ", i))
    {
      ForeignKeyInfoListsKey(t, i);
    }
  }

  lemma ForeignKeyInfoListsKey(t: TableSchema, i: nat)
    requires i < |t.foreignKeys|
    ensures ContainsAt(ForeignKeyInfo(t), ForeignKeyText(t.foreignKeys[i]),
                       |ForeignKeysLabel| + JoinOffset(ForeignKeyTexts(t.foreignKeys), ", ", i))
  {
    JoinContainsPart(ForeignKeyTexts(t.foreignKeys), ", ", i);
    ContainsAtShift(ForeignKeysLabel, Join(ForeignKeyTexts(t.foreignKeys), ", "), ForeignKeyText(t.foreignKeys[i]),
                    JoinOffset(ForeignKeyTexts(t.foreignKeys), ", ", i));
  }

  /** Every table's header occurs in the joined blocks, where its block starts. */
  lemma BlocksListHeaders(schemas: seq<TableSchema>, stringify: seq<Row> -> string)
    ensures forall i | 0 <= i < |schemas| ::
      ContainsAt(Join(TableBlocks(schemas, stringify), "\n"), TableHeader(schemas[i]),
                 JoinOffset(TableBlocks(schemas, stringify), "\n", i))
  {
    forall i | 0 <= i < |schemas|
      ensures ContainsAt(Join(TableBlocks(schemas, stringify), "\n"), TableHeader(schemas[i]),
                         JoinOffset(TableBlocks(schemas, stringify), "\n", i))
    {
      BlocksListHeader(schemas, stringify, i);
    }
  }

  lemma BlocksListHeader(schemas: seq<TableSchema>, stringify: seq<Row> -> string, i: nat)
    requires i < |schemas|
    ensures ContainsAt(Join(TableBlocks(schemas, stringify), "\n"), TableHeader(schemas[i]),
                       JoinOffset(TableBlocks(schemas, stringify), "\n", i))
  {
    var blocks := TableBlocks(schemas, stringify);
    JoinContainsPart(blocks, "\n", i);
    TableBlockStartsWithHeader(schemas[i], stringify);
    ContainsAtStart(Join(blocks, "\n"), blocks[i], TableHeader(schemas[i]), JoinOffset(blocks, "\n", i));
  }

  /** A table's block starts with its header. */
  lemma TableBlockStartsWithHeader(t: TableSchema, stringify: seq<Row> -> string)
    ensures ContainsAt(TableBlock(t, stringify), TableHeader(t), 0)
  {
    ContainsFirstOfFive(TableBlock(t, stringify), TableHeader(t), ColumnsText(t.columns), ForeignKeyInfo(t), SampleInfo(t, stringify), "\n");
  }

  /** A table's block names every column at its place in the column list,
      which follows the header. */
  lemma TableBlockListsColumn(t: TableSchema, stringify: seq<Row> -> string, i: nat)
    requires i < |t.columns|
    ensures ContainsAt(TableBlock(t, stringify), ColumnText(t.columns[i]),
                       |TableHeader(t)| + JoinOffset(ColumnTexts(t.columns), ", ", i))
  {
    JoinContainsPart(ColumnTexts(t.columns), ", ", i);
    ContainsInSecondOfFive(TableBlock(t, stringify), TableHeader(t), ColumnsText(t.columns), ForeignKeyInfo(t),
                           SampleInfo(t, stringify), "\n",
                           ColumnText(t.columns[i]), JoinOffset(ColumnTexts(t.columns), ", ", i));
  }

  /** A table's block names every foreign key at its place in the foreign-key
      line, which follows the header and the column list. */
  lemma TableBlockListsForeignKey(t: TableSchema, stringify: seq<Row> -> string, i: nat)
    requires i < |t.foreignKeys|
    ensures ContainsAt(TableBlock(t, stringify), ForeignKeyText(t.foreignKeys[i]),
                       |TableHeader(t)| + |ColumnsText(t.columns)| + |ForeignKeysLabel|
                       + JoinOffset(ForeignKeyTexts(t.foreignKeys), ", ", i))
  {
    ForeignKeyInfoListsKey(t, i);
    ContainsInThirdOfFive(TableBlock(t, stringify), TableHeader(t), ColumnsText(t.columns), ForeignKeyInfo(t),
                          SampleInfo(t, stringify), "\n", ForeignKeyText(t.foreignKeys[i]),
                          |ForeignKeysLabel| + JoinOffset(ForeignKeyTexts(t.foreignKeys), ", ", i));
  }

  /** One more table adds a line feed and its block at the end of the context. */
  lemma SchemaContextAppend(schemas: seq<TableSchema>, t: TableSchema, stringify: seq<Row> -> string)
    requires |schemas| > 0
    ensures SchemaContext(schemas + [t], stringify) == SchemaContext(schemas, stringify) + "\n" + TableBlock(t, stringify)
  {
    assert TableBlocks(schemas + [t], stringify) == TableBlocks(schemas, stringify) + [TableBlock(t, stringify)];
    JoinSnoc(TableBlocks(schemas, stringify), TableBlock(t, stringify), "\n");
  }

  /** Only the first two sample rows reach the prompt: tables that agree on them
      and on the row count get the same sample line. */
  lemma SampleInfoUsesFirstTwoRows(t: TableSchema, u: TableSchema, stringify: seq<Row> -> string)
    requires |t.sample| >= 2 && |u.sample| >= 2 && t.sample[..2] == u.sample[..2]
    requires t.rowCount == u.rowCount
    ensures SampleInfo(t, stringify) == SampleInfo(u, stringify)
  {
  }
}
