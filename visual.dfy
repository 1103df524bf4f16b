/**
 * The two data transformations of the result view: the CSV export of the
 * result rows and the name/value pairs a pie chart is drawn from.
 */
module DataVisualization {
  import opened Wrappers
  import opened Text
  import opened Js
  import opened ChartClassifier

  // ---------------------------------------------------------------- CSV

  /** Every double quote written twice, as a global replace of `"` by `""`. */
  function DoubleQuotes(s: string): (r: string)
    ensures forall i :: 0 <= i < |r| ==> r[i] in s
    decreases |s|
  {
    if s == [] then []
    else (if s[0] == '"' then "\"\"" else [s[0]]) + DoubleQuotes(s[1..])
  }

  /** The reading of a quoted CSV field's inside: `""` stands for one quote. */
  function Undouble(s: string): string
    decreases |s|
  {
    if s == [] then []
    else if |s| >= 2 && s[0] == '"' && s[1] == '"' then "\"" + Undouble(s[2..])
    else [s[0]] + Undouble(s[1..])
  }

  /** Doubling the quotes loses nothing: a CSV reader recovers the text. */
  lemma {:induction false} UndoubleDouble(s: string)
    ensures Undouble(DoubleQuotes(s)) == s
    decreases |s|
  {
    if s != [] {
      UndoubleDouble(s[1..]);
      var d := DoubleQuotes(s);
      if s[0] == '"' {
        assert d[2..] == DoubleQuotes(s[1..]);
      } else {
        assert d[1..] == DoubleQuotes(s[1..]);
      }
    }
  }

  /** A string cell is quoted when it holds a comma or a double quote. */
  predicate NeedsQuotes(v: JsValue) {
    v.Str? && (',' in v.s || '"' in v.s)
  }

  /** One CSV cell: a string that needs quoting is wrapped in quotes with its
      quotes doubled; every other value is written as `Array.join` writes it. */
  function CsvCell(v: JsValue): (r: string)
    ensures NeedsQuotes(v) ==> |r| >= 2 && r[0] == '"' && r[|r| - 1] == '"'
    ensures v.Str? && !NeedsQuotes(v) ==> r == v.s
    ensures v.Undefined? || v.Null? ==> r == ""
  {
    if NeedsQuotes(v) then "\"" + DoubleQuotes(v.s) + "\"" else JoinText(v)
  }

  /** The cells of one row, one per header, in header order. */
  function Cells(row: Row, headers: seq<string>): (cs: seq<string>)
    ensures |cs| == |headers|
    ensures forall i | 0 <= i < |headers| :: cs[i] == CsvCell(Get(row, headers[i]))
  {
    seq(|headers|, i requires 0 <= i < |headers| => CsvCell(Get(row, headers[i])))
  }

  function CsvRecord(row: Row, headers: seq<string>): string {
    Join(Cells(row, headers), ",")
  }

  function Records(results: seq<Row>, headers: seq<string>): (rs: seq<string>)
    ensures |rs| == |results|
    ensures forall i | 0 <= i < |results| :: rs[i] == CsvRecord(results[i], headers)
  {
    seq(|results|, i requires 0 <= i < |results| => CsvRecord(results[i], headers))
  }

  /** The header line: the keys of the first row. */
  function HeaderLine(results: seq<Row>): string
    requires |results| > 0
  {
    Join(Keys(results[0]), ",")
  }

  /** The CSV text: "" for no rows, otherwise the header line of the first
      row's keys followed by one line per row, joined by newlines. */
  function ConvertToCsv(results: seq<Row>): (r: string)
    ensures r == "" <==> results == []
  {
    if |results| == 0 then ""
    else
      var lines := [HeaderLine(results)] + Records(results, Keys(results[0]));
      assert '\n' in Join(lines, "\n") by {
        JoinCons(lines[0], lines[1..], "\n");
        assert Join(lines, "\n")[|lines[0]|] == '\n';
      }
      Join(lines, "\n")
  }

  /** A quoted cell reads back as the string it was made from. */
  lemma QuotedCellRoundTrip(v: JsValue)
    requires NeedsQuotes(v)
    ensures var c := CsvCell(v); Undouble(c[1..|c| - 1]) == v.s
  {
    var c := CsvCell(v);
    assert c[1..|c| - 1] == DoubleQuotes(v.s);
    UndoubleDouble(v.s);
  }

  /** A line break inside a string does not make it quoted: a string with a
      line break and no comma or double quote is written as it is. */
  lemma NewlineIsNotQuoted(s: string)
    requires '\n' in s && ',' !in s && '"' !in s
    ensures CsvCell(Str(s)) == s
  {
  }

  /** So a one-row export whose cell holds a line break reads as three lines. */
  lemma NewlineSplitsRow()
    ensures Split(ConvertToCsv([[Field("k", Str("a\nb"))]]), '\n') == ["k", "a", "b"]
  {
    var results := [[Field("k", Str("a\nb"))]];
    assert Keys(results[0]) == ["k"];
    assert "a\nb"[1] == '\n';
    NewlineIsNotQuoted("a\nb");
    assert Cells(results[0], ["k"]) == ["a\nb"];
    assert Records(results, ["k"]) == ["a\nb"];
    assert ConvertToCsv(results) == Join(["k", "a\nb"], "\n") == "k\na\nb";
    assert Join(["k", "a", "b"], ['\n']) == "k\na\nb";
    SplitJoin(["k", "a", "b"], '\n');
  }

  /** When no key and no cell holds a newline, the export has exactly one line
      per row after the header line, in row order. */
  lemma CsvLines(results: seq<Row>)
    requires |results| > 0
    requires forall j :: 0 <= j < |results[0]| ==> '\n' !in results[0][j].key
    requires forall i :: 0 <= i < |results| ==>
      forall j :: 0 <= j < |Cells(results[i], Keys(results[0]))| ==>
        '\n' !in Cells(results[i], Keys(results[0]))[j]
    ensures Split(ConvertToCsv(results), '\n') ==
      [HeaderLine(results)] + Records(results, Keys(results[0]))
  {
    var headers := Keys(results[0]);
    var lines := [HeaderLine(results)] + Records(results, headers);
    JoinWithout(headers, ",", '\n');
    forall i | 0 <= i < |results|
      ensures '\n' !in CsvRecord(results[i], headers)
    {
      JoinWithout(Cells(results[i], headers), ",", '\n');
    }
    assert forall i :: 0 <= i < |lines| ==> '\n' !in lines[i] by {
      forall i | 0 <= i < |lines| ensures '\n' !in lines[i] {
        if i > 0 {
          assert lines[i] == CsvRecord(results[i - 1], headers);
        }
      }
    }
    SplitJoin(lines, '\n');
  }

  /** A row of plain values (no comma, quote or newline in any cell) splits back
      at the commas into its cells, one per header. */
  lemma RecordFields(row: Row, headers: seq<string>)
    requires |headers| > 0
    requires forall j :: 0 <= j < |headers| ==> ',' !in Cells(row, headers)[j]
    ensures Split(CsvRecord(row, headers), ',') == Cells(row, headers)
  {
    SplitJoin(Cells(row, headers), ',');
  }

  // ------------------------------------------------------------- charts

  /** One pie slice. */
  datatype Slice = Slice(name: string, value: int)

  /** What the chart is drawn from: the rows themselves, or pie slices. */
  datatype ChartData = Rows(rows: seq<Row>) | Slices(slices: seq<Slice>)

  /** A key reads as a label when, lower-cased, it mentions a name, a
      category, a product or a customer. */
  predicate IsLabelKey(key: string) {
    var k := Lower(key);
    Contains(k, "name") || Contains(k, "category") || Contains(k, "product") || Contains(k, "customer")
  }

  /** The first label key from position `i` on. */
  function FindLabelKey(keys: seq<string>, i: nat): (r: Option<nat>)
    requires i <= |keys|
    ensures r.Some? ==> i <= r.value < |keys| && IsLabelKey(keys[r.value])
    ensures r.Some? ==> forall j :: i <= j < r.value ==> !IsLabelKey(keys[j])
    ensures r.None? ==> forall j :: i <= j < |keys| ==> !IsLabelKey(keys[j])
    decreases |keys| - i
  {
    if i == |keys| then None
    else if IsLabelKey(keys[i]) then Some(i)
    else FindLabelKey(keys, i + 1)
  }

  /** `keys[i]`, or the key "undefined" that indexing past the end reads. */
  function KeyAt(keys: seq<string>, i: nat): (k: string)
    ensures i < |keys| ==> k == keys[i]
    ensures i >= |keys| ==> k == "undefined"
  {
    if i < |keys| then keys[i] else "undefined"
  }

  /** The field the slice names come from: the first label key, else the
      first key. A label key is never empty, so it is never passed over. */
  function NameField(keys: seq<string>): (r: string)
    ensures forall k | 0 <= k < |keys| && IsLabelKey(keys[k]) ::
      (forall j | 0 <= j < k :: !IsLabelKey(keys[j])) ==> r == keys[k]
    ensures (forall j | 0 <= j < |keys| :: !IsLabelKey(keys[j])) ==> r == KeyAt(keys, 0)
  {
    match FindLabelKey(keys, 0)
    case Some(k) => keys[k]
    case None => KeyAt(keys, 0)
  }

  /** The first key, other than the name field, whose value in the first row
      is a number. */
  function FindNumberKey(first: Row, keys: seq<string>, name: string, i: nat): (r: Option<nat>)
    requires i <= |keys|
    ensures r.Some? ==> i <= r.value < |keys| && Get(first, keys[r.value]).Num? && keys[r.value] != name
    ensures r.Some? ==> forall j :: i <= j < r.value ==> !Get(first, keys[j]).Num? || keys[j] == name
    ensures r.None? ==> forall j :: i <= j < |keys| ==> !Get(first, keys[j]).Num? || keys[j] == name
    decreases |keys| - i
  {
    if i == |keys| then None
    else if Get(first, keys[i]).Num? && keys[i] != name then Some(i)
    else FindNumberKey(first, keys, name, i + 1)
  }

  /** The field the slice values come from. A key found but empty is falsy,
      so the second key is used instead, as when none is found. */
  function ValueField(first: Row, keys: seq<string>, name: string): (r: string)
    ensures forall k | 0 <= k < |keys| && Get(first, keys[k]).Num? && keys[k] != name ::
      (forall j | 0 <= j < k :: !Get(first, keys[j]).Num? || keys[j] == name) ==>
        r == if keys[k] != "" then keys[k] else KeyAt(keys, 1)
    ensures (forall j | 0 <= j < |keys| :: !Get(first, keys[j]).Num? || keys[j] == name) ==> r == KeyAt(keys, 1)
  {
    match FindNumberKey(first, keys, name, 0)
    case Some(k) =>
      FirstNumberKeyUnique(first, keys, name, k);
      if keys[k] != "" then keys[k] else KeyAt(keys, 1)
    case None => KeyAt(keys, 1)
  }

  /** The key `FindNumberKey` finds is the only numeric non-name key with none before it. */
  lemma FirstNumberKeyUnique(first: Row, keys: seq<string>, name: string, k: nat)
    requires FindNumberKey(first, keys, name, 0) == Some(k)
    ensures forall k' | 0 <= k' < |keys| && Get(first, keys[k']).Num? && keys[k'] != name ::
      (forall j | 0 <= j < k' :: !Get(first, keys[j]).Num? || keys[j] == name) ==> k' == k
  {
    forall k' | 0 <= k' < |keys| && Get(first, keys[k']).Num? && keys[k'] != name
      ensures (forall j | 0 <= j < k' :: !Get(first, keys[j]).Num? || keys[j] == name) ==> k' == k
    {
      if k < k' {
        assert Get(first, keys[k]).Num? && keys[k] != name;
      }
    }
  }

  /** `String(v || "Unknown")`. An empty array is truthy and renders as "",
      so a slice can still be named "". */
  function SliceName(v: JsValue): (r: string)
    ensures !Truthy(v) ==> r == "Unknown"
    ensures v.Str? && v.s != "" ==> r == v.s
    ensures v == Arr([]) ==> r == ""
  {
    if Truthy(v) then ToJsString(v) else "Unknown"
  }

  /** `Number(v) || 0`, with `number(s)` standing for `Number(s) || 0` on a
      string: booleans count as 1 and 0, `null`, `undefined` and objects as 0,
      arrays by their string form. */
  function SliceValue(v: JsValue, number: string -> int): (r: int)
    ensures v.Num? ==> r == v.n
    ensures v.Undefined? || v.Null? || v.Obj? ==> r == 0
    ensures v.Bool? ==> r == if v.b then 1 else 0
    ensures v.Str? ==> r == number(v.s)
  {
    match v
    case Num(n) => n
    case Bool(b) => if b then 1 else 0
    case Str(s) => number(s)
    case Arr(_) => number(ToJsString(v))
    case _ => 0
  }

  function SliceOf(item: Row, name: string, value: string, number: string -> int): Slice {
    Slice(SliceName(Get(item, name)), SliceValue(Get(item, value), number))
  }

  /** Pie charts get one slice per row, named and valued by the fields chosen
      from the first row; every other chart, and no rows at all, get the rows. */
  function PrepareChartData(results: seq<Row>, chartType: Option<ChartType>, number: string -> int): (r: ChartData)
    ensures r.Slices? <==> chartType == Some(Pie) && |results| > 0
    ensures r.Rows? ==> r.rows == results
    ensures r.Slices? ==> |r.slices| == |results|
    ensures r.Slices? ==>
      var keys := Keys(results[0]);
      var name := NameField(keys);
      forall i | 0 <= i < |results| :: r.slices[i] == SliceOf(results[i], name, ValueField(results[0], keys, name), number)
  {
    if |results| == 0 || chartType != Some(Pie) then Rows(results)
    else
      var keys := Keys(results[0]);
      var name := NameField(keys);
      var value := ValueField(results[0], keys, name);
      Slices(seq(|results|, i requires 0 <= i < |results| => SliceOf(results[i], name, value, number)))
  }

  /** With a label key among the first row's keys, every slice is named from
      the earliest one, row by row. */
  lemma PieSliceNames(results: seq<Row>, number: string -> int, k: nat, i: nat)
    requires |results| > 0 && i < |results|
    requires k < |Keys(results[0])| && IsLabelKey(Keys(results[0])[k])
    requires forall j :: 0 <= j < k ==> !IsLabelKey(Keys(results[0])[j])
    ensures PrepareChartData(results, Some(Pie), number).slices[i].name ==
      SliceName(Get(results[i], Keys(results[0])[k]))
  {
  }

  /** With a numeric key in the first row that is not empty, not a label and
      not the first key, and no numeric key before it, every slice takes its
      value from that key, row by row. */
  lemma PieSliceValues(results: seq<Row>, number: string -> int, k: nat, i: nat)
    requires |results| > 0 && i < |results|
    requires 0 < k < |results[0]|
    requires results[0][k].key != "" && results[0][k].key != results[0][0].key
    requires !IsLabelKey(results[0][k].key) && Get(results[0], results[0][k].key).Num?
    requires forall j :: 0 <= j < k ==> !Get(results[0], results[0][j].key).Num?
    ensures PrepareChartData(results, Some(Pie), number).slices[i].value ==
      SliceValue(Get(results[i], results[0][k].key), number)
  {
    var keys := Keys(results[0]);
    var name := NameField(keys);
    assert name != keys[k] by {
      var m := FindLabelKey(keys, 0);
      if m.Some? {
        assert IsLabelKey(keys[m.value]);
      }
    }
  }

  /** Without a label key, every slice is named from the first key. */
  lemma PieSliceNamesWithoutLabel(results: seq<Row>, number: string -> int, i: nat)
    requires |results| > 0 && i < |results|
    requires forall j :: 0 <= j < |results[0]| ==> !IsLabelKey(results[0][j].key)
    ensures PrepareChartData(results, Some(Pie), number).slices[i].name ==
      SliceName(Get(results[i], KeyAt(Keys(results[0]), 0)))
  {
  }

  /** Without a numeric value in the first row, every slice takes its value from
      the second key. */
  lemma PieSliceValuesWithoutNumber(results: seq<Row>, number: string -> int, i: nat)
    requires |results| > 0 && i < |results|
    requires forall j :: 0 <= j < |results[0]| ==> !Get(results[0], results[0][j].key).Num?
    ensures PrepareChartData(results, Some(Pie), number).slices[i].value ==
      SliceValue(Get(results[i], KeyAt(Keys(results[0]), 1)), number)
  {
  }

  /** A numeric column with the empty key is passed over for the second key. */
  lemma EmptyValueKeySkipped()
    ensures var first := [Field("", Num(5)), Field("label", Str("x"))];
      ValueField(first, Keys(first), "label") == "label"
  {
    var first := [Field("", Num(5)), Field("label", Str("x"))];
    assert Keys(first) == ["", "label"];
    assert FindNumberKey(first, Keys(first), "label", 0) == Some(0);
  }
}
