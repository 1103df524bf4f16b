/**
 * The safety gate `cleanSQLQuery` of lib/gemini.ts: it normalises the SQL
 * text a language model produced and then rejects anything that is not a
 * plain SELECT. `CleanSql` states the outcome as a function; the method
 * `CleanSqlQuery` performs the same steps the way the TypeScript does,
 * reassigning one variable and looping over lines and over keywords.
 */
module SqlGuard {
  import opened Wrappers
  import opened Text

  /** The three errors `cleanSQLQuery` throws. `Dangerous` carries the keyword
      its message names ("create" for the CREATE check). */
  datatype SqlError = NotSelect | InvalidColumn | Dangerous(keyword: string)

  /** The `message` of each thrown `Error`. */
  function Message(e: SqlError): string {
    match e
    case NotSelect => "Only SELECT queries are allowed"
    case InvalidColumn => "Invalid column reference: o.order_id does not exist. Use o.id = i.order_id instead"
    case Dangerous(k) => "Dangerous operation \"" + k + "\" not allowed"
  }

  /** A `Dangerous` message names its keyword: different keywords give different messages. */
  lemma DangerousMessageNamesKeyword(k1: string, k2: string)
    requires Message(Dangerous(k1)) == Message(Dangerous(k2))
    ensures k1 == k2
  {
    var m := Message(Dangerous(k1));
    var p := "Dangerous operation \"";
    var q := "\" not allowed";
    assert k1 == m[|p|..|m| - |q|];
  }

  /** The keywords rejected as whole words, in the order they are tried. */
  const DangerousKeywords: seq<string> := ["drop", "delete", "insert", "update", "alter", "truncate"]

  /** The object kinds that may not follow `create`. */
  const CreateTargets: seq<string> := ["table", "database", "index", "view", "function", "procedure", "trigger"]

  // ------------------------------------------------------------ normalisation

  /** Remove the ```sql and ``` fences (each with one following line feed), then trim. */
  function StripSqlFences(s: string): (r: string)
    ensures IsTrimmed(r) && |r| <= |s|
  {
    var u := RemoveAllCI(RemoveAllCI(s, "```sql"), "```");
    TrimSpec(u);
    Trim(u)
  }

  /** A line that opens the query: trimmed and lower-cased, it starts with "select". */
  predicate IsSelectLine(line: string) {
    StartsWith(Lower(Trim(line)), "select")
  }

  /** The index of the first line of `lines[i..]` that opens the query, or the
      number of lines if none does. */
  function FirstSelectLine(lines: seq<string>, i: nat): (k: nat)
    requires i <= |lines|
    ensures i <= k <= |lines|
    ensures forall j {:trigger IsSelectLine(lines[j])} :: i <= j < k ==> !IsSelectLine(lines[j])
    ensures k < |lines| ==> IsSelectLine(lines[k])
    decreases |lines| - i
  {
    if i == |lines| then i
    else if IsSelectLine(lines[i]) then i
    else FirstSelectLine(lines, i + 1)
  }

  /** Keep the lines from the first one that opens the query onward, rejoin them, trim. */
  function DropPreamble(s: string): (r: string)
    ensures IsTrimmed(r)
  {
    var lines := Split(s, '\n');
    var u := Join(lines[FirstSelectLine(lines, 0)..], "\n");
    TrimSpec(u);
    Trim(u)
  }

  /** Remove one trailing ';' and trim again. */
  function StripSemicolon(s: string): (r: string)
    ensures !EndsWith(s, ";") ==> r == s
    ensures EndsWith(s, ";") ==> |r| < |s| && IsTrimmed(r)
    ensures IsTrimmed(s) ==> IsTrimmed(r)
  {
    if EndsWith(s, ";") then
      TrimSpec(s[..|s| - 1]);
      Trim(s[..|s| - 1])
    else s
  }

  /** `left\s*=\s*right` (ASCII case ignored) matches at `i`, with the '=' at `j`
      and `right` at `k`. */
  predicate JoinTypoShape(s: string, left: string, right: string, i: int, j: int, k: int) {
    0 <= i && i + |left| <= j < k <= |s| && ContainsAtCI(s, left, i)
    && (forall m | i + |left| <= m < j :: IsSpace(s[m])) && s[j] == '='
    && (forall m | j < m < k :: IsSpace(s[m])) && ContainsAtCI(s, right, k)
  }

  /** Some match of the join pattern starts at `i`. */
  predicate JoinTypoAt(s: string, left: string, right: string, i: int) {
    exists j, k | 0 <= j < k <= |s| :: JoinTypoShape(s, left, right, i, j, k)
  }

  /** A match has its '=' and its `right` at the first non-whitespace characters
      after `left` and after the '='. */
  lemma JoinTypoShapeSkipsSpaces(s: string, left: string, right: string, i: nat)
    requires |right| > 0 && !IsSpace(right[0])
    ensures forall j, k | JoinTypoShape(s, left, right, i, j, k) ::
      j == SkipSpaces(s, i + |left|) && k == SkipSpaces(s, j + 1)
  {
    forall j, k | JoinTypoShape(s, left, right, i, j, k)
      ensures j == SkipSpaces(s, i + |left|) && k == SkipSpaces(s, j + 1)
    {
      assert Lower(s[k..k + |right|])[0] == AsciiLower(s[k]) == right[0];
    }
  }

  /** The end of the match of `left\s*=\s*right` (ASCII case ignored) that starts
      at `i`; there is one exactly when the pattern matches there. */
  function JoinTypoEnd(s: string, left: string, right: string, i: nat): (e: Option<nat>)
    requires i <= |s| && |left| > 0 && |right| > 0 && !IsSpace(right[0])
    ensures e.Some? <==> JoinTypoAt(s, left, right, i)
    ensures e.Some? ==> exists j, k :: JoinTypoShape(s, left, right, i, j, k) && e.value == k + |right|
    ensures e.Some? ==> i + |left| < e.value <= |s|
  {
    JoinTypoShapeSkipsSpaces(s, left, right, i);
    if !ContainsAtCI(s, left, i) then None
    else
      var j := SkipSpaces(s, i + |left|);
      if j < |s| && s[j] == '=' then
        var k := SkipSpaces(s, j + 1);
        if ContainsAtCI(s, right, k) then
          assert JoinTypoShape(s, left, right, i, j, k);
          Some(k + |right|)
        else None
      else None
  }

  /** `s.replace(/left\s*=\s*right/gi, repl)` applied to `s[i..]`. */
  function ReplaceJoinTypo(s: string, left: string, right: string, repl: string, i: nat): (r: string)
    requires i <= |s| && |left| > 0 && |right| > 0 && !IsSpace(right[0])
    decreases |s| - i
  {
    if i == |s| then ""
    else match JoinTypoEnd(s, left, right, i)
      case Some(e) => repl + ReplaceJoinTypo(s, left, right, repl, e)
      case None =>
        assert s[i..] == [s[i]] + s[i + 1..];
        [s[i]] + ReplaceJoinTypo(s, left, right, repl, i + 1)
  }

  /** The two fixed join rewrites, in source order; a trimmed text stays trimmed. */
  function FixJoins(s: string): (r: string)
    ensures IsTrimmed(s) ==> IsTrimmed(r)
  {
    var t := ReplaceJoinTypo(s, "o.order_id", "o.id", "o.id = i.order_id", 0);
    var r := ReplaceJoinTypo(t, "orders.order_id", "orders.id", "orders.id = invoices.order_id", 0);
    ReplaceJoinTypoTrimmed(s, "o.order_id", "o.id", "o.id = i.order_id");
    ReplaceJoinTypoTrimmed(t, "orders.order_id", "orders.id", "orders.id = invoices.order_id");
    r
  }

  /** Where the pattern matches nowhere from `i` on, the rest of the text is unchanged. */
  lemma {:induction false} ReplaceJoinTypoNoMatch(s: string, left: string, right: string, repl: string, i: nat)
    requires i <= |s| && |left| > 0 && |right| > 0 && !IsSpace(right[0])
    ensures (forall p | i <= p < |s| :: !JoinTypoAt(s, left, right, p)) ==>
      ReplaceJoinTypo(s, left, right, repl, i) == s[i..]
    decreases |s| - i
  {
    if i < |s| {
      ReplaceJoinTypoNoMatch(s, left, right, repl, i + 1);
      if JoinTypoEnd(s, left, right, i).None? {
        assert s[i..] == [s[i]] + s[i + 1..];
      }
    }
  }

  /** A text where neither typo matches anywhere is left unchanged by the rewrites. */
  lemma FixJoinsNoMatch(s: string)
    requires forall p | 0 <= p < |s| :: !JoinTypoAt(s, "o.order_id", "o.id", p)
    requires forall p | 0 <= p < |s| :: !JoinTypoAt(s, "orders.order_id", "orders.id", p)
    ensures FixJoins(s) == s
  {
    ReplaceJoinTypoNoMatch(s, "o.order_id", "o.id", "o.id = i.order_id", 0);
    assert s[0..] == s;
    ReplaceJoinTypoNoMatch(s, "orders.order_id", "orders.id", "orders.id = invoices.order_id", 0);
  }

  /** A replacement without whitespace at its ends keeps a trimmed text trimmed. */
  lemma ReplaceJoinTypoTrimmed(s: string, left: string, right: string, repl: string)
    requires |left| > 0 && |right| > 0 && !IsSpace(right[0]) && IsTrimmed(repl) && repl != []
    ensures IsTrimmed(s) ==> IsTrimmed(ReplaceJoinTypo(s, left, right, repl, 0))
  {
    if s != [] {
      ReplaceJoinTypoFirst(s, left, right, repl, 0);
      ReplaceJoinTypoLast(s, left, right, repl, 0);
    }
  }

  /** The rewrite of a non-empty rest starts with the text's character there or
      with the replacement's first character. */
  lemma ReplaceJoinTypoFirst(s: string, left: string, right: string, repl: string, i: nat)
    requires i < |s| && |left| > 0 && |right| > 0 && !IsSpace(right[0]) && repl != []
    ensures var r := ReplaceJoinTypo(s, left, right, repl, i);
      r != [] && (r[0] == s[i] || r[0] == repl[0])
  {
  }

  /** The rewrite of a non-empty rest ends with the text's last character or
      with the replacement's last character. */
  lemma {:induction false} ReplaceJoinTypoLast(s: string, left: string, right: string, repl: string, i: nat)
    requires i < |s| && |left| > 0 && |right| > 0 && !IsSpace(right[0]) && repl != []
    ensures var r := ReplaceJoinTypo(s, left, right, repl, i);
      r != [] && (r[|r| - 1] == s[|s| - 1] || r[|r| - 1] == repl[|repl| - 1])
    decreases |s| - i
  {
    var m := JoinTypoEnd(s, left, right, i);
    var head := if m.Some? then repl else [s[i]];
    var e := if m.Some? then m.value else i + 1;
    var rest := ReplaceJoinTypo(s, left, right, repl, e);
    assert ReplaceJoinTypo(s, left, right, repl, i) == head + rest && i < e <= |s|;
    if e < |s| {
      ReplaceJoinTypoLast(s, left, right, repl, e);
      LastOfAppend(head, rest);
    } else {
      assert rest == [];
      assert head + rest == head;
      assert head[|head| - 1] == repl[|repl| - 1] || head[|head| - 1] == s[|s| - 1];
    }
  }

  /** Everything `cleanSQLQuery` does to a non-empty input before it validates it;
      what it hands on has no whitespace at either end. */
  function Normalize(s: string): (r: string)
    ensures IsTrimmed(r)
  {
    FixJoins(StripSemicolon(DropPreamble(StripSqlFences(s))))
  }

  // --------------------------------------------------------------- validation

  /** The index of the first keyword of `kws[i..]` that occurs in `lower` as a whole word,
      or `|kws|` if none does. */
  function FirstWordIndex(lower: string, kws: seq<string>, i: nat): (k: nat)
    requires i <= |kws|
    ensures i <= k <= |kws|
    ensures forall j :: i <= j < k ==> !HasWord(lower, kws[j])
    ensures k < |kws| ==> HasWord(lower, kws[k])
    decreases |kws| - i
  {
    if i == |kws| then i
    else if HasWord(lower, kws[i]) then i
    else FirstWordIndex(lower, kws, i + 1)
  }

  /** `create`, a whole-word start, one or more whitespace characters from `i + 6`
      up to `k`, and one of the object kinds at `k`. */
  predicate CreateAt(s: string, i: int, k: int) {
    Boundary(s, i) && ContainsAt(s, "create", i) && i + 6 < k <= |s|
    && (forall m | i + 6 <= m < k :: IsSpace(s[m]))
    && exists w | w in CreateTargets :: ContainsAt(s, w, k)
  }

  /** `/\bcreate\s+(table|database|index|view|function|procedure|trigger)/i.test(s)`. */
  predicate HasCreate(s: string) {
    exists i, k | 0 <= i < k <= |s| :: CreateAt(s, i, k)
  }

  /** What the checks let through: a query that starts with "select" (ASCII case
      ignored), never mentions `o.order_id`, has none of the dangerous keywords as
      a whole word and no CREATE of a schema object. */
  predicate IsSafeSelect(q: string) {
    var lower := Lower(q);
    StartsWith(lower, "select") && !Contains(lower, "o.order_id")
    && (forall kw | kw in DangerousKeywords :: !HasWord(lower, kw))
    && !HasCreate(lower)
  }

  /** The checks, in source order, on the normalised text. */
  function Validate(q: string): (r: Result<string, SqlError>)
    ensures r.Ok? <==> IsSafeSelect(q)
    ensures r.Ok? ==> r.value == q
    ensures r == Err(NotSelect) <==> !StartsWith(Lower(q), "select")
    ensures r == Err(InvalidColumn) <==> StartsWith(Lower(q), "select") && Contains(Lower(q), "o.order_id")
    ensures r.Err? && r.error.Dangerous? && r.error.keyword != "create" ==>
      exists k | 0 <= k < |DangerousKeywords| :: r.error.keyword == DangerousKeywords[k]
        && HasWord(Lower(q), DangerousKeywords[k])
        && forall j | 0 <= j < k :: !HasWord(Lower(q), DangerousKeywords[j])
    ensures r == Err(Dangerous("create")) ==>
      HasCreate(Lower(q)) && forall kw | kw in DangerousKeywords :: !HasWord(Lower(q), kw)
  {
    var lower := Lower(q);
    if !StartsWith(lower, "select") then Err(NotSelect)
    else if Contains(lower, "o.order_id") then Err(InvalidColumn)
    else
      var k := FirstWordIndex(lower, DangerousKeywords, 0);
      if k < |DangerousKeywords| then Err(Dangerous(DangerousKeywords[k]))
      else if HasCreate(lower) then Err(Dangerous("create"))
      else Ok(q)
  }

  /** The outcome of `cleanSQLQuery(s)`: the empty string is returned as it is. */
  function CleanSql(s: string): (r: Result<string, SqlError>)
    ensures r.Ok? ==> (r.value == "" <==> s == "")
    ensures r.Ok? && s != "" ==> r.value == Normalize(s) && IsSafeSelect(r.value)
  {
    if s == "" then Ok("") else Validate(Normalize(s))
  }

  /** The line loop of `cleanSQLQuery`: lines are kept from the first one that,
      trimmed and lower-cased, starts with "select". */
  method KeepQueryLines(lines: seq<string>) returns (sqlLines: seq<string>)
    ensures sqlLines == lines[FirstSelectLine(lines, 0)..]
  {
    sqlLines := [];
    var inQuery := false;
    ghost var first := FirstSelectLine(lines, 0);
    for i := 0 to |lines|
      invariant inQuery <==> first < i
      invariant sqlLines == if inQuery then lines[first..i] else []
    {
      var trimmedLine := Trim(lines[i]);
      assert IsSelectLine(lines[i]) == StartsWith(Lower(trimmedLine), "select");
      if StartsWith(Lower(trimmedLine), "select") {
        inQuery := true;
      }
      if inQuery {
        sqlLines := sqlLines + [lines[i]];
      }
    }
    assert lines[first..|lines|] == lines[first..];
  }

  /** The keyword loop of `cleanSQLQuery`: the position in `DangerousKeywords`
      of the first keyword found as a whole word, or `|DangerousKeywords|`. */
  method FindDangerous(lowerQuery: string) returns (k: nat)
    ensures k == FirstWordIndex(lowerQuery, DangerousKeywords, 0)
  {
    k := 0;
    while k < |DangerousKeywords|
      invariant k <= |DangerousKeywords|
      invariant FirstWordIndex(lowerQuery, DangerousKeywords, 0) >= k
    {
      if HasWord(lowerQuery, DangerousKeywords[k]) {
        return;
      }
      k := k + 1;
    }
  }

  /** `cleanSQLQuery`, step by step. */
  method CleanSqlQuery(input: string) returns (r: Result<string, SqlError>)
    ensures r == CleanSql(input)
  {
    if input == "" {
      return Ok("");
    }
    var sqlQuery := Trim(RemoveAllCI(RemoveAllCI(input, "```sql"), "```"));
    assert sqlQuery == StripSqlFences(input);

    var sqlLines := KeepQueryLines(Split(sqlQuery, '\n'));
    sqlQuery := Trim(Join(sqlLines, "\n"));
    ghost var preamble := sqlQuery;
    assert preamble == DropPreamble(StripSqlFences(input));

    if EndsWith(sqlQuery, ";") {
      sqlQuery := Trim(sqlQuery[..|sqlQuery| - 1]);
    }
    assert sqlQuery == StripSemicolon(preamble);

    sqlQuery := ReplaceJoinTypo(sqlQuery, "o.order_id", "o.id", "o.id = i.order_id", 0);
    sqlQuery := ReplaceJoinTypo(sqlQuery, "orders.order_id", "orders.id", "orders.id = invoices.order_id", 0);
    assert sqlQuery == Normalize(input);

    var lowerQuery := Lower(sqlQuery);
    if !StartsWith(lowerQuery, "select") {
      return Err(NotSelect);
    }
    if Contains(lowerQuery, "o.order_id") {
      return Err(InvalidColumn);
    }
    var k := FindDangerous(lowerQuery);
    if k < |DangerousKeywords| {
      return Err(Dangerous(DangerousKeywords[k]));
    }
    if HasCreate(lowerQuery) {
      return Err(Dangerous("create"));
    }
    return Ok(sqlQuery);
  }

  // --------------------------------------------------------------- properties

  /** Every line before the first one that opens the query is discarded, and
      everything from that line on is kept, trimmed. */
  lemma DropPreambleSkipsNotes(notes: seq<string>, q: string)
    requires |notes| > 0
    requires forall i :: 0 <= i < |notes| ==> '\n' !in notes[i] && !IsSelectLine(notes[i])
    requires IsSelectLine(Split(q, '\n')[0])
    ensures DropPreamble(Join(notes, "\n") + "\n" + q) == Trim(q)
  {
    var lines := Split(Join(notes, "\n") + "\n" + q, '\n');
    SplitAfterJoin(notes, q, '\n');
    assert lines == notes + Split(q, '\n');
    assert lines[|notes|] == Split(q, '\n')[0];
    var k := FirstSelectLine(lines, 0);
    assert forall j :: 0 <= j < |notes| ==> !IsSelectLine(lines[j]);
    assert k == |notes|;
    assert lines[k..] == Split(q, '\n');
    JoinSplit(q, '\n');
  }

  /** When no line opens the query, nothing is kept and the input is rejected as not a SELECT. */
  lemma NoSelectLineRejected(s: string)
    requires s != ""
    requires forall line | line in Split(StripSqlFences(s), '\n') :: !IsSelectLine(line)
    ensures DropPreamble(StripSqlFences(s)) == ""
    ensures CleanSql(s) == Err(NotSelect)
  {
    var lines := Split(StripSqlFences(s), '\n');
    var k := FirstSelectLine(lines, 0);
    assert forall j :: 0 <= j < |lines| ==> !IsSelectLine(lines[j]);
    assert k == |lines|;
    assert Join(lines[k..], "\n") == "";
    assert TrimLeft("") == "";
    assert StripSemicolon("") == "";
    assert FixJoins("") == "";
  }

  /** The join rewrite leaves a text alone when it lacks the first character of the pattern. */
  lemma {:induction false} ReplaceJoinTypoAbsent(s: string, left: string, right: string, repl: string, i: nat)
    requires i <= |s| && |left| > 0 && |right| > 0 && !IsSpace(right[0])
    requires left[0] !in Lower(s)
    ensures ReplaceJoinTypo(s, left, right, repl, i) == s[i..]
    decreases |s| - i
  {
    if i < |s| {
      assert !ContainsAtCI(s, left, i) by {
        if i + |left| <= |s| {
          assert Lower(s[i..i + |left|])[0] == Lower(s)[i];
        }
      }
      ReplaceJoinTypoAbsent(s, left, right, repl, i + 1);
      assert s[i..] == [s[i]] + s[i + 1..];
    }
  }

  /** A text without an 'r' has no CREATE of a schema object. */
  lemma NoCreateWithoutR(s: string)
    requires 'r' !in s
    ensures !HasCreate(s)
  {
    forall i | 0 <= i <= |s| - 6 ensures !ContainsAt(s, "create", i) {
      assert s[i + 1] in s;
      assert s[i..i + 6][1] == s[i + 1];
      assert "create"[1] == 'r';
    }
  }

  /** "created_at" is not the start of a CREATE: the 'd' after "create" is no whitespace. */
  lemma CreatedAtIsNotCreate(s: string, i: nat, k: int)
    requires ContainsAt(s, "created_at", i)
    ensures !CreateAt(s, i, k)
  {
    assert s[i + 6] == 'd';
  }

  /** "updated_at" does not contain the whole word "update". */
  lemma UpdatedAtIsNotUpdate(s: string, i: nat)
    requires ContainsAt(s, "updated_at", i)
    ensures !WordAt(s, "update", i)
  {
    assert s[i..i + 6] == s[i..i + 10][..6];
    assert "updated_at"[..6] == "update";
    GluedWordIsNotWord(s, "update", i);
  }

  /** A single trimmed line without fences goes through normalisation with only
      its trailing ';' removed, when it has no 'o' for the join rewrites to start on. */
  lemma NormalizeOneLine(s: string)
    requires s != "" && IsTrimmed(s)
    requires '`' !in Lower(s) && '\n' !in s
    requires StartsWith(Lower(s), "select")
    requires 'o' !in Lower(StripSemicolon(s))
    ensures Normalize(s) == StripSemicolon(s)
  {
    RemoveAllCIAbsent(s, "```sql");
    RemoveAllCIAbsent(s, "```");
    TrimOfTrimmed(s);
    assert StripSqlFences(s) == s;
    SplitWithoutSeparator(s, '\n');
    assert IsSelectLine(s);
    assert DropPreamble(s) == s;
    FixJoinsWithoutO(StripSemicolon(s));
  }

  /** The join rewrites leave a text without an 'o' alone. */
  lemma FixJoinsWithoutO(t: string)
    requires 'o' !in Lower(t)
    ensures FixJoins(t) == t
  {
    ReplaceJoinTypoAbsent(t, "o.order_id", "o.id", "o.id = i.order_id", 0);
    ReplaceJoinTypoAbsent(t, "orders.order_id", "orders.id", "orders.id = invoices.order_id", 0);
  }

  /** Backticks have no case: only "```" lower-cases to "```". */
  lemma BackticksHaveNoCase(x: string)
    ensures Lower(x) == "```" ==> x == "```"
  {
    if |x| == 3 {
      assert Lower(x)[0] == AsciiLower(x[0]) && Lower(x)[1] == AsciiLower(x[1]) && Lower(x)[2] == AsciiLower(x[2]);
    }
  }

  /** A trimmed text without a run of three backticks has no fences to strip. */
  lemma StripSqlFencesNoFence(q: string)
    requires IsTrimmed(q)
    requires forall i | 0 <= i < |q| :: !ContainsAt(q, "```", i)
    ensures StripSqlFences(q) == q
  {
    forall i | 0 <= i < |q|
      ensures !ContainsAtCI(q, "```sql", i) && !ContainsAtCI(q, "```", i)
    {
      if i + 3 <= |q| {
        assert !ContainsAt(q, "```", i);
        BackticksHaveNoCase(q[i..i + 3]);
        assert "```sql"[..3] == "```";
        if i + 6 <= |q| {
          assert q[i..i + 6][..3] == q[i..i + 3];
          assert Lower(q[i..i + 6])[..3] == Lower(q[i..i + 3]);
        }
      }
    }
    RemoveAllCINoMatch(q, "```sql");
    RemoveAllCINoMatch(q, "```");
    TrimOfTrimmed(q);
  }

  /** A query fenced as a ```sql block loses both fences and nothing else. */
  lemma StripSqlFencesOfFenced(q: string)
    requires IsTrimmed(q)
    requires forall i | 0 <= i < |q| :: !ContainsAt(q, "```", i)
    ensures StripSqlFences("```sql\n" + q + "\n```") == q
  {
    RemoveFencePair(q, "sql");
    assert "```" + "sql" == "```sql";
    assert "```" + "sql" + "\n" == "```sql\n";
  }

  /** The first line of a text that starts with "select" opens the query. */
  lemma FirstLineOfSelect(q: string)
    requires StartsWith(Lower(q), "select")
    ensures IsSelectLine(Split(q, '\n')[0])
  {
    var l := Split(q, '\n')[0];
    SplitFirst(q, '\n');
    forall m | 0 <= m < 6
      ensures q[m] != '\n' && Lower(q)[m] == AsciiLower(q[m]) == "select"[m]
    {
      assert Lower(q)[..6][m] == Lower(q)[m];
      assert m == 0 || m == 1 || m == 2 || m == 3 || m == 4 || m == 5;
    }
    assert |l| >= 6;
    assert l[0] == q[0] && l[5] == q[5];
    TrimKeepsPrefix(l, 6);
    var t := Trim(l);
    assert t[..6] == l[..6] == q[..6];
    LowerSlice(q, 0, 6);
    LowerSlice(t, 0, 6);
  }

  /** A trimmed text whose first line opens the query keeps all its lines. */
  lemma DropPreambleOfSelect(q: string)
    requires IsTrimmed(q) && StartsWith(Lower(q), "select")
    ensures DropPreamble(q) == q
  {
    var lines := Split(q, '\n');
    FirstLineOfSelect(q);
    assert FirstSelectLine(lines, 0) == 0;
    assert lines[0..] == lines;
    JoinSplit(q, '\n');
    TrimOfTrimmed(q);
  }

  /** A safe query has no `o.order_id` for the first join rewrite to start on. */
  lemma SafeSelectHasNoOrderIdJoin(q: string, p: int)
    requires IsSafeSelect(q)
    ensures !JoinTypoAt(q, "o.order_id", "o.id", p)
  {
    if 0 <= p && p + 10 <= |q| {
      LowerSlice(q, p, p + 10);
      assert !ContainsAt(Lower(q), "o.order_id", p);
    }
  }

  /** A query that is already clean comes out of the cleaning unchanged: trimmed,
      without fences, not ending in ';', without a match of the
      `orders.order_id = orders.id` rewrite, and passing the checks. */
  lemma CleanSafeSelectUnchanged(q: string)
    requires IsTrimmed(q) && IsSafeSelect(q) && !EndsWith(q, ";")
    requires forall i | 0 <= i < |q| :: !ContainsAt(q, "```", i)
    requires forall p | 0 <= p < |q| :: !JoinTypoAt(q, "orders.order_id", "orders.id", p)
    ensures CleanSql(q) == Ok(q)
  {
    StripSqlFencesNoFence(q);
    DropPreambleOfSelect(q);
    forall p | 0 <= p < |q|
      ensures !JoinTypoAt(q, "o.order_id", "o.id", p)
    {
      SafeSelectHasNoOrderIdJoin(q, p);
    }
    FixJoinsNoMatch(q);
    assert Normalize(q) == q;
  }

  /** The typo the rewrite exists for, `o.order_id = o.id`, becomes the join
      `o.id = i.order_id`, which the second rewrite then leaves alone. */
  lemma OrderIdJoinRewritten()
    ensures FixJoins("o.order_id = o.id") == "o.id = i.order_id"
  {
    var s := "o.order_id = o.id";
    var t := "o.id = i.order_id";
    OrderIdTypoMatches();
    assert ReplaceJoinTypo(s, "o.order_id", "o.id", t, 17) == "";
    assert ReplaceJoinTypo(s, "o.order_id", "o.id", t, 0) == t;
    CorrectedJoinHasNoOrdersTypo();
    ReplaceJoinTypoNoMatch(t, "orders.order_id", "orders.id", "orders.id = invoices.order_id", 0);
    assert ReplaceJoinTypo(t, "orders.order_id", "orders.id", "orders.id = invoices.order_id", 0) == t[0..];
  }

  lemma OrderIdTypoMatches()
    ensures JoinTypoEnd("o.order_id = o.id", "o.order_id", "o.id", 0) == Some(17)
  {
    var s := "o.order_id = o.id";
    LowerOfLowercase(s[0..10]);
    LowerOfLowercase(s[13..17]);
    assert SkipSpaces(s, 10) == 11;
    assert SkipSpaces(s, 12) == 13;
  }

  lemma CorrectedJoinHasNoOrdersTypo()
    ensures forall p | 0 <= p < 17 :: !JoinTypoAt("o.id = i.order_id", "orders.order_id", "orders.id", p)
  {
    var t := "o.id = i.order_id";
    forall p | 0 <= p < |t|
      ensures !JoinTypoAt(t, "orders.order_id", "orders.id", p)
    {
      if p + 15 <= |t| {
        assert Lower(t[p..p + 15])[1] == AsciiLower(t[p + 1]);
        assert p == 0 || p == 1 || p == 2;
      }
    }
  }

  /** A SELECT without the letters that every rejected word needs is accepted. */
  lemma PlainSelectIsSafe(q: string)
    requires StartsWith(Lower(q), "select")
    requires var lower := Lower(q);
      'd' !in lower && 'i' !in lower && 'u' !in lower && 'a' !in lower && 'r' !in lower && 'o' !in lower
    ensures IsSafeSelect(q)
  {
    var lower := Lower(q);
    AbsentCharNotContained(lower, "o.order_id", 0);
    AbsentCharNoWord(lower, "drop", 0);
    AbsentCharNoWord(lower, "delete", 0);
    AbsentCharNoWord(lower, "insert", 0);
    AbsentCharNoWord(lower, "update", 0);
    AbsentCharNoWord(lower, "alter", 0);
    AbsentCharNoWord(lower, "truncate", 1);
    NoCreateWithoutR(lower);
  }

  /** One trailing ';' is removed from a trimmed text followed by ';'. */
  lemma StripSemicolonAppended(q: string)
    requires IsTrimmed(q)
    ensures StripSemicolon(q + ";") == q
  {
    var s := q + ";";
    assert s[|s| - 1..] == ";";
    assert s[..|s| - 1] == q;
    TrimOfTrimmed(q);
  }

  /** A plain one-line SELECT: trimmed, without fences or line feeds, and
      without the letters every rejected word needs. */
  predicate IsPlainSelect(q: string) {
    var lower := Lower(q);
    IsTrimmed(q) && '`' !in lower && '\n' !in q && StartsWith(lower, "select")
    && 'd' !in lower && 'i' !in lower && 'u' !in lower && 'a' !in lower && 'r' !in lower && 'o' !in lower
  }

  /** A plain SELECT followed by ';' normalises to the SELECT. */
  lemma NormalizePlainSelect(q: string)
    requires IsPlainSelect(q)
    ensures Normalize(q + ";") == q
  {
    LowerAppend(q, ";");
    assert Lower(";") == ";";
    StripSemicolonAppended(q);
    StartsWithAppend(Lower(q), ";", "select");
    NormalizeOneLine(q + ";");
  }

  /** A plain SELECT followed by ';' is cleaned to the SELECT. */
  lemma CleanPlainSelect(q: string)
    requires IsPlainSelect(q)
    ensures CleanSql(q + ";") == Ok(q)
  {
    NormalizePlainSelect(q);
    PlainSelectIsSafe(q);
  }

  /** Cleaning removes exactly one trailing ';' per pass, so it is not idempotent:
      for a plain one-line SELECT `q`, `q;;` cleans to `q;`, which cleans to `q`. */
  lemma CleanSqlNotIdempotent(q: string)
    requires IsPlainSelect(q)
    ensures CleanSql(q + ";" + ";") == Ok(q + ";")
    ensures CleanSql(CleanSql(q + ";" + ";").value) == Ok(q)
  {
    PlainSelectWithSemicolon(q);
    CleanPlainSelect(q + ";");
    CleanPlainSelect(q);
  }

  /** A plain SELECT with a ';' appended is still a plain SELECT. */
  lemma PlainSelectWithSemicolon(q: string)
    requires IsPlainSelect(q)
    ensures IsPlainSelect(q + ";")
  {
    LowerAppend(q, ";");
    assert Lower(";") == ";";
    StartsWithAppend(Lower(q), ";", "select");
  }
}
