/**
 * `detectChartTypeFromQuestion` of lib/gemini.ts: a keyword classifier that
 * maps a question to one of four chart kinds, trying its word groups in a
 * fixed priority order on the lower-cased question.
 */
module ChartClassifier {
  import opened Wrappers
  import opened Text

  /** The four visualisations the application offers. */
  datatype ChartType = Line | Bar | Pie | Table

  /** The name the JSON reply and the UI use for each kind. */
  function ChartName(c: ChartType): string {
    match c
    case Line => "line"
    case Bar => "bar"
    case Pie => "pie"
    case Table => "table"
  }

  /** `['line', 'bar', 'pie', 'table'].includes(name)`, as the kind it names. */
  function ChartFromName(name: string): (r: Option<ChartType>)
    ensures r.Some? ==> ChartName(r.value) == name
    ensures (exists c :: ChartName(c) == name) ==> r.Some?
  {
    if name == "line" then Some(Line)
    else if name == "bar" then Some(Bar)
    else if name == "pie" then Some(Pie)
    else if name == "table" then Some(Table)
    else None
  }

  /** Names and kinds correspond one to one. */
  lemma ChartNameRoundTrip(c: ChartType)
    ensures ChartFromName(ChartName(c)) == Some(c)
  {
  }

  /** Words of time series: a line chart. */
  const TemporalWords: seq<string> :=
    ["trend", "over time", "monthly", "daily", "weekly", "yearly", "growth", "change", "timeline", "history", "progression"]

  /** Words of parts of a whole: a pie chart. */
  const DistributionWords: seq<string> :=
    ["distribution", "breakdown", "percentage", "share", "proportion", "split", "composition"]

  /** Words of comparison: a bar chart. */
  const RankingWords: seq<string> :=
    ["top", "best", "worst", "highest", "lowest", "most", "least", "compare", "comparison", "rank", "ranking", "vs"]

  /** Words of listing: a table. */
  const ListingWords: seq<string> :=
    ["show me", "list", "details", "recent", "latest", "all", "who are", "what are"]

  /** The alternative `category.*breakdown` inside `\b(...)\b`: "category" at a word
      start, then any characters but line terminators, then "breakdown" at a word end. */
  predicate CategoryBreakdownAt(s: string, i: int, j: int) {
    Boundary(s, i) && ContainsAt(s, "category", i) && i + 8 <= j
    && ContainsAt(s, "breakdown", j) && Boundary(s, j + 9)
    && (forall m | i + 8 <= m < j :: !IsLineTerminator(s[m]))
  }

  predicate HasCategoryBreakdown(s: string) {
    exists i, j | 0 <= i <= j <= |s| :: CategoryBreakdownAt(s, i, j)
  }

  /** The pie-chart pattern: a distribution word or a category breakdown. */
  predicate IsDistribution(lower: string) {
    HasAnyWord(lower, DistributionWords) || HasCategoryBreakdown(lower)
  }

  /** `detectChartTypeFromQuestion`: the groups are tried in the order line, pie,
      bar; a listing question and every other question get a table. */
  function DetectChartType(question: string): (r: ChartType)
    ensures r == Line <==> HasAnyWord(Lower(question), TemporalWords)
    ensures r == Pie <==> !HasAnyWord(Lower(question), TemporalWords) && IsDistribution(Lower(question))
    ensures r == Bar <==> !HasAnyWord(Lower(question), TemporalWords) && !IsDistribution(Lower(question))
                          && HasAnyWord(Lower(question), RankingWords)
  {
    var lower := Lower(question);
    if HasAnyWord(lower, TemporalWords) then Line
    else if IsDistribution(lower) then Pie
    else if HasAnyWord(lower, RankingWords) then Bar
    else if HasAnyWord(lower, ListingWords) then Table
    else Table
  }

  /** One row of the priority table: a word group, whether `category.*breakdown`
      also belongs to it, and the chart it selects. */
  datatype Rule = Rule(words: seq<string>, categoryBreakdown: bool, chart: ChartType)

  /** The classifier as a table, in priority order. */
  const Rules: seq<Rule> := [
    Rule(TemporalWords, false, Line),
    Rule(DistributionWords, true, Pie),
    Rule(RankingWords, false, Bar),
    Rule(ListingWords, false, Table)
  ]

  predicate RuleMatches(rule: Rule, lower: string) {
    HasAnyWord(lower, rule.words) || (rule.categoryBreakdown && HasCategoryBreakdown(lower))
  }

  /** The chart of the first rule of `rules[i..]` that matches, or a table. */
  function FirstMatch(rules: seq<Rule>, lower: string, i: nat): (c: ChartType)
    requires i <= |rules|
    ensures forall k | i <= k < |rules| && RuleMatches(rules[k], lower) ::
      (forall m | i <= m < k :: !RuleMatches(rules[m], lower)) ==> c == rules[k].chart
    ensures (forall k | i <= k < |rules| :: !RuleMatches(rules[k], lower)) ==> c == Table
    decreases |rules| - i
  {
    if i == |rules| then Table
    else if RuleMatches(rules[i], lower) then rules[i].chart
    else FirstMatch(rules, lower, i + 1)
  }

  /** The if-chain and the priority table agree on every question. */
  lemma DetectIsFirstMatch(question: string)
    ensures DetectChartType(question) == FirstMatch(Rules, Lower(question), 0)
  {
    var lower := Lower(question);
    assert RuleMatches(Rules[0], lower) == HasAnyWord(lower, TemporalWords);
    assert RuleMatches(Rules[1], lower) == IsDistribution(lower);
    assert RuleMatches(Rules[2], lower) == HasAnyWord(lower, RankingWords);
    assert Rules[3].chart == Table;
    assert FirstMatch(Rules, lower, 3) == Table;
    assert FirstMatch(Rules, lower, 2) == if HasAnyWord(lower, RankingWords) then Bar else Table;
    assert FirstMatch(Rules, lower, 1) == if IsDistribution(lower) then Pie else FirstMatch(Rules, lower, 2);
  }

  /** The classifier ignores ASCII case. */
  lemma DetectIgnoresCase(question: string)
    ensures DetectChartType(Lower(question)) == DetectChartType(question)
  {
    LowerIdempotent(question);
  }

  /** No "category ... breakdown" in a text that lacks one letter of "category". */
  lemma NoCategoryBreakdown(s: string, k: nat)
    requires k < 8 && "category"[k] !in s
    ensures !HasCategoryBreakdown(s)
  {
    forall i | 0 <= i <= |s| - 8
      ensures !ContainsAt(s, "category", i)
    {
      assert s[i..i + 8][k] == s[i + k];
      assert s[i + k] in s;
    }
  }

  /** "monthly revenue trend" asks for a line chart. */
  lemma MonthlyRevenueTrendIsLine()
    ensures DetectChartType("monthly revenue trend") == Line
  {
    var q := "monthly revenue trend";
    LowerOfLowercase(q);
    assert WordAt(q, "monthly", 0);
    assert "monthly" in TemporalWords;
  }

  /** "top 5 customers" asks for a bar chart. */
  lemma TopCustomersIsBar()
    ensures DetectChartType("top 5 customers") == Bar
  {
    var q := "top 5 customers";
    LowerOfLowercase(q);
    TopCustomersNoTemporalWord();
    TopCustomersNoDistribution();
    assert WordAt(q, "top", 0);
    assert "top" in RankingWords;
  }

  lemma TopCustomersNoTemporalWord()
    ensures !HasAnyWord("top 5 customers", TemporalWords)
  {
    NoneOfWords("top 5 customers", TemporalWords, [3, 1, 2, 0, 0, 0, 0, 1, 1, 0, 3]);
  }

  lemma TopCustomersNoDistribution()
    ensures !IsDistribution("top 5 customers")
  {
    NoneOfWords("top 5 customers", DistributionWords, [0, 0, 5, 1, 7, 2, 6]);
    NoCategoryBreakdown("top 5 customers", 1);
  }

  /** "market share" asks for a pie chart. */
  lemma MarketShareIsPie()
    ensures DetectChartType("market share") == Pie
  {
    var q := "market share";
    LowerOfLowercase(q);
    NoneOfWords(q, TemporalWords, [3, 0, 1, 0, 0, 0, 0, 0, 1, 1, 0]);
    assert WordAt(q, "share", 7);
    assert "share" in DistributionWords;
  }

  /** "show me orders", a listing question, gets a table. */
  lemma ShowOrdersIsTable()
    ensures DetectChartType("show me orders") == Table
  {
    LowerOfLowercase("show me orders");
    ShowOrdersNoTemporalWord();
    ShowOrdersNoDistribution();
    ShowOrdersNoRankingWord();
  }

  lemma ShowOrdersNoTemporalWord()
    ensures !HasAnyWord("show me orders", TemporalWords)
  {
    NoneOfWords("show me orders", TemporalWords, [0, 1, 2, 1, 3, 0, 0, 0, 0, 1, 0]);
  }

  lemma ShowOrdersNoDistribution()
    ensures !IsDistribution("show me orders")
  {
    NoneOfWords("show me orders", DistributionWords, [1, 0, 0, 2, 0, 1, 0]);
    NoCategoryBreakdown("show me orders", 1);
  }

  lemma ShowOrdersNoRankingWord()
    ensures !HasAnyWord("show me orders", RankingWords)
  {
    NoneOfWords("show me orders", RankingWords, [0, 0, 4, 1, 0, 3, 0, 0, 0, 1, 1, 0]);
  }
}
