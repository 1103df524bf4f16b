/**
 * `generateFallbackQuery` of lib/gemini.ts: a decision table that picks a
 * canned SQL template from the keywords of the question and the names of the
 * tables that exist, used whenever the language model gives no usable query.
 */
module Fallback {
  import opened Wrappers
  import opened Text
  import opened SchemaPrompt

  /** The one error `generateFallbackQuery` throws. */
  datatype FallbackError = NoFallback

  function FallbackMessage(e: FallbackError): string {
    "No suitable fallback query could be generated"
  }

  // ------------------------------------------------------------ keyword groups

  const RevenueWords: seq<string> := ["revenue", "sales", "money", "income", "earnings", "profit"]
  const CustomerWords: seq<string> := ["customer", "client", "user", "buyer"]
  const ProductWords: seq<string> := ["product", "item", "inventory", "catalog"]
  const OrderWords: seq<string> := ["order", "purchase", "transaction"]
  const RecentWords: seq<string> := ["recent", "latest", "new", "today", "this month", "this week"]
  const TopWords: seq<string> := ["top", "best", "highest", "most"]

  // ----------------------------------------------------------------- templates

  /** The canned queries, by what they report. */
  datatype Template =
    | InvoiceRevenue | OrderRevenue | CustomerSpend | UserList | ProductSales | ProductList
    | OrderCustomer | OrderList | RecentOrders | RecentUsers | TopProducts | TopCustomers
    | AnyTable(table: string)

  /** The SQL text of each template. `AnyTable` is every row of the named table,
      newest id first, with the name spliced in as it is. */
  function TemplateSql(t: Template): string {
    match t
    case InvoiceRevenue => "SELECT DATE_TRUNC('month', paid_at) as month, SUM(amount) as revenue, COUNT(*) as paid_invoices FROM invoices WHERE paid_at IS NOT NULL AND paid_at >= CURRENT_DATE - INTERVAL '6 months' GROUP BY month ORDER BY month"
    case OrderRevenue => "SELECT DATE_TRUNC('month', created_at) as month, SUM(total_amount) as revenue, COUNT(*) as orders FROM orders WHERE created_at >= CURRENT_DATE - INTERVAL '6 months' GROUP BY month ORDER BY month"
    case CustomerSpend => "SELECT u.first_name || ' ' || u.last_name as customer_name, u.email, COUNT(o.id) as order_count, COALESCE(SUM(o.total_amount), 0) as total_spent FROM users u LEFT JOIN orders o ON u.id = o.user_id GROUP BY u.id, u.first_name, u.last_name, u.email ORDER BY total_spent DESC LIMIT 20"
    case UserList => "SELECT first_name, last_name, email, created_at FROM users ORDER BY created_at DESC LIMIT 20"
    case ProductSales => "SELECT p.name, p.category, p.price, COUNT(oi.id) as times_ordered, SUM(oi.quantity) as total_sold FROM products p LEFT JOIN order_items oi ON p.id = oi.product_id GROUP BY p.id, p.name, p.category, p.price ORDER BY total_sold DESC NULLS LAST LIMIT 20"
    case ProductList => "SELECT name, category, price, created_at FROM products ORDER BY created_at DESC LIMIT 20"
    case OrderCustomer => "SELECT o.id, u.first_name || ' ' || u.last_name as customer_name, o.total_amount, o.status, o.created_at FROM orders o JOIN users u ON o.user_id = u.id ORDER BY o.created_at DESC LIMIT 20"
    case OrderList => "SELECT id, user_id, total_amount, status, created_at FROM orders ORDER BY created_at DESC LIMIT 20"
    case RecentOrders => "SELECT id, user_id, total_amount, status, created_at FROM orders WHERE created_at >= CURRENT_DATE - INTERVAL '7 days' ORDER BY created_at DESC LIMIT 20"
    case RecentUsers => "SELECT first_name, last_name, email, created_at FROM users WHERE created_at >= CURRENT_DATE - INTERVAL '30 days' ORDER BY created_at DESC LIMIT 20"
    case TopProducts => "SELECT p.name, SUM(oi.quantity) as total_sold, SUM(oi.quantity * oi.price) as revenue FROM products p JOIN order_items oi ON p.id = oi.product_id GROUP BY p.id, p.name ORDER BY total_sold DESC LIMIT 10"
    case TopCustomers => "SELECT u.first_name || ' ' || u.last_name as customer_name, COUNT(o.id) as order_count, SUM(o.total_amount) as total_spent FROM users u JOIN orders o ON u.id = o.user_id GROUP BY u.id, u.first_name, u.last_name ORDER BY total_spent DESC LIMIT 10"
    case AnyTable(table) => "SELECT * FROM " + table + " ORDER BY id DESC LIMIT 10"
  }

  /** The tables each template reads. */
  function TemplateTables(t: Template): seq<string> {
    match t
    case InvoiceRevenue => ["invoices"]
    case OrderRevenue => ["orders"]
    case CustomerSpend => ["users", "orders"]
    case UserList => ["users"]
    case ProductSales => ["products", "order_items"]
    case ProductList => ["products"]
    case OrderCustomer => ["orders", "users"]
    case OrderList => ["orders"]
    case RecentOrders => ["orders"]
    case RecentUsers => ["users"]
    case TopProducts => ["products", "order_items"]
    case TopCustomers => ["users", "orders"]
    case AnyTable(table) => [table]
  }

  // ------------------------------------------------------------- the if-chain

  /** `generateFallbackQuery` on the lower-cased question and the table names.
      An empty first name is falsy, as a missing one would be. */
  function ChooseFallback(lower: string, names: seq<string>): (r: Result<Template, FallbackError>)
    ensures r.Ok? ==> forall t | t in TemplateTables(r.value) :: t in names
    ensures r.Err? <==>
      "orders" !in names && "users" !in names && "products" !in names
      && !(HasAnyWord(lower, RevenueWords) && "invoices" in names)
      && (|names| == 0 || names[0] == "")
  {
    if HasAnyWord(lower, RevenueWords) && "invoices" in names then Ok(InvoiceRevenue)
    else if HasAnyWord(lower, RevenueWords) && "orders" in names then Ok(OrderRevenue)
    else if HasAnyWord(lower, CustomerWords) && "users" in names && "orders" in names then Ok(CustomerSpend)
    else if HasAnyWord(lower, CustomerWords) && "users" in names then Ok(UserList)
    else if HasAnyWord(lower, ProductWords) && "products" in names && "order_items" in names then Ok(ProductSales)
    else if HasAnyWord(lower, ProductWords) && "products" in names then Ok(ProductList)
    else if HasAnyWord(lower, OrderWords) && "orders" in names && "users" in names then Ok(OrderCustomer)
    else if HasAnyWord(lower, OrderWords) && "orders" in names then Ok(OrderList)
    else if HasAnyWord(lower, RecentWords) && "orders" in names then Ok(RecentOrders)
    else if HasAnyWord(lower, RecentWords) && "users" in names then Ok(RecentUsers)
    else if HasAnyWord(lower, TopWords) && "products" in names && "order_items" in names then Ok(TopProducts)
    else if HasAnyWord(lower, TopWords) && "users" in names && "orders" in names then Ok(TopCustomers)
    else if "orders" in names then Ok(OrderList)
    else if "users" in names then Ok(UserList)
    else if "products" in names then Ok(ProductList)
    else if |names| > 0 && names[0] != "" then Ok(AnyTable(names[0]))
    else Err(NoFallback)
  }

  /** `generateFallbackQuery(question, schemas)`: the SQL of the chosen template. */
  function GenerateFallbackQuery(question: string, schemas: seq<TableSchema>): (r: Result<string, FallbackError>)
    ensures r.Err? <==>
      var names := TableNames(schemas);
      "orders" !in names && "users" !in names && "products" !in names
      && !(HasAnyWord(Lower(question), RevenueWords) && "invoices" in names)
      && (|schemas| == 0 || schemas[0].name == "")
    ensures r.Ok? ==>
      var c := ChooseFallback(Lower(question), TableNames(schemas));
      c.Ok? && r.value == TemplateSql(c.value)
      && forall n | n in TemplateTables(c.value) :: exists i | 0 <= i < |schemas| :: schemas[i].name == n
  {
    match ChooseFallback(Lower(question), TableNames(schemas))
    case Ok(t) => Ok(TemplateSql(t))
    case Err(e) => Err(e)
  }

  // ---------------------------------------------------- the table as data

  /** One row of the decision table: the keyword group that must match (none for
      the defaults), the tables that must exist, and the template. */
  datatype Rule = Rule(words: Option<seq<string>>, needs: seq<string>, template: Template)

  /** The decision table in the order the rows are tried. */
  const Rules: seq<Rule> := [
    Rule(Some(RevenueWords), ["invoices"], InvoiceRevenue),
    Rule(Some(RevenueWords), ["orders"], OrderRevenue),
    Rule(Some(CustomerWords), ["users", "orders"], CustomerSpend),
    Rule(Some(CustomerWords), ["users"], UserList),
    Rule(Some(ProductWords), ["products", "order_items"], ProductSales),
    Rule(Some(ProductWords), ["products"], ProductList),
    Rule(Some(OrderWords), ["orders", "users"], OrderCustomer),
    Rule(Some(OrderWords), ["orders"], OrderList),
    Rule(Some(RecentWords), ["orders"], RecentOrders),
    Rule(Some(RecentWords), ["users"], RecentUsers),
    Rule(Some(TopWords), ["products", "order_items"], TopProducts),
    Rule(Some(TopWords), ["users", "orders"], TopCustomers),
    Rule(None, ["orders"], OrderList),
    Rule(None, ["users"], UserList),
    Rule(None, ["products"], ProductList)
  ]

  /** A row applies when its group matches (or it has none) and all its tables exist. */
  predicate Applies(rule: Rule, lower: string, names: seq<string>) {
    (rule.words.None? || HasAnyWord(lower, rule.words.value))
    && forall t | t in rule.needs :: t in names
  }

  /** The template of the first row of `rules[i..]` that applies. */
  function FirstRule(rules: seq<Rule>, lower: string, names: seq<string>, i: nat): (r: Option<Template>)
    requires i <= |rules|
    decreases |rules| - i
  {
    if i == |rules| then None
    else if Applies(rules[i], lower, names) then Some(rules[i].template)
    else FirstRule(rules, lower, names, i + 1)
  }

  /** `FirstRule` finds the first applicable row: it answers exactly when some
      row of `rules[i..]` applies, and then with the template of the earliest one. */
  lemma {:induction false} FirstRuleSpec(rules: seq<Rule>, lower: string, names: seq<string>, i: nat)
    requires i <= |rules|
    ensures FirstRule(rules, lower, names, i).Some? <==> exists k | i <= k < |rules| :: Applies(rules[k], lower, names)
    ensures FirstRule(rules, lower, names, i).Some? ==>
      exists k | i <= k < |rules| :: Applies(rules[k], lower, names)
        && FirstRule(rules, lower, names, i).value == rules[k].template
        && forall j | i <= j < k :: !Applies(rules[j], lower, names)
    decreases |rules| - i
  {
    if i < |rules| && !Applies(rules[i], lower, names) {
      FirstRuleSpec(rules, lower, names, i + 1);
    }
  }

  /** The reference reading of the table: the first row that applies, else the
      first table, else the error. */
  function FallbackByTable(lower: string, names: seq<string>): Result<Template, FallbackError> {
    match FirstRule(Rules, lower, names, 0)
    case Some(t) => Ok(t)
    case None => if |names| > 0 && names[0] != "" then Ok(AnyTable(names[0])) else Err(NoFallback)
  }

  /** Rows 12-14 of the table: the defaults, by table alone. */
  lemma DefaultRows(lower: string, names: seq<string>)
    ensures FirstRule(Rules, lower, names, 12) ==
      if "orders" in names then Some(OrderList)
      else if "users" in names then Some(UserList)
      else if "products" in names then Some(ProductList)
      else None
  {
    assert FirstRule(Rules, lower, names, 14) == if "products" in names then Some(ProductList) else FirstRule(Rules, lower, names, 15);
    assert FirstRule(Rules, lower, names, 13) == if "users" in names then Some(UserList) else FirstRule(Rules, lower, names, 14);
    assert FirstRule(Rules, lower, names, 12) == if "orders" in names then Some(OrderList) else FirstRule(Rules, lower, names, 13);
    assert FirstRule(Rules, lower, names, 15) == None;
  }

  /** Rows 0-1 of the table: revenue questions. */
  lemma RevenueRows(lower: string, names: seq<string>)
    ensures FirstRule(Rules, lower, names, 0) ==
      var rev := HasAnyWord(lower, RevenueWords);
      if rev && "invoices" in names then Some(InvoiceRevenue)
      else if rev && "orders" in names then Some(OrderRevenue)
      else FirstRule(Rules, lower, names, 2)
  {
    var rev := HasAnyWord(lower, RevenueWords);
    assert FirstRule(Rules, lower, names, 1) == if rev && "orders" in names then Some(OrderRevenue) else FirstRule(Rules, lower, names, 2);
  }

  /** Rows 2-3 of the table: customer questions. */
  lemma CustomerRows(lower: string, names: seq<string>)
    ensures FirstRule(Rules, lower, names, 2) ==
      var cus := HasAnyWord(lower, CustomerWords);
      if cus && "users" in names && "orders" in names then Some(CustomerSpend)
      else if cus && "users" in names then Some(UserList)
      else FirstRule(Rules, lower, names, 4)
  {
    var cus := HasAnyWord(lower, CustomerWords);
    assert FirstRule(Rules, lower, names, 3) == if cus && "users" in names then Some(UserList) else FirstRule(Rules, lower, names, 4);
  }

  /** Rows 4-5 of the table: product questions. */
  lemma ProductRows(lower: string, names: seq<string>)
    ensures FirstRule(Rules, lower, names, 4) ==
      var pro := HasAnyWord(lower, ProductWords);
      if pro && "products" in names && "order_items" in names then Some(ProductSales)
      else if pro && "products" in names then Some(ProductList)
      else FirstRule(Rules, lower, names, 6)
  {
    var pro := HasAnyWord(lower, ProductWords);
    assert FirstRule(Rules, lower, names, 5) == if pro && "products" in names then Some(ProductList) else FirstRule(Rules, lower, names, 6);
  }

  /** Rows 6-7 of the table: order questions. */
  lemma OrderRows(lower: string, names: seq<string>)
    ensures FirstRule(Rules, lower, names, 6) ==
      var ord := HasAnyWord(lower, OrderWords);
      if ord && "orders" in names && "users" in names then Some(OrderCustomer)
      else if ord && "orders" in names then Some(OrderList)
      else FirstRule(Rules, lower, names, 8)
  {
    var ord := HasAnyWord(lower, OrderWords);
    assert FirstRule(Rules, lower, names, 7) == if ord && "orders" in names then Some(OrderList) else FirstRule(Rules, lower, names, 8);
  }

  /** Rows 8-9 of the table: recent activity. */
  lemma RecentRows(lower: string, names: seq<string>)
    ensures FirstRule(Rules, lower, names, 8) ==
      var rec := HasAnyWord(lower, RecentWords);
      if rec && "orders" in names then Some(RecentOrders)
      else if rec && "users" in names then Some(RecentUsers)
      else FirstRule(Rules, lower, names, 10)
  {
    var rec := HasAnyWord(lower, RecentWords);
    assert FirstRule(Rules, lower, names, 9) == if rec && "users" in names then Some(RecentUsers) else FirstRule(Rules, lower, names, 10);
  }

  /** Rows 10-11 of the table: top performers. */
  lemma TopRows(lower: string, names: seq<string>)
    ensures FirstRule(Rules, lower, names, 10) ==
      var top := HasAnyWord(lower, TopWords);
      if top && "products" in names && "order_items" in names then Some(TopProducts)
      else if top && "users" in names && "orders" in names then Some(TopCustomers)
      else FirstRule(Rules, lower, names, 12)
  {
    var top := HasAnyWord(lower, TopWords);
    assert FirstRule(Rules, lower, names, 11) == if top && "users" in names && "orders" in names then Some(TopCustomers) else FirstRule(Rules, lower, names, 12);
  }

  /** The if-chain and the decision table agree on every question and table list. */
  lemma ChooseIsFirstRule(lower: string, names: seq<string>)
    ensures ChooseFallback(lower, names) == FallbackByTable(lower, names)
  {
    DefaultRows(lower, names);
    TopRows(lower, names);
    RecentRows(lower, names);
    OrderRows(lower, names);
    ProductRows(lower, names);
    CustomerRows(lower, names);
    RevenueRows(lower, names);
  }

  /** A table list whose first name is non-empty always yields a query. */
  lemma FallbackWithFirstTable(lower: string, names: seq<string>)
    requires |names| > 0 && names[0] != ""
    ensures ChooseFallback(lower, names).Ok?
  {
  }

  /** A non-empty table list can still throw: one table with an empty name. */
  lemma FallbackEmptyName(lower: string)
    ensures ChooseFallback(lower, [""]) == Err(NoFallback)
  {
  }

  /** An empty first name does not stop the invoice rule: a revenue question
      over an invoice table gets the invoice revenue query. */
  lemma EmptyFirstNameWithInvoices()
    ensures ChooseFallback("revenue", ["", "invoices"]) == Ok(InvoiceRevenue)
  {
    assert WordAt("revenue", "revenue", 0);
    assert HasWord("revenue", RevenueWords[0]);
    assert "invoices" == ["", "invoices"][1];
  }

  /** Without orders, users, products or invoices, the first table's name is put
      into the query as it is, whatever it is. */
  lemma UnknownTableQueried(lower: string, names: seq<string>)
    requires |names| > 0 && names[0] != ""
    requires "orders" !in names && "users" !in names && "products" !in names && "invoices" !in names
    ensures ChooseFallback(lower, names) == Ok(AnyTable(names[0]))
  {
  }

  /** The last-resort query names the table at position 14, between spaces,
      exactly as it was given. */
  lemma AnyTableSplicesName(table: string)
    ensures var q := TemplateSql(AnyTable(table));
      |q| > 15 + |table| && q[13] == ' ' && q[14..14 + |table|] == table && q[14 + |table|] == ' '
  {
    var q := TemplateSql(AnyTable(table));
    assert q == "SELECT * FROM " + table + " ORDER BY id DESC LIMIT 10";
    assert q[14..14 + |table|] == table;
  }
}
