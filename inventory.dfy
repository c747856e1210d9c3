/** The in-memory `products` table and the `get_product_stock` lookup
    (server.js:12-25, 40-47): a table seeded once with four products, then
    queried read-only by `SELECT name, stock FROM products WHERE name LIKE
    '%<query>%'`, whose first row is rendered as the tool's reply. */
module Inventory {
  import opened Wrappers
  import opened SqlLike

  /** A row of `products`: an AUTOINCREMENT id, a UNIQUE name, a stock count. */
  datatype Record = Record(id: nat, name: string, stock: nat)

  /** The row `db.get` hands to its callback: only the selected columns. */
  datatype Row = Row(name: string, stock: nat)

  const NotFound: string := "المنتج غير موجود في المخزون."

  // ---------------------------------------------------------------------------
  // Seeding (server.js:13-25)
  // ---------------------------------------------------------------------------

  predicate HasName(table: seq<Record>, name: string) {
    exists i :: 0 <= i < |table| && table[i].name == name
  }

  predicate UniqueNames(table: seq<Record>) {
    forall i, j :: 0 <= i < j < |table| ==> table[i].name != table[j].name
  }

  /** Ids strictly increase in table (rowid) order. */
  predicate IdsIncreasing(table: seq<Record>) {
    forall i, j :: 0 <= i < j < |table| ==> table[i].id < table[j].id
  }

  /** The id AUTOINCREMENT gives the next row: one more than the largest id. */
  function NextId(table: seq<Record>): (r: nat)
    requires IdsIncreasing(table)
    ensures forall i :: 0 <= i < |table| ==> table[i].id < r
    ensures table == [] ==> r == 1
  {
    if table == [] then 1 else table[|table| - 1].id + 1
  }

  /** `INSERT OR IGNORE INTO products (name, stock) VALUES (?, ?)`: a name
      already present violates UNIQUE and the row is silently dropped. */
  function InsertOrIgnore(table: seq<Record>, name: string, stock: nat): (r: seq<Record>)
    requires IdsIncreasing(table)
    ensures IdsIncreasing(r)
    ensures UniqueNames(table) ==> UniqueNames(r)
    ensures HasName(table, name) ==> r == table
    ensures !HasName(table, name) ==> r == table + [Record(NextId(table), name, stock)]
  {
    if HasName(table, name) then table else table + [Record(NextId(table), name, stock)]
  }

  /** The four `stmt.run` calls of the seeding block, in order. */
  const SeedRows: seq<Row> := [
    Row("iPhone 15", 12),
    Row("MacBook Pro 16", 5),
    Row("AirPods Pro", 25),
    Row("Galaxy S24", 8)
  ]

  function SeedAll(table: seq<Record>, rows: seq<Row>): (r: seq<Record>)
    requires IdsIncreasing(table)
    ensures IdsIncreasing(r)
    ensures UniqueNames(table) ==> UniqueNames(r)
    decreases |rows|
  {
    if rows == [] then table
    else SeedAll(InsertOrIgnore(table, rows[0].name, rows[0].stock), rows[1..])
  }

  /** The table as it stands once seeding has finished; nothing writes it
      again. `SeedingYieldsProducts` shows that the seeding block produces it. */
  const Products: seq<Record> := [
    Record(1, "iPhone 15", 12),
    Record(2, "MacBook Pro 16", 5),
    Record(3, "AirPods Pro", 25),
    Record(4, "Galaxy S24", 8)
  ]

  /** Seeding an empty table with the four rows yields exactly `Products`:
      ids 1 to 4 in insertion order, names unique. */
  lemma SeedingYieldsProducts()
    ensures SeedAll([], SeedRows) == Products
    ensures UniqueNames(Products) && IdsIncreasing(Products)
  {
    var t1 := Products[..1];
    var t2 := Products[..2];
    var t3 := Products[..3];
    assert InsertOrIgnore([], "iPhone 15", 12) == t1;
    assert InsertOrIgnore(t1, "MacBook Pro 16", 5) == t2 by {
      assert !HasName(t1, "MacBook Pro 16");
    }
    assert InsertOrIgnore(t2, "AirPods Pro", 25) == t3 by {
      assert !HasName(t2, "AirPods Pro");
    }
    assert InsertOrIgnore(t3, "Galaxy S24", 8) == Products by {
      assert !HasName(t3, "Galaxy S24");
    }
    assert SeedRows[1..][1..][1..][1..] == [];
  }

  // ---------------------------------------------------------------------------
  // The query (server.js:42)
  // ---------------------------------------------------------------------------

  /** The `LIKE` pattern the lookup binds: the query wrapped in `%`. */
  function Pattern(query: string): string {
    "%" + query + "%"
  }

  /** Index of the first row in rowid order whose name matches `pattern`. */
  function FirstMatch(table: seq<Record>, pattern: string): (r: Option<nat>)
    ensures r.Some? ==> r.value < |table| && Like(pattern, table[r.value].name)
    ensures r.Some? ==> forall j :: 0 <= j < r.value ==> !Like(pattern, table[j].name)
    ensures r.None? ==> forall j :: 0 <= j < |table| ==> !Like(pattern, table[j].name)
  {
    if table == [] then None
    else if Like(pattern, table[0].name) then Some(0)
    else match FirstMatch(table[1..], pattern)
      case None => None
      case Some(k) => Some(k + 1)
  }

  /** `db.get(sql, [pattern], cb)`: the first result row, or no row. */
  function Select(table: seq<Record>, query: string): (r: Option<Row>)
    ensures r.Some? <==> exists j :: 0 <= j < |table| && Like(Pattern(query), table[j].name)
    ensures r.Some? ==>
      exists k :: 0 <= k < |table| && Like(Pattern(query), table[k].name) &&
        (forall j :: 0 <= j < k ==> !Like(Pattern(query), table[j].name)) &&
        r.value == Row(table[k].name, table[k].stock)
  {
    match FirstMatch(table, Pattern(query))
    case None => None
    case Some(k) => Some(Row(table[k].name, table[k].stock))
  }

  // ---------------------------------------------------------------------------
  // Rendering the reply (server.js:43-44)
  // ---------------------------------------------------------------------------

  function DigitChar(d: nat): (c: char)
    requires d < 10
    ensures '0' <= c <= '9'
  {
    ('0' as int + d) as char
  }

  predicate IsDigits(s: string) {
    forall i :: 0 <= i < |s| ==> '0' <= s[i] <= '9'
  }

  /** JavaScript's decimal rendering of a non-negative integer (`${n}`), which
      is plain digits for every integer below 10^21. */
  function Decimal(n: nat): (r: string)
    ensures |r| >= 1 && IsDigits(r)
    ensures |r| > 1 ==> r[0] != '0'
  {
    if n < 10 then [DigitChar(n)] else Decimal(n / 10) + [DigitChar(n % 10)]
  }

  /** Reads a string of decimal digits back as a number. */
  function ParseDecimal(s: string): nat
    requires IsDigits(s)
  {
    if s == [] then 0
    else ParseDecimal(s[..|s| - 1]) * 10 + (s[|s| - 1] as int - '0' as int)
  }

  /** `Decimal` loses nothing: the stock can be read back from the reply. */
  lemma {:induction false} DecimalRoundTrip(n: nat)
    ensures ParseDecimal(Decimal(n)) == n
  {
    if n >= 10 {
      DecimalRoundTrip(n / 10);
      var d := Decimal(n);
      assert d[..|d| - 1] == Decimal(n / 10);
    }
  }

  /** The plain pieces of the found-reply template, between its `**` markers. */
  const Lead: string := "المنتج: "
  const Bar: string := " | المخزون: "
  const Unit: string := " وحدة"

  const NamePrefix: string := Lead + "**"
  const StockPrefix: string := "**" + Bar + "**"
  const StockSuffix: string := Unit + "**"

  /** The found-reply template `المنتج: **name** | المخزون: **stock وحدة**`. */
  function Format(row: Row): string {
    NamePrefix + row.name + StockPrefix + Decimal(row.stock) + StockSuffix
  }

  /** The `db.get` callback: an error or a missing row both resolve to the
      not-found text, so the tool never rejects. */
  function Resolve(err: bool, row: Option<Row>): (r: string)
    ensures err || row.None? ==> r == NotFound
    ensures !err && row.Some? ==> r == Format(row.value)
    ensures r == NotFound <==> err || row.None?
  {
    if err || row.None? then NotFound
    else FormatNotNotFound(row.value); Format(row.value)
  }

  /** `get_product_stock.func(query)` against the seeded table. The query
      reports an error exactly when its pattern is too long for `LIKE`. */
  function Lookup(query: string): string {
    Resolve(PatternTooComplex(Pattern(query)), Select(Products, query))
  }

  // ---------------------------------------------------------------------------
  // Properties of the lookup
  // ---------------------------------------------------------------------------

  /** The reply names the first matching product and its stock when some
      product matches, and is the not-found text otherwise. */
  lemma LookupCases(query: string)
    ensures PatternTooComplex(Pattern(query)) ==> Lookup(query) == NotFound
    ensures !PatternTooComplex(Pattern(query)) ==> var t := Products;
      match FirstMatch(t, Pattern(query))
      case Some(k) => Lookup(query) == Format(Row(t[k].name, t[k].stock))
      case None => Lookup(query) == NotFound
  {
  }

  /** The reply is the not-found text exactly when the pattern is too long
      for `LIKE` or no product's name matches. */
  lemma LookupNotFound(query: string)
    ensures Lookup(query) == NotFound <==>
      PatternTooComplex(Pattern(query)) ||
      forall j :: 0 <= j < |Products| ==> !Like(Pattern(query), Products[j].name)
  {
    var err, row := PatternTooComplex(Pattern(query)), Select(Products, query);
    assert Lookup(query) == NotFound <==> err || row.None?;
  }

  /** A query of more than 49998 characters always gets the not-found text,
      whatever it would match: its pattern is too long for `LIKE`. */
  lemma LongQueryNotFound(query: string)
    requires |query| > LikePatternLimit - 2
    ensures Lookup(query) == NotFound
  {
    assert PatternTooComplex(Pattern(query));
  }

  /** A query of at most 12498 characters never makes `LIKE` fail, since a
      character takes at most four bytes. */
  lemma ShortQueryNoError(query: string)
    requires |query| <= LikePatternLimit / 4 - 2
    ensures !PatternTooComplex(Pattern(query))
  {
  }

  /** A found reply embeds the row's name and its decimal stock. */
  lemma FormatContains(row: Row)
    ensures OccursAt(Format(row), row.name, |NamePrefix|)
    ensures OccursAt(Format(row), Decimal(row.stock), |NamePrefix| + |row.name| + |StockPrefix|)
    ensures Contains(Format(row), row.name) && Contains(Format(row), Decimal(row.stock))
  {
    var f := Format(row);
    var a := |NamePrefix|;
    var b := a + |row.name| + |StockPrefix|;
    assert f[a..a + |row.name|] == row.name;
    assert f[b..b + |Decimal(row.stock)|] == Decimal(row.stock);
    assert 0 <= a <= |f| && OccursAt(f, row.name, a);
    assert 0 <= b <= |f| && OccursAt(f, Decimal(row.stock), b);
  }

  /** A found reply is never the not-found text. */
  lemma FormatNotNotFound(row: Row)
    ensures Format(row) != NotFound
  {
    var f := Format(row);
    assert f[|NamePrefix| - 1] == '*';
    assert '*' !in NotFound;
  }

  /** For a query free of `%` and `_`, a product matches exactly when the query
      is a substring of its name, ASCII case ignored. */
  lemma LookupSubstring(query: string)
    requires IsLiteral(query)
    ensures forall j :: 0 <= j < |Products| ==>
      (Like(Pattern(query), Products[j].name) <==> Contains(FoldStr(Products[j].name), FoldStr(query)))
  {
    forall j | 0 <= j < |Products|
      ensures Like(Pattern(query), Products[j].name) <==> Contains(FoldStr(Products[j].name), FoldStr(query))
    {
      LikeContains(query, Products[j].name);
    }
  }

  lemma SelfContains(s: string)
    ensures Contains(s, s)
  {
    assert OccursAt(s, s, 0);
  }

  /** The query "iPhone 15" selects the first seeded row. */
  lemma SelectIphone()
    ensures Select(Products, "iPhone 15") == Some(Row("iPhone 15", 12))
  {
    var t := Products;
    var q := "iPhone 15";
    assert t[0].name == q && t[0].stock == 12;
    assert IsLiteral(q);
    LikeContains(q, q);
    SelfContains(FoldStr(q));
    assert FirstMatch(t, Pattern(q)) == Some(0);
  }

  /** Looking up "iPhone 15" returns its row: the reply holds "iPhone 15" and "12". */
  lemma LookupIphone()
    ensures Lookup("iPhone 15") == Format(Row("iPhone 15", 12))
    ensures Contains(Lookup("iPhone 15"), "iPhone 15") && Contains(Lookup("iPhone 15"), "12")
  {
    SelectIphone();
    var row := Row("iPhone 15", 12);
    FormatContains(row);
    DecimalTwelve();
  }

  /** A name with "Pro" in it matches the pattern of the query "Pro". */
  lemma ProMatches(a: string, b: string)
    ensures Like(Pattern("Pro"), a + "Pro" + b)
  {
    var q, s := "Pro", a + "Pro" + b;
    assert IsLiteral(q);
    LikeContains(q, s);
    assert s[|a|..|a| + 3] == q;
    FoldStrSlice(s, |a|, |a| + 3);
    assert OccursAt(FoldStr(s), FoldStr(q), |a|);
  }

  /** A query with a character that no character of `name` folds to does
      not match `name`. */
  lemma NoMatchFolded(q: string, name: string, i: int)
    requires IsLiteral(q) && 0 <= i < |q|
    requires forall j :: 0 <= j < |name| ==> Fold(name[j]) != Fold(q[i])
    ensures !Like(Pattern(q), name)
  {
    LikeContains(q, name);
    assert FoldStr(q)[i] !in FoldStr(name);
    CharNotContained(FoldStr(name), FoldStr(q), i);
  }

  /** "iPhone 15" has no 'r' or 'R' in it, so the query "Pro" does not match it. */
  lemma ProMissesIphone()
    ensures !Like(Pattern("Pro"), Products[0].name)
  {
    var name := Products[0].name;
    forall j | 0 <= j < |name| ensures Fold(name[j]) != Fold('r') {
      assert name[j] != 'r' && name[j] != 'R';
    }
    NoMatchFolded("Pro", name, 1);
  }

  /** When the first row fails and the second matches, the second is selected. */
  lemma SecondMatches(table: seq<Record>, pattern: string)
    requires |table| >= 2 && !Like(pattern, table[0].name) && Like(pattern, table[1].name)
    ensures FirstMatch(table, pattern) == Some(1)
  {
    assert FirstMatch(table[1..], pattern) == Some(0);
  }

  /** A query that misses the first product and matches the second gets the
      second product's row. */
  lemma LookupAtSecond(query: string)
    requires !PatternTooComplex(Pattern(query))
    requires !Like(Pattern(query), Products[0].name) && Like(Pattern(query), Products[1].name)
    ensures Lookup(query) == Format(Row(Products[1].name, Products[1].stock))
  {
    SecondMatches(Products, Pattern(query));
  }

  /** "Pro" matches both "MacBook Pro 16" and "AirPods Pro". */
  lemma ProMatchesTwo()
    ensures Like(Pattern("Pro"), Products[1].name) && Like(Pattern("Pro"), Products[2].name)
  {
    assert Products[1].name == "MacBook " + "Pro" + " 16";
    ProMatches("MacBook ", " 16");
    assert Products[2].name == "AirPods " + "Pro" + "";
    ProMatches("AirPods ", "");
  }

  /** Of the two products "Pro" matches, the reply is the first in rowid order. */
  lemma LookupPro()
    ensures Lookup("Pro") == Format(Row("MacBook Pro 16", 5))
  {
    ProMatchesTwo();
    ProMissesIphone();
    ShortQueryNoError("Pro");
    LookupAtSecond("Pro");
  }

  lemma DecimalTwelve()
    ensures Decimal(12) == "12"
  {
    assert Decimal(1) == "1";
  }

  /** A name with no '3' in it never matches a query containing '3'. */
  lemma NoMatchWithoutThree(q: string, name: string, i: int)
    requires IsLiteral(q) && 0 <= i < |q| && q[i] == '3' && '3' !in name
    ensures !Like(Pattern(q), name)
  {
    LikeContains(q, name);
    assert FoldStr(q)[i] == '3';
    assert '3' !in FoldStr(name) by {
      forall j | 0 <= j < |name| ensures FoldStr(name)[j] != '3' {
        assert name[j] != '3';
      }
    }
    CharNotContained(FoldStr(name), FoldStr(q), i);
  }

  /** Looking up "Nokia 3310" finds nothing and returns the not-found text. */
  lemma LookupNokia()
    ensures Lookup("Nokia 3310") == NotFound
  {
    var t := Products;
    var q := "Nokia 3310";
    assert IsLiteral(q) && q[6] == '3';
    forall j | 0 <= j < |t| ensures !Like(Pattern(q), t[j].name) {
      assert '3' !in t[j].name;
      NoMatchWithoutThree(q, t[j].name, 6);
    }
    assert FirstMatch(t, Pattern(q)) == None;
  }
}
