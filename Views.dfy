/**
 * The read-only views the application derives from the store: dashboard
 * totals, the product search, the low-stock report and the per-category
 * product counts. None of them changes anything.
 */
module Views {
  import opened Seqs
  import opened Text
  import opened Inventory

  // ---------------------------------------------------------------- dashboard

  /**
   * The sum of the stock of all products (the dashboard's stock card); with no
   * negative stock anywhere the total is not negative either.
   */
  function TotalStock(products: seq<Product>): (t: int)
    ensures (forall k :: 0 <= k < |products| ==> products[k].stock >= 0) ==> t >= 0
  {
    if products == [] then 0 else products[0].stock + TotalStock(products[1..])
  }

  lemma {:induction false} TotalStockAppend(a: seq<Product>, b: seq<Product>)
    ensures TotalStock(a + b) == TotalStock(a) + TotalStock(b)
  {
    if a == [] {
      assert a + b == b;
    } else {
      assert (a + b)[1..] == a[1..] + b;
      TotalStockAppend(a[1..], b);
    }
  }

  /** Replacing one product changes the total by exactly the difference of the two stocks. */
  lemma {:induction false} TotalStockReplace(products: seq<Product>, i: int, p: Product)
    requires 0 <= i < |products|
    ensures TotalStock(products[i := p]) == TotalStock(products) - products[i].stock + p.stock
  {
    if i > 0 {
      TotalStockReplace(products[1..], i - 1, p);
      assert products[i := p][1..] == products[1..][i - 1 := p];
    }
  }

  /** Adding a product adds its stock to the total. */
  lemma TotalStockAdd(products: seq<Product>, p: Product)
    ensures TotalStock(products + [p]) == TotalStock(products) + p.stock
  {
    TotalStockAppend(products, [p]);
  }

  /** How many of the newest log entries the dashboard lists. */
  const RecentCount: nat := 5

  datatype DashboardStats = DashboardStats(
    categoryCount: nat,
    productCount: nat,
    totalStock: int,
    recent: seq<LogEntry>)

  /** The dashboard: the three counters and the newest (at most five) log entries, newest first. */
  function Dashboard(categories: seq<string>, products: seq<Product>, logs: seq<LogEntry>): (d: DashboardStats)
    ensures d.categoryCount == |categories| && d.productCount == |products|
    ensures d.totalStock == TotalStock(products)
    ensures |d.recent| == if |logs| < RecentCount then |logs| else RecentCount
    ensures d.recent == logs[..|d.recent|]
  {
    DashboardStats(|categories|, |products|, TotalStock(products), Take(logs, RecentCount))
  }

  /** Just after an entry is recorded the dashboard lists it first. */
  lemma DashboardShowsNewest(categories: seq<string>, products: seq<Product>, logs: seq<LogEntry>, e: LogEntry)
    ensures Dashboard(categories, products, LogPush(logs, e)).recent[0] == e
  {
  }

  // ---------------------------------------------------------------- search

  /**
   * Whether a product matches a lower-cased search term: its lower-cased
   * name, barcode or (present, non-empty) brand contains the term.
   */
  predicate Matches(p: Product, term: string) {
    Includes(Lower(p.name), term) ||
    Includes(Lower(p.barcode), term) ||
    (Truthy(p.brand) && Includes(Lower(p.brand.value), term))
  }

  /** The products table: the products that match the query, in collection order. */
  function Search(products: seq<Product>, query: string): (r: seq<Product>)
    ensures IsSubsequence(r, products)
    ensures forall p :: p in r <==> p in products && Matches(p, Lower(query))
    ensures forall p :: multiset(r)[p] == if Matches(p, Lower(query)) then multiset(products)[p] else 0
  {
    Filter((p: Product) => Matches(p, Lower(query)), products)
  }

  /** An empty query lists every product, in order. */
  lemma SearchEmptyQuery(products: seq<Product>)
    ensures Search(products, "") == products
  {
    FilterKeepsAll((p: Product) => Matches(p, Lower("")), products);
  }

  /** Matching stated without the search algorithm, by positions of occurrence. */
  lemma MatchesByOccurrence(p: Product, term: string)
    ensures Matches(p, term) <==>
      Occurs(term, Lower(p.name)) || Occurs(term, Lower(p.barcode)) ||
      (Truthy(p.brand) && Occurs(term, Lower(p.brand.value)))
  {
    IncludesMeansOccurs(Lower(p.name), term);
    IncludesMeansOccurs(Lower(p.barcode), term);
    if Truthy(p.brand) {
      IncludesMeansOccurs(Lower(p.brand.value), term);
    }
  }

  /**
   * Search stated without the search algorithm: a product is listed exactly when
   * the lower-cased query occurs at some position of its lower-cased name, barcode
   * or non-empty brand.
   */
  lemma SearchByOccurrence(products: seq<Product>, query: string, p: Product)
    ensures p in Search(products, query) <==>
      p in products &&
      (Occurs(Lower(query), Lower(p.name)) || Occurs(Lower(query), Lower(p.barcode)) ||
       (Truthy(p.brand) && Occurs(Lower(query), Lower(p.brand.value))))
  {
    MatchesByOccurrence(p, Lower(query));
  }

  /** A query no product matches gives an empty table. */
  lemma SearchNoMatch(products: seq<Product>, query: string)
    requires forall p :: p in products ==> !Matches(p, Lower(query))
    ensures Search(products, query) == []
  {
  }

  // ---------------------------------------------------------------- stock report

  datatype StockStatus = LowStock | InStock

  /** The status column of the stock table: low at or below the threshold. */
  function Status(p: Product, threshold: int): StockStatus {
    if p.stock <= threshold then LowStock else InStock
  }

  /** The products the low-stock card counts, in collection order. */
  function LowStockItems(products: seq<Product>, threshold: int): (r: seq<Product>)
    ensures IsSubsequence(r, products)
    ensures forall p :: p in r <==> p in products && p.stock <= threshold
    ensures forall p :: multiset(r)[p] == if p.stock <= threshold then multiset(products)[p] else 0
  {
    Filter((p: Product) => p.stock <= threshold, products)
  }

  /** The status column of the stock table, one row per product in collection order. */
  function StatusColumn(products: seq<Product>, threshold: int): (r: seq<StockStatus>)
    ensures |r| == |products|
    ensures forall k :: 0 <= k < |products| ==> r[k] == Status(products[k], threshold)
  {
    if products == [] then [] else [Status(products[0], threshold)] + StatusColumn(products[1..], threshold)
  }

  /** The number of rows of a status column that read "Low Stock". */
  function LowRows(column: seq<StockStatus>): nat {
    |Filter((s: StockStatus) => s == LowStock, column)|
  }

  /**
   * The low-stock card and the stock table, computed separately, agree: the card's
   * count is the number of rows marked "Low Stock".
   */
  lemma {:induction false} LowStockCardMatchesTable(products: seq<Product>, threshold: int)
    ensures |LowStockItems(products, threshold)| == LowRows(StatusColumn(products, threshold))
  {
    if products != [] {
      LowStockCardMatchesTable(products[1..], threshold);
      var column := StatusColumn(products, threshold);
      assert column[1..] == StatusColumn(products[1..], threshold);
      assert products == [products[0]] + products[1..];
      assert column == [column[0]] + column[1..];
    }
  }

  /** The boundary is inclusive: stock equal to the threshold is low, one more is not. */
  lemma LowStockBoundary(p: Product, threshold: int)
    ensures p.stock == threshold ==> Status(p, threshold) == LowStock
    ensures p.stock == threshold + 1 ==> Status(p, threshold) == InStock
  {
  }

  // ---------------------------------------------------------------- categories

  /** The products filed under `category` (exact string match), in order. */
  function ProductsIn(products: seq<Product>, category: string): (r: seq<Product>)
    ensures IsSubsequence(r, products)
    ensures forall p :: p in r <==> p in products && p.category == category
    ensures forall p :: multiset(r)[p] == if p.category == category then multiset(products)[p] else 0
  {
    Filter((p: Product) => p.category == category, products)
  }

  /** The count shown beside a category. */
  function UsageCount(products: seq<Product>, category: string): (n: nat)
    ensures n <= |products|
  {
    |ProductsIn(products, category)|
  }

  /** Some product references the category (the guard of category deletion). */
  predicate InUse(products: seq<Product>, category: string): (b: bool)
    ensures b <==> exists p :: p in products && p.category == category
  {
    exists k :: 0 <= k < |products| && products[k].category == category
  }

  /** A category shows a count of zero exactly when deleting it is allowed. */
  lemma UsageZeroIffUnused(products: seq<Product>, category: string)
    ensures UsageCount(products, category) == 0 <==> !InUse(products, category)
  {
    var r := ProductsIn(products, category);
    if InUse(products, category) {
      var k :| 0 <= k < |products| && products[k].category == category;
      assert products[k] in r;
    }
  }

  datatype CategoryRow = CategoryRow(name: string, count: nat)

  /** The categories table: every category, in order, with the number of products filed under it. */
  function CategoryUsage(categories: seq<string>, products: seq<Product>): (rows: seq<CategoryRow>)
    ensures |rows| == |categories|
    ensures forall k :: 0 <= k < |categories| ==>
      rows[k].name == categories[k] && rows[k].count == UsageCount(products, categories[k])
  {
    if categories == [] then []
    else [CategoryRow(categories[0], UsageCount(products, categories[0]))] + CategoryUsage(categories[1..], products)
  }

  function SumCounts(rows: seq<CategoryRow>): nat {
    if rows == [] then 0 else rows[0].count + SumCounts(rows[1..])
  }

  /** How often `name` occurs in `categories`. */
  function Occurrences(categories: seq<string>, name: string): nat {
    if categories == [] then 0
    else (if categories[0] == name then 1 else 0) + Occurrences(categories[1..], name)
  }

  lemma {:induction false} OccurrencesOfDistinct(categories: seq<string>, name: string)
    requires NoDuplicates(categories) && name in categories
    ensures Occurrences(categories, name) == 1
  {
    if categories[0] == name {
      OccurrencesAbsent(categories[1..], name);
    } else {
      assert name in categories[1..];
      OccurrencesOfDistinct(categories[1..], name);
    }
  }

  lemma {:induction false} OccurrencesAbsent(categories: seq<string>, name: string)
    requires forall k :: 0 <= k < |categories| ==> categories[k] != name
    ensures Occurrences(categories, name) == 0
  {
    if categories != [] {
      OccurrencesAbsent(categories[1..], name);
    }
  }

  /** One more product adds one to its own category's count and nothing to the others. */
  lemma UsageCountCons(p: Product, products: seq<Product>, category: string)
    ensures UsageCount([p] + products, category) == UsageCount(products, category) + (if p.category == category then 1 else 0)
  {
  }

  lemma {:induction false} SumCountsCons(categories: seq<string>, p: Product, products: seq<Product>)
    ensures SumCounts(CategoryUsage(categories, [p] + products))
         == SumCounts(CategoryUsage(categories, products)) + Occurrences(categories, p.category)
  {
    if categories != [] {
      SumCountsCons(categories[1..], p, products);
      UsageCountCons(p, products, categories[0]);
    }
  }

  /**
   * When the category names are distinct and every product names one of them, the
   * counts in the categories table add up to the number of products: each product
   * is counted under exactly one category.
   */
  lemma {:induction false} CategoryCountsCoverProducts(categories: seq<string>, products: seq<Product>)
    requires NoDuplicates(categories)
    requires forall k :: 0 <= k < |products| ==> products[k].category in categories
    ensures SumCounts(CategoryUsage(categories, products)) == |products|
  {
    if products == [] {
      EmptyCounts(categories);
    } else {
      var p, rest := products[0], products[1..];
      assert products == [p] + rest;
      CategoryCountsCoverProducts(categories, rest);
      SumCountsCons(categories, p, rest);
      OccurrencesOfDistinct(categories, p.category);
    }
  }

  lemma {:induction false} EmptyCounts(categories: seq<string>)
    ensures SumCounts(CategoryUsage(categories, [])) == 0
  {
    if categories != [] {
      EmptyCounts(categories[1..]);
    }
  }
}
