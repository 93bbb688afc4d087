/**
 * The records the inventory store holds (products, activity-log entries,
 * profile, settings, the backup document) and the pure operations its
 * handlers are built from: the bounded activity log, the product lookup by
 * id and the product-id projection.
 */
module Inventory {
  import opened Seqs

  datatype Option<T> = None | Some(value: T)

  /** JavaScript truthiness of an optional string: absent and "" are both falsy. */
  predicate Truthy(s: Option<string>) {
    s.Some? && s.value != ""
  }

  /**
   * A catalog entry. `brand` is absent on records that never had one; stock is
   * a whole number; `price` is kept as the text the form supplied, since the
   * model does no price arithmetic.
   */
  datatype Product = Product(
    id: string,
    name: string,
    brand: Option<string>,
    category: string,
    barcode: string,
    stock: int,
    price: string)

  /** The `type` field of a log entry. */
  datatype LogType = ProductEvent | CategoryEvent | SystemEvent

  datatype LogEntry = LogEntry(id: int, logType: LogType, action: string, details: string, timestamp: string)

  datatype Profile = Profile(companyName: string, profileImage: Option<string>)

  datatype Settings = Settings(currency: string, lowStockThreshold: int)

  /**
   * The persisted or exported state, each part already decoded and possibly
   * missing: the shape of both the storage keys and the backup document.
   */
  datatype Snapshot = Snapshot(
    products: Option<seq<Product>>,
    categories: Option<seq<string>>,
    logs: Option<seq<LogEntry>>,
    profile: Option<Profile>,
    settings: Option<Settings>,
    password: Option<string>)

  /** A reading of the clock: milliseconds since the epoch and its display form. */
  datatype Clock = Clock(millis: int, display: string)

  const DefaultCategories: seq<string> := ["Stationery", "Electronics", "Home"]
  const DefaultProfile := Profile("Primal Pro", None)
  const DefaultSettings := Settings("₹", 10)

  // ---------------------------------------------------------------- activity log

  /** The log keeps at most this many entries. */
  const MaxLogs: nat := 100

  function MakeEntry(logType: LogType, action: string, details: string, at: Clock): LogEntry {
    LogEntry(at.millis, logType, action, details, at.display)
  }

  /**
   * The log after recording `e`: `e` goes in front and, when that makes the
   * log longer than MaxLogs, the last (oldest) entry is dropped. Only one entry
   * is ever dropped, so a log that is already longer does not shrink.
   */
  function LogPush(logs: seq<LogEntry>, e: LogEntry): (r: seq<LogEntry>)
    ensures |r| == if |logs| < MaxLogs then |logs| + 1 else |logs|
    ensures |r| > 0 && r[0] == e
    ensures r[1..] == logs[..|r| - 1]
  {
    var grown := [e] + logs;
    if |grown| > MaxLogs then grown[..|grown| - 1] else grown
  }

  /** Recording never takes a log that respects the bound past it. */
  lemma LogPushBounded(logs: seq<LogEntry>, e: LogEntry)
    requires |logs| <= MaxLogs
    ensures |LogPush(logs, e)| <= MaxLogs
  {
  }

  /** Recording the entries of `es`, first to last. */
  function RecordAll(logs: seq<LogEntry>, es: seq<LogEntry>): seq<LogEntry>
    decreases |es|
  {
    if es == [] then logs else RecordAll(LogPush(logs, es[0]), es[1..])
  }

  /** The entries of `es`, last first. */
  function NewestFirst(es: seq<LogEntry>): (r: seq<LogEntry>)
    ensures |r| == |es|
    ensures forall k :: 0 <= k < |es| ==> r[k] == es[|es| - 1 - k]
  {
    if es == [] then [] else NewestFirst(es[1..]) + [es[0]]
  }

  /** The first `n` elements of `s`, or all of `s` if it is shorter. */
  function Take<T>(s: seq<T>, n: nat): (r: seq<T>)
    ensures |r| == if |s| <= n then |s| else n
    ensures r == s[..|r|]
  {
    if |s| <= n then s else s[..n]
  }

  lemma TakeOfAppendTake<T>(a: seq<T>, b: seq<T>, n: nat)
    ensures Take(a + Take(b, n), n) == Take(a + b, n)
  {
  }

  /**
   * Recording a batch of entries into a log that respects the bound leaves
   * the newest MaxLogs of (batch, newest first) followed by the old log: the
   * newest entry is at the head and the oldest ones fall off the end.
   */
  lemma {:induction false} RecordAllKeepsNewest(logs: seq<LogEntry>, es: seq<LogEntry>)
    requires |logs| <= MaxLogs
    ensures RecordAll(logs, es) == Take(NewestFirst(es) + logs, MaxLogs)
    decreases |es|
  {
    if es == [] {
      assert NewestFirst(es) + logs == logs;
    } else {
      var e, rest := es[0], es[1..];
      var pushed := LogPush(logs, e);
      assert pushed == Take([e] + logs, MaxLogs);
      RecordAllKeepsNewest(pushed, rest);
      TakeOfAppendTake(NewestFirst(rest), [e] + logs, MaxLogs);
      assert NewestFirst(es) == NewestFirst(rest) + [e];
      assert NewestFirst(rest) + ([e] + logs) == NewestFirst(es) + logs;
    }
  }

  /**
   * Starting from an empty log, recording more than MaxLogs entries leaves
   * exactly MaxLogs of them, the newest first; the first one recorded is gone.
   */
  lemma RecordManyFromEmpty(es: seq<LogEntry>)
    requires |es| > MaxLogs
    ensures |RecordAll([], es)| == MaxLogs
    ensures RecordAll([], es)[0] == es[|es| - 1]
    ensures forall k :: 0 <= k < MaxLogs ==> RecordAll([], es)[k] == es[|es| - 1 - k]
  {
    RecordAllKeepsNewest([], es);
    assert NewestFirst(es) + [] == NewestFirst(es);
  }

  // ---------------------------------------------------------------- products by id

  /**
   * The first index of a product with id `id`, or -1 when there is none
   * (Array.prototype.findIndex).
   */
  function FindIndex(products: seq<Product>, id: string): (i: int)
    ensures -1 <= i < |products|
    ensures i == -1 <==> forall k :: 0 <= k < |products| ==> products[k].id != id
    ensures 0 <= i ==> products[i].id == id && forall k :: 0 <= k < i ==> products[k].id != id
  {
    if products == [] then -1
    else if products[0].id == id then 0
    else
      var j := FindIndex(products[1..], id);
      if j == -1 then -1 else j + 1
  }

  /** The ids of `products`, in collection order. */
  function Ids(products: seq<Product>): (r: seq<string>)
    ensures |r| == |products|
    ensures forall k :: 0 <= k < |products| ==> r[k] == products[k].id
  {
    if products == [] then [] else [products[0].id] + Ids(products[1..])
  }

  /** No two products share an id. */
  ghost predicate UniqueIds(products: seq<Product>) {
    NoDuplicates(Ids(products))
  }

  /** The lookup fails exactly when the id is not among the products' ids. */
  lemma FindIndexMissing(products: seq<Product>, id: string)
    ensures FindIndex(products, id) == -1 <==> id !in Ids(products)
  {
  }

  /** The products whose id is not `id`, in order. */
  function WithoutProduct(products: seq<Product>, id: string): (r: seq<Product>)
    ensures IsSubsequence(r, products)
    ensures forall p :: p in r <==> p in products && p.id != id
    ensures forall p :: multiset(r)[p] == if p.id != id then multiset(products)[p] else 0
  {
    Filter((p: Product) => p.id != id, products)
  }

  /** Deleting by id keeps product ids unique. */
  lemma WithoutProductUniqueIds(products: seq<Product>, id: string)
    requires UniqueIds(products)
    ensures UniqueIds(WithoutProduct(products, id))
  {
    IdsWithoutProduct(products, id);
    WithoutNoDuplicates(Ids(products), id);
  }

  /** Removing the products with an id removes exactly that id from the id list. */
  lemma {:induction false} IdsWithoutProduct(products: seq<Product>, id: string)
    ensures Ids(WithoutProduct(products, id)) == Without(Ids(products), id)
  {
    if products != [] {
      var p, tail := products[0], products[1..];
      IdsWithoutProduct(tail, id);
      var rest := WithoutProduct(tail, id);
      assert WithoutProduct(products, id) == if p.id != id then [p] + rest else rest;
      assert Ids(products) == [p.id] + Ids(tail);
      assert Ids(products)[1..] == Ids(tail);
      assert Without(Ids(products), id) == if p.id != id then [p.id] + Without(Ids(tail), id) else Without(Ids(tail), id);
      if p.id != id {
        assert Ids([p] + rest)[1..] == Ids(rest);
      }
    }
  }

  /** Replacing a product by one with the same id leaves the id list as it was. */
  lemma IdsReplace(products: seq<Product>, i: int, p: Product)
    requires 0 <= i < |products| && p.id == products[i].id
    ensures Ids(products[i := p]) == Ids(products)
  {
  }

  /** Appending a product appends its id. */
  lemma IdsAppend(products: seq<Product>, p: Product)
    ensures Ids(products + [p]) == Ids(products) + [p.id]
  {
  }
}
