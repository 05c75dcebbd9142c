/**
 * The transactions collection endpoint (/api/transactions).
 *
 * GET turns the optional query parameters into a filter object, the filter
 * object into an ORM `where` condition, and lists the stored transactions
 * that satisfy every active condition, newest first.
 *
 * POST checks that the five required body fields are present and truthy
 * and builds the record to insert, always for user 5.
 *
 * Text-to-value conversions the runtime performs (`parseFloat`, `parseInt`,
 * `new Date(text)`) are passed in as functions.
 */
module TransactionsRoute {
  import opened Calendar
  import opened Ledger

  // ---------------------------------------------------------------------
  // GET: query parameters to filters

  /** URLSearchParams: the first value given for each parameter name. */
  type Params = map<string, string>

  /** The TransactionFilters object; amounts in cents. */
  datatype Filters = Filters(kind: Option<string>, category: Option<string>,
                             startDate: Option<string>, endDate: Option<string>,
                             minAmount: Option<int>, maxAmount: Option<int>)

  /** `searchParams.has(name) ? searchParams.get(name) : undefined` */
  function Param(params: Params, name: string): Option<string> {
    if name in params then Some(params[name]) else None
  }

  function ParseOption(o: Option<string>, parse: string -> int): Option<int> {
    if o.Some? then Some(parse(o.value)) else None
  }

  /** The filters an invocation ends up with: one field per parameter that is present. */
  function FiltersFrom(params: Params, parseAmount: string -> int): Filters {
    Filters(Param(params, "type"), Param(params, "category"),
            Param(params, "startDate"), Param(params, "endDate"),
            ParseOption(Param(params, "minAmount"), parseAmount),
            ParseOption(Param(params, "maxAmount"), parseAmount))
  }

  /** Starts from an empty object and sets a field for each parameter present. */
  method BuildFilters(params: Params, parseAmount: string -> int) returns (f: Filters)
    ensures f == FiltersFrom(params, parseAmount)
    ensures f.kind.Some? <==> "type" in params
    ensures f.category.Some? <==> "category" in params
    ensures f.startDate.Some? <==> "startDate" in params
    ensures f.endDate.Some? <==> "endDate" in params
    ensures f.minAmount.Some? <==> "minAmount" in params
    ensures f.maxAmount.Some? <==> "maxAmount" in params
  {
    f := Filters(None, None, None, None, None, None);
    if "type" in params {
      f := f.(kind := Some(params["type"]));
    }
    if "category" in params {
      f := f.(category := Some(params["category"]));
    }
    if "startDate" in params {
      f := f.(startDate := Some(params["startDate"]));
    }
    if "endDate" in params {
      f := f.(endDate := Some(params["endDate"]));
    }
    if "minAmount" in params {
      f := f.(minAmount := Some(parseAmount(params["minAmount"])));
    }
    if "maxAmount" in params {
      f := f.(maxAmount := Some(parseAmount(params["maxAmount"])));
    }
  }

  // ---------------------------------------------------------------------
  // GET: filters to the `where` condition

  /** JavaScript truthiness of an optional text: present and not empty. */
  predicate Truthy(o: Option<string>) {
    o.Some? && o.value != ""
  }

  /** `{ gte?, lte? }` */
  datatype Bounds<T> = Bounds(gte: Option<T>, lte: Option<T>)

  /** The `where` object handed to the ORM. */
  datatype Where = Where(kind: Option<string>, categoryName: Option<string>,
                         date: Option<Bounds<Date>>, amount: Option<Bounds<int>>)

  predicate DateWithin(d: Date, b: Bounds<Date>) {
    (b.gte.Some? ==> NotAfter(b.gte.value, d)) && (b.lte.Some? ==> NotAfter(d, b.lte.value))
  }

  predicate AmountWithin(a: int, b: Bounds<int>) {
    (b.gte.Some? ==> b.gte.value <= a) && (b.lte.Some? ==> a <= b.lte.value)
  }

  /** How the ORM reads a `where` object: every field present is a condition, all must hold. */
  predicate Matches(t: Transaction, w: Where) {
    && (w.kind.Some? ==> t.kind == w.kind.value)
    && (w.categoryName.Some? ==> t.category.name == w.categoryName.value)
    && (w.date.Some? ==> DateWithin(t.date, w.date.value))
    && (w.amount.Some? ==> AmountWithin(t.amount, w.amount.value))
  }

  /**
   * What the filters ask of a transaction, condition by condition: text
   * filters only when non-empty, each date and amount bound on its own and
   * inclusive, the category by its name.
   */
  predicate Admits(f: Filters, parseDate: string -> Date, t: Transaction) {
    && (Truthy(f.kind) ==> t.kind == f.kind.value)
    && (Truthy(f.category) ==> t.category.name == f.category.value)
    && (Truthy(f.startDate) ==> NotAfter(parseDate(f.startDate.value), t.date))
    && (Truthy(f.endDate) ==> NotAfter(t.date, parseDate(f.endDate.value)))
    && (f.minAmount.Some? ==> f.minAmount.value <= t.amount)
    && (f.maxAmount.Some? ==> t.amount <= f.maxAmount.value)
  }

  /**
   * Starts from an empty `where` and adds a condition for each truthy text
   * filter and each defined amount filter; a date or amount range object
   * appears only when one of its bounds does.
   */
  method BuildWhere(f: Filters, parseDate: string -> Date) returns (w: Where)
    ensures forall t :: Matches(t, w) <==> Admits(f, parseDate, t)
    ensures w.kind.Some? <==> Truthy(f.kind)
    ensures w.categoryName.Some? <==> Truthy(f.category)
    ensures w.date.Some? <==> Truthy(f.startDate) || Truthy(f.endDate)
    ensures w.amount.Some? <==> f.minAmount.Some? || f.maxAmount.Some?
  {
    w := Where(None, None, None, None);
    if Truthy(f.kind) {
      w := w.(kind := f.kind);
    }
    if Truthy(f.category) {
      w := w.(categoryName := f.category);
    }
    if Truthy(f.startDate) || Truthy(f.endDate) {
      var range := Bounds(None, None);
      if Truthy(f.startDate) {
        range := range.(gte := Some(parseDate(f.startDate.value)));
      }
      if Truthy(f.endDate) {
        range := range.(lte := Some(parseDate(f.endDate.value)));
      }
      w := w.(date := Some(range));
    }
    if f.minAmount.Some? || f.maxAmount.Some? {
      var range := Bounds(None, None);
      if f.minAmount.Some? {
        range := range.(gte := f.minAmount);
      }
      if f.maxAmount.Some? {
        range := range.(lte := f.maxAmount);
      }
      w := w.(amount := Some(range));
    }
  }

  // ---------------------------------------------------------------------
  // GET: the ORM query

  /** The stored rows that satisfy the condition, in store order. */
  function Select(store: seq<Transaction>, w: Where): (r: seq<Transaction>)
    ensures forall t :: t in r <==> t in store && Matches(t, w)
  {
    if store == [] then []
    else (if Matches(store[0], w) then [store[0]] else []) + Select(store[1..], w)
  }

  /** Selection keeps every copy of a matching row and drops every copy of the rest. */
  lemma {:induction false} SelectCounts(store: seq<Transaction>, w: Where, t: Transaction)
    ensures multiset(Select(store, w))[t] == if Matches(t, w) then multiset(store)[t] else 0
  {
    if store != [] {
      SelectCounts(store[1..], w, t);
      assert store == [store[0]] + store[1..];
      var head := if Matches(store[0], w) then [store[0]] else [];
      assert Select(store, w) == head + Select(store[1..], w);
      assert multiset(Select(store, w)) == multiset(head) + multiset(Select(store[1..], w));
      assert multiset(store) == multiset([store[0]]) + multiset(store[1..]);
    }
  }

  /** Newest first: no row is later than the one before it. */
  predicate SortedByDateDesc(s: seq<Transaction>) {
    forall i, j :: 0 <= i < j < |s| ==> NotAfter(s[j].date, s[i].date)
  }

  /** Puts t in front of the first row that is not later than it. */
  function Insert(t: Transaction, s: seq<Transaction>): (r: seq<Transaction>)
    requires SortedByDateDesc(s)
    ensures SortedByDateDesc(r)
    ensures multiset(r) == multiset(s) + multiset{t}
  {
    if s == [] then [t]
    else if NotAfter(s[0].date, t.date) then
      InsertFront(t, s);
      [t] + s
    else
      var rest := Insert(t, s[1..]);
      InsertBehind(t, s, rest);
      assert s == [s[0]] + s[1..];
      assert multiset([s[0]] + rest) == multiset{s[0]} + multiset(rest);
      [s[0]] + rest
  }

  lemma InsertFront(t: Transaction, s: seq<Transaction>)
    requires s != [] && SortedByDateDesc(s) && NotAfter(s[0].date, t.date)
    ensures SortedByDateDesc([t] + s)
  {
    var r := [t] + s;
    forall i, j | 0 <= i < j < |r| ensures NotAfter(r[j].date, r[i].date) {
      if i == 0 {
        NotAfterTransitive(r[j].date, s[0].date, t.date);
      }
    }
  }

  lemma InsertBehind(t: Transaction, s: seq<Transaction>, rest: seq<Transaction>)
    requires s != [] && SortedByDateDesc(s) && !NotAfter(s[0].date, t.date)
    requires SortedByDateDesc(rest) && multiset(rest) == multiset(s[1..]) + multiset{t}
    ensures SortedByDateDesc([s[0]] + rest)
  {
    NotAfterTotal(s[0].date, t.date);
    var r := [s[0]] + rest;
    forall i, j | 0 <= i < j < |r| ensures NotAfter(r[j].date, r[i].date) {
      if i == 0 {
        var x := r[j];
        assert x in multiset(rest);
        if x != t {
          assert x in multiset(s[1..]);
          var k :| 0 <= k < |s[1..]| && s[1..][k] == x;
          assert s[k + 1] == x;
        }
      }
    }
  }

  /** `orderBy: { date: 'desc' }` */
  function SortByDateDesc(s: seq<Transaction>): (r: seq<Transaction>)
    ensures SortedByDateDesc(r)
    ensures multiset(r) == multiset(s)
  {
    if s == [] then []
    else
      assert s == [s[0]] + s[1..];
      Insert(s[0], SortByDateDesc(s[1..]))
  }

  /** `prisma.transaction.findMany({ where, orderBy: { date: 'desc' } })` */
  function FindMany(store: seq<Transaction>, w: Where): (r: seq<Transaction>)
    ensures SortedByDateDesc(r)
    ensures forall t :: multiset(r)[t] == if Matches(t, w) then multiset(store)[t] else 0
  {
    var selected := Select(store, w);
    var r := SortByDateDesc(selected);
    forall t ensures multiset(r)[t] == if Matches(t, w) then multiset(store)[t] else 0 {
      SelectCounts(store, w, t);
    }
    r
  }

  /**
   * GET /api/transactions: the stored transactions that pass every filter
   * the query asks for, each as often as it is stored, newest first.
   */
  method ListTransactions(params: Params, store: seq<Transaction>,
                          parseDate: string -> Date, parseAmount: string -> int)
    returns (result: seq<Transaction>)
    ensures SortedByDateDesc(result)
    ensures forall t :: multiset(result)[t]
                     == if Admits(FiltersFrom(params, parseAmount), parseDate, t) then multiset(store)[t] else 0
  {
    var filters := BuildFilters(params, parseAmount);
    var where := BuildWhere(filters, parseDate);
    result := FindMany(store, where);
  }

  // ---------------------------------------------------------------------
  // GET: what the filters mean

  /** With no parameters every transaction passes. */
  lemma NoParametersNoConstraint(parseDate: string -> Date, parseAmount: string -> int, t: Transaction)
    ensures Admits(FiltersFrom(map[], parseAmount), parseDate, t)
  {
  }

  /** A parameter that is absent imposes nothing: adding it can only narrow the result. */
  lemma AbsentParameterNoConstraint(params: Params, name: string, value: string,
                                    parseDate: string -> Date, parseAmount: string -> int, t: Transaction)
    requires name !in params
    ensures Admits(FiltersFrom(params[name := value], parseAmount), parseDate, t)
        ==> Admits(FiltersFrom(params, parseAmount), parseDate, t)
  {
    var before, after := FiltersFrom(params, parseAmount), FiltersFrom(params[name := value], parseAmount);
    assert forall other :: other != name ==> Param(params[name := value], other) == Param(params, other);
  }

  /** An empty `type` or `category` parameter is the same as none. */
  lemma EmptyTextIgnored(params: Params, name: string,
                         parseDate: string -> Date, parseAmount: string -> int, t: Transaction)
    requires name == "type" || name == "category"
    ensures Admits(FiltersFrom(params[name := ""], parseAmount), parseDate, t)
        <==> Admits(FiltersFrom(params - {name}, parseAmount), parseDate, t)
  {
    assert forall other :: other != name ==> Param(params[name := ""], other) == Param(params - {name}, other);
  }

  /** `startDate` alone bounds the date from below only, inclusively. */
  lemma StartDateAlone(start: string, parseDate: string -> Date, parseAmount: string -> int, t: Transaction)
    requires start != ""
    ensures Admits(FiltersFrom(map["startDate" := start], parseAmount), parseDate, t)
        <==> NotAfter(parseDate(start), t.date)
  {
  }

  /** `endDate` alone bounds the date from above only, inclusively. */
  lemma EndDateAlone(end: string, parseDate: string -> Date, parseAmount: string -> int, t: Transaction)
    requires end != ""
    ensures Admits(FiltersFrom(map["endDate" := end], parseAmount), parseDate, t)
        <==> NotAfter(t.date, parseDate(end))
  {
  }

  /** Both amount bounds are inclusive and each applies on its own. */
  lemma AmountBounds(params: Params, parseDate: string -> Date, parseAmount: string -> int, t: Transaction)
    requires params.Keys <= {"minAmount", "maxAmount"}
    ensures Admits(FiltersFrom(params, parseAmount), parseDate, t)
        <==> && ("minAmount" in params ==> parseAmount(params["minAmount"]) <= t.amount)
             && ("maxAmount" in params ==> t.amount <= parseAmount(params["maxAmount"]))
  {
    assert "type" !in params && "category" !in params && "startDate" !in params && "endDate" !in params;
  }

  /** The category filter looks at the category's name, never at its id. */
  lemma CategoryByName(params: Params, parseDate: string -> Date, parseAmount: string -> int,
                       t: Transaction, id: int)
    ensures var moved := t.(categoryId := id, category := t.category.(id := id));
      Admits(FiltersFrom(params, parseAmount), parseDate, moved) <==> Admits(FiltersFrom(params, parseAmount), parseDate, t)
  {
  }

  // ---------------------------------------------------------------------
  // POST

  /** A JSON body value; arrays and objects are `Compound`. Numbers are integer cents or ids. */
  datatype Json = Null | Bool(b: bool) | Number(n: int) | Text(s: string) | Compound

  /** JavaScript truthiness: false, 0, "" and null are falsy, every other value is truthy. */
  predicate JsonTruthy(v: Json): (r: bool)
    ensures !r <==> v in {Null, Bool(false), Number(0), Text("")}
  {
    match v
    case Null => false
    case Bool(b) => b
    case Number(n) => n != 0
    case Text(s) => s != ""
    case Compound => true
  }

  type Body = map<string, Json>

  /** `!!body[key]`: a missing key reads as undefined, which is falsy. */
  predicate Present(body: Body, key: string) {
    key in body && JsonTruthy(body[key])
  }

  const RequiredFields: seq<string> := ["description", "amount", "type", "date", "categoryId"]

  /** Every field of `RequiredFields` is present and truthy. */
  predicate HasRequiredFields(body: Body): (r: bool)
    ensures r <==> forall k :: k in RequiredFields ==> Present(body, k)
    ensures !r <==> exists k :: k in RequiredFields && !Present(body, k)
  {
    && Present(body, "description")
    && Present(body, "amount")
    && Present(body, "type")
    && Present(body, "date")
    && Present(body, "categoryId")
  }

  /** The user every created transaction is assigned to. */
  const FixedUserId: int := 5

  /** The `data` object passed to the ORM's create. */
  datatype NewTransaction = NewTransaction(description: Json, amount: int, kind: Json,
                                           date: Date, categoryId: int, userId: int)

  datatype PostResponse =
    | Rejected(status: int, error: string)
    | Created(status: int, record: NewTransaction)

  /**
   * POST /api/transactions: a body missing a required field is answered
   * 400 and nothing is stored; otherwise the record is built from the body,
   * stored, and answered 201.
   */
  function Post(created: seq<NewTransaction>, body: Body,
                parseFloat: Json -> int, parseInt: Json -> int, toDate: Json -> Date)
    : (result: (seq<NewTransaction>, PostResponse))
    ensures result.1.Rejected? <==> exists k :: k in RequiredFields && !Present(body, k)
    ensures result.1.Rejected? ==> result.0 == created && result.1 == Rejected(400, "Missing required fields")
    ensures result.1.Created? ==> && HasRequiredFields(body)
                                  && result.1.status == 201
                                  && result.0 == created + [result.1.record]
                                  && result.1.record.userId == FixedUserId
                                  && result.1.record.description == body["description"]
                                  && result.1.record.kind == body["type"]
                                  && result.1.record.amount == parseFloat(body["amount"])
                                  && result.1.record.categoryId == parseInt(body["categoryId"])
                                  && result.1.record.date == toDate(body["date"])
  {
    if !HasRequiredFields(body) then
      (created, Rejected(400, "Missing required fields"))
    else
      var record := NewTransaction(body["description"], parseFloat(body["amount"]), body["type"],
                                   toDate(body["date"]), parseInt(body["categoryId"]), FixedUserId);
      (created + [record], Created(201, record))
  }

  /** An amount or a category id of 0 is rejected like a missing one, and nothing is stored. */
  lemma ZeroRejected(created: seq<NewTransaction>, body: Body, key: string,
                     parseFloat: Json -> int, parseInt: Json -> int, toDate: Json -> Date)
    requires key == "amount" || key == "categoryId"
    ensures var result := Post(created, body[key := Number(0)], parseFloat, parseInt, toDate);
      result.1 == Rejected(400, "Missing required fields") && result.0 == created
  {
    assert key in RequiredFields;
  }

  /** The text "0" is truthy: an otherwise complete body with amount "0" is accepted. */
  lemma TextZeroAccepted(created: seq<NewTransaction>, body: Body,
                         parseFloat: Json -> int, parseInt: Json -> int, toDate: Json -> Date)
    requires HasRequiredFields(body)
    ensures Post(created, body["amount" := Text("0")], parseFloat, parseInt, toDate).1.Created?
  {
    var b := body["amount" := Text("0")];
    assert forall k :: k in RequiredFields ==> Present(b, k);
  }
}
