/** The per-request budget of database work (internal/graphql/limits.go) and the
    products resolver that draws on it (internal/graphql/schema.go). */
module RequestBudget {
  import opened Catalog

  /** -1 means unlimited, 0 means spent. */
  datatype Budget = Budget(productsLeft: int, queriesLeft: int)

  datatype Refusal = TooManyQueries | TooManyProducts
  datatype Reservation = Granted(limit: int) | Refused(why: Refusal)

  function NewBudget(maxProducts: int, maxQueries: int): Budget {
    Budget(if maxProducts <= 0 then -1 else maxProducts, if maxQueries <= 0 then -1 else maxQueries)
  }

  function Reserve(b: Budget, limit: int): (Budget, Reservation) {
    if b.queriesLeft == 0 then (b, Refused(TooManyQueries))
    else if b.productsLeft == 0 then (b, Refused(TooManyProducts))
    else
      var b1 := if b.queriesLeft > 0 then b.(queriesLeft := b.queriesLeft - 1) else b;
      if b1.productsLeft > 0 then
        var granted := Min(limit, b1.productsLeft);
        (b1.(productsLeft := b1.productsLeft - granted), Granted(granted))
      else
        (b1, Granted(limit))
  }

  function Refund(b: Budget, reserved: int, used: int): Budget {
    if used >= reserved || b.productsLeft < 0 then b
    else b.(productsLeft := b.productsLeft + (reserved - used))
  }

  // ---------------------------------------------------------------- interleaved resolvers

  /** One products field: it has reserved and its query is out, its rows are back,
      it has settled, or it was turned away. */
  datatype Resolver =
    | Holding(reserved: int)
    | Answered(reserved: int, rows: nat)
    | Settled(rows: nat)
    | TurnedAway(why: Refusal)

  datatype Request = Request(budget: Budget, resolvers: seq<Resolver>)

  datatype Event =
    | Arrive(limit: int)            // reserve(EffectiveLimit(limit)) under the mutex
    | Answer(i: nat, rows: nat)     // QueryProducts returns
    | Settle(i: nat)                // refund under the mutex

  /** A query returns at most the limit it was given. */
  predicate Enabled(r: Request, e: Event) {
    match e
    case Arrive(_) => true
    case Answer(i, rows) =>
      i < |r.resolvers| && r.resolvers[i].Holding? && rows <= EffectiveLimit(r.resolvers[i].reserved)
    case Settle(i) => i < |r.resolvers| && r.resolvers[i].Answered?
  }

  function Step(r: Request, e: Event): Request
    requires Enabled(r, e)
  {
    match e
    case Arrive(limit) =>
      var (b, answer) := Reserve(r.budget, EffectiveLimit(limit));
      Request(b, r.resolvers + [match answer case Granted(n) => Holding(n) case Refused(why) => TurnedAway(why)])
    case Answer(i, rows) =>
      r.(resolvers := r.resolvers[i := Answered(r.resolvers[i].reserved, rows)])
    case Settle(i) =>
      var a := r.resolvers[i];
      Request(Refund(r.budget, a.reserved, a.rows), r.resolvers[i := Settled(a.rows)])
  }

  predicate IsRun(r: Request, events: seq<Event>)
    decreases |events|
  {
    events == [] || (Enabled(r, events[0]) && IsRun(Step(r, events[0]), events[1..]))
  }

  function After(r: Request, events: seq<Event>): Request
    requires IsRun(r, events)
    decreases |events|
  {
    if events == [] then r else After(Step(r, events[0]), events[1..])
  }

  // ---------------------------------------------------------------- accounts

  function Rows(r: Resolver): nat {
    if r.Answered? || r.Settled? then r.rows else 0
  }

  /** What a resolver still holds beyond the rows it has returned. */
  function Outstanding(r: Resolver): int {
    match r
    case Holding(n) => n
    case Answered(n, rows) => n - rows
    case _ => 0
  }

  function Queries(r: Resolver): nat {
    if r.TurnedAway? then 0 else 1
  }

  function Sum(rs: seq<Resolver>, f: Resolver -> int): int {
    if rs == [] then 0 else Sum(rs[..|rs| - 1], f) + f(rs[|rs| - 1])
  }

  lemma {:induction false} SumUpdate(rs: seq<Resolver>, f: Resolver -> int, i: nat, x: Resolver)
    requires i < |rs|
    ensures Sum(rs[i := x], f) == Sum(rs, f) - f(rs[i]) + f(x)
  {
    var n := |rs| - 1;
    if i < n {
      assert rs[i := x][..n] == rs[..n][i := x];
      SumUpdate(rs[..n], f, i, x);
    } else {
      assert rs[i := x][..n] == rs[..n];
    }
  }

  lemma SumAppend(rs: seq<Resolver>, f: Resolver -> int, x: Resolver)
    ensures Sum(rs + [x], f) == Sum(rs, f) + f(x)
  {
    assert (rs + [x])[..|rs|] == rs;
  }

  lemma {:induction false} SumNonNegative(rs: seq<Resolver>, f: Resolver -> int)
    requires forall r :: r in rs ==> f(r) >= 0
    ensures Sum(rs, f) >= 0
  {
    if rs != [] {
      SumNonNegative(rs[..|rs| - 1], f);
    }
  }

  function Returned(r: Request): int { Sum(r.resolvers, x => Rows(x)) }
  function Reserved(r: Request): int { Sum(r.resolvers, x => Outstanding(x)) }
  function QueryCount(r: Request): int { Sum(r.resolvers, x => Queries(x)) }

  /** Nothing leaks and nothing is minted. A granted limit is one the query layer
      takes at face value: it is never the 0 that would mean "use 5000". */
  ghost predicate Balanced(maxProducts: int, maxQueries: int, r: Request) {
    && (if maxProducts <= 0 then r.budget.productsLeft == -1
        else r.budget.productsLeft >= 0 && Returned(r) + Reserved(r) + r.budget.productsLeft == maxProducts)
    && (if maxQueries <= 0 then r.budget.queriesLeft == -1
        else r.budget.queriesLeft >= 0 && QueryCount(r) + r.budget.queriesLeft == maxQueries)
    && AllWellHeld(r.resolvers)
  }

  ghost predicate AllWellHeld(rs: seq<Resolver>) {
    forall i :: 0 <= i < |rs| ==> WellHeld(rs[i])
  }

  ghost predicate WellHeld(r: Resolver) {
    match r
    case Holding(n) => 1 <= n <= MAX_PRODUCT_LIMIT && EffectiveLimit(n) == n
    case Answered(n, rows) => 1 <= n <= MAX_PRODUCT_LIMIT && rows <= n
    case _ => true
  }

  lemma StepKeepsBalance(maxProducts: int, maxQueries: int, r: Request, e: Event)
    requires Balanced(maxProducts, maxQueries, r) && Enabled(r, e)
    ensures Balanced(maxProducts, maxQueries, Step(r, e))
  {
    var r' := Step(r, e);
    match e
    case Arrive(limit) => ArrivalKeepsBalance(maxProducts, maxQueries, r, limit);
    case Answer(i, _) =>
      OneResolverMoves(r, i, r'.resolvers[i]);
      OthersWellHeld(r, i, r'.resolvers[i]);
    case Settle(i) =>
      OneResolverMoves(r, i, r'.resolvers[i]);
      OthersWellHeld(r, i, r'.resolvers[i]);
  }

  lemma ArrivalKeepsBalance(maxProducts: int, maxQueries: int, r: Request, limit: int)
    requires Balanced(maxProducts, maxQueries, r)
    ensures Balanced(maxProducts, maxQueries, Step(r, Arrive(limit)))
  {
    var r' := Step(r, Arrive(limit));
    var x := r'.resolvers[|r.resolvers|];
    SumAppend(r.resolvers, x => Rows(x), x);
    SumAppend(r.resolvers, x => Outstanding(x), x);
    SumAppend(r.resolvers, x => Queries(x), x);
    assert WellHeld(x);
  }

  lemma OthersWellHeld(r: Request, i: nat, x: Resolver)
    requires i < |r.resolvers| && WellHeld(x) && AllWellHeld(r.resolvers)
    ensures AllWellHeld(r.resolvers[i := x])
  {
  }

  lemma OneResolverMoves(r: Request, i: nat, x: Resolver)
    requires i < |r.resolvers|
    ensures var r' := r.(resolvers := r.resolvers[i := x]);
            && Returned(r') == Returned(r) - Rows(r.resolvers[i]) + Rows(x)
            && Reserved(r') == Reserved(r) - Outstanding(r.resolvers[i]) + Outstanding(x)
            && QueryCount(r') == QueryCount(r) - Queries(r.resolvers[i]) + Queries(x)
  {
    SumUpdate(r.resolvers, x => Rows(x), i, x);
    SumUpdate(r.resolvers, x => Outstanding(x), i, x);
    SumUpdate(r.resolvers, x => Queries(x), i, x);
  }

  lemma {:induction false} BalancedAlways(maxProducts: int, maxQueries: int, r: Request, events: seq<Event>)
    requires Balanced(maxProducts, maxQueries, r) && IsRun(r, events)
    ensures Balanced(maxProducts, maxQueries, After(r, events))
    decreases |events|
  {
    if events != [] {
      StepKeepsBalance(maxProducts, maxQueries, r, events[0]);
      BalancedAlways(maxProducts, maxQueries, Step(r, events[0]), events[1..]);
    }
  }

  /** Over every interleaving of the aliases and batch items of one request the
      caps hold, and products are conserved to the last one. */
  lemma CapsHold(maxProducts: int, maxQueries: int, events: seq<Event>)
    requires IsRun(Request(NewBudget(maxProducts, maxQueries), []), events)
    ensures var r := After(Request(NewBudget(maxProducts, maxQueries), []), events);
            && Balanced(maxProducts, maxQueries, r)
            && (maxProducts > 0 ==> 0 <= Returned(r) <= maxProducts)
            && (maxQueries > 0 ==> QueryCount(r) <= maxQueries)
  {
    var start := Request(NewBudget(maxProducts, maxQueries), []);
    BalancedAlways(maxProducts, maxQueries, start, events);
    var r := After(start, events);
    forall x | x in r.resolvers ensures Outstanding(x) >= 0 && Rows(x) >= 0 {
      var i :| 0 <= i < |r.resolvers| && r.resolvers[i] == x;
      assert WellHeld(r.resolvers[i]);
    }
    SumNonNegative(r.resolvers, x => Outstanding(x));
    SumNonNegative(r.resolvers, x => Rows(x));
  }

  /** Exactly when the next query is turned away: all queries are spent, or the
      rows returned and the reservations still out add up to the cap. In serial
      execution nothing is out, so only rows really returned can refuse it. */
  lemma RefusedIff(maxProducts: int, maxQueries: int, events: seq<Event>, limit: int)
    requires IsRun(Request(NewBudget(maxProducts, maxQueries), []), events)
    ensures var r := After(Request(NewBudget(maxProducts, maxQueries), []), events);
            var refused := Reserve(r.budget, EffectiveLimit(limit)).1.Refused?;
            && (refused <==> (maxQueries > 0 && QueryCount(r) == maxQueries) ||
                             (maxProducts > 0 && Returned(r) + Reserved(r) == maxProducts))
            && ((forall i :: 0 <= i < |r.resolvers| ==> r.resolvers[i].Settled? || r.resolvers[i].TurnedAway?) ==>
                  (refused <==> (maxQueries > 0 && QueryCount(r) == maxQueries) ||
                                (maxProducts > 0 && Returned(r) == maxProducts)))
  {
    CapsHold(maxProducts, maxQueries, events);
    var r := After(Request(NewBudget(maxProducts, maxQueries), []), events);
    if forall i :: 0 <= i < |r.resolvers| ==> r.resolvers[i].Settled? || r.resolvers[i].TurnedAway? {
      NothingOut(r.resolvers);
    }
  }

  lemma {:induction false} NothingOut(rs: seq<Resolver>)
    requires forall i :: 0 <= i < |rs| ==> rs[i].Settled? || rs[i].TurnedAway?
    ensures Sum(rs, x => Outstanding(x)) == 0
  {
    if rs != [] {
      NothingOut(rs[..|rs| - 1]);
    }
  }

  /** Concurrency can refuse a query the serial order would have served: one
      unsettled reservation of the whole cap is enough, with no row returned. */
  lemma ConcurrentRefusal(cap: int, limit: int)
    requires 1 <= cap <= MAX_PRODUCT_LIMIT
    ensures var r := Step(Request(NewBudget(cap, 0), []), Arrive(cap));
            Returned(r) == 0 && Reserve(r.budget, EffectiveLimit(limit)).1 == Refused(TooManyProducts)
  {
    var r := Step(Request(NewBudget(cap, 0), []), Arrive(cap));
    assert r.resolvers == [] + [Holding(cap)];
    SumAppend([], x => Rows(x), Holding(cap));
  }

  // ---------------------------------------------------------------- the code

  datatype Answer = Products(count: nat) | FilterTooBroad | OverBudget(why: Refusal) | QueryFailed

  predicate TooBroad(vendor: Option<string>, service: Option<string>) {
    vendor.None? || vendor.value == "" || service.None? || service.value == ""
  }

  /** The object every resolver of a request shares. */
  class Shared {
    var productsLeft: int
    var queriesLeft: int

    function Value(): Budget
      reads this
    {
      Budget(productsLeft, queriesLeft)
    }

    constructor (maxProducts: int, maxQueries: int)
      ensures Value() == NewBudget(maxProducts, maxQueries)
    {
      productsLeft := if maxProducts <= 0 then -1 else maxProducts;
      queriesLeft := if maxQueries <= 0 then -1 else maxQueries;
    }

    method Claim(limit: int) returns (r: Reservation)
      modifies this
      ensures (Value(), r) == Reserve(old(Value()), limit)
    {
      if queriesLeft == 0 {
        return Refused(TooManyQueries);
      }
      if productsLeft == 0 {
        return Refused(TooManyProducts);
      }
      if queriesLeft > 0 {
        queriesLeft := queriesLeft - 1;
      }
      var granted := limit;
      if productsLeft > 0 {
        if granted > productsLeft {
          granted := productsLeft;
        }
        productsLeft := productsLeft - granted;
      }
      r := Granted(granted);
    }

    method GiveBack(reserved: int, used: int)
      modifies this
      ensures Value() == Refund(old(Value()), reserved, used)
    {
      if used >= reserved {
        return;
      }
      if productsLeft >= 0 {
        productsLeft := productsLeft + (reserved - used);
      }
    }

    /** The products resolver run to its end; `matching` rows satisfy the filter. */
    method Resolve(vendor: Option<string>, service: Option<string>, limit: int, matching: nat, queryOk: bool)
        returns (answer: Answer)
      requires productsLeft >= -1 && queriesLeft >= -1
      modifies this
      ensures answer.FilterTooBroad?
              <==> vendor.None? || vendor.value == "" || service.None? || service.value == ""
      ensures answer.FilterTooBroad? ==> Value() == old(Value())
      ensures !answer.FilterTooBroad? ==> Charged(old(Value()), Value(), limit, matching, queryOk, answer)
    {
      if TooBroad(vendor, service) {
        return FilterTooBroad;
      }
      answer := Query(limit, matching, queryOk);
    }

    method Query(limit: int, matching: nat, queryOk: bool) returns (answer: Answer)
      requires productsLeft >= -1 && queriesLeft >= -1
      modifies this
      ensures !answer.FilterTooBroad? && Charged(old(Value()), Value(), limit, matching, queryOk, answer)
    {
      var reservation := Claim(EffectiveLimit(limit));
      if reservation.Refused? {
        return OverBudget(reservation.why);
      }
      var reserved := reservation.limit;
      var count := if queryOk then Min(matching, EffectiveLimit(reserved)) else 0;
      GiveBack(reserved, count);
      answer := if queryOk then Products(count) else QueryFailed;
    }
  }

  /** A spent cap refuses and charges nothing. Otherwise the answer has what the
      limit, the cap and the table allow, and costs one query and its rows; a
      failed query costs no rows. */
  predicate Charged(b: Budget, b': Budget, limit: int, matching: nat, queryOk: bool, answer: Answer) {
    if b.queriesLeft == 0 then answer == OverBudget(TooManyQueries) && b' == b
    else if b.productsLeft == 0 then answer == OverBudget(TooManyProducts) && b' == b
    else
      var rows := if !queryOk then 0
                  else if b.productsLeft < 0 then Min(matching, EffectiveLimit(limit))
                  else Min(matching, Min(EffectiveLimit(limit), b.productsLeft));
      && answer == (if queryOk then Products(rows) else QueryFailed)
      && b'.productsLeft == (if b.productsLeft < 0 then -1 else b.productsLeft - rows)
      && b'.queriesLeft == (if b.queriesLeft < 0 then -1 else b.queriesLeft - 1)
  }
}
