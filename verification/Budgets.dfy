/** The token-budget log: its facts, the book they fold into, and what a bucket and a receipt report. */
module Budgets {
  import opened Common

  /** A day is the number of the UTC day; the program writes the same day as a YYYY-MM-DD text. */
  datatype Scope =
    | RunScope(run: string)
    | DeliveryScope(delivery: string)
    | ProjectScope(project: string)
    | DayScope(day: int)

  datatype Context = Context(project: Option<string>, root: string, delivery: Option<string>)

  datatype Basis = InputOutput | InputOnly

  datatype Source = Reported | Estimated | Unknown

  const MICROSECONDS_PER_DAY := 86_400_000_000

  function UtcDay(at: int): int {
    at / MICROSECONDS_PER_DAY
  }

  /** The buckets a request is charged to: root Run, the Run itself, delivery, project, UTC day. */
  function Scopes(context: Context, run: string, at: int): seq<Scope> {
    [RunScope(context.root)]
    + (if run != context.root then [RunScope(run)] else [])
    + (if context.delivery.Some? then [DeliveryScope(context.delivery.value)] else [])
    + (if context.project.Some? then [ProjectScope(context.project.value)] else [])
    + [DayScope(UtcDay(at))]
  }

  datatype Configuration = Configuration(request: string, scope: Scope, limit: Option<nat>)

  datatype Reservation = Reservation(
    attempt: string, run: string, session: string, context: Context,
    inputEstimate: nat, outputEstimate: nat, estimateMethod: string,
    reserved: nat, reservedAt: int, scopes: seq<Scope>, basis: Basis)

  datatype Settlement = Settlement(
    attempt: string, usage: map<string, nat>, source: Source, actual: Option<nat>)

  datatype Resolution = Resolution(attempt: string, actual: nat, reason: string, request: string)

  datatype ProjectField = Unstated | Stated(project: Option<string>)

  /** What a run.admitted or run.started fact says; an empty text stands for an absent field. */
  datatype Intent = Intent(
    parent: string, deliveryId: string, writerDelivery: string,
    source: string, billing: string, project: ProjectField)

  datatype Event =
    | Configured(configuration: Configuration)
    | Reserved(reservation: Reservation)
    | Settled(settlement: Settlement)
    | Resolved(resolution: Resolution)
    | AttemptStarted(attempt: string)
    | AttemptFinished(attempt: string)
    | RunAdmitted(session: string, run: string, intent: Intent)
    | RunStarted(session: string, run: string, intent: Intent)
    | ControlSession(session: string, kind: string)

  predicate IsBudgetFact(e: Event) {
    e.Configured? || e.Reserved? || e.Settled? || e.Resolved?
  }

  /** One attempt: its reservation and what was later learnt about its usage. */
  datatype Item = Item(
    reservation: Reservation, settlement: Option<Settlement>, resolution: Option<Resolution>)

  datatype Change = Settling(settlement: Settlement) | Resolving(resolution: Resolution)

  /** The folded log; `order` lists the attempts in the order of their first reservation. */
  datatype Book = Book(
    limits: map<Scope, Option<nat>>,
    requests: map<string, Configuration>,
    order: seq<string>,
    items: map<string, Item>,
    seen: set<Change>)

  const EMPTY_BOOK := Book(map[], map[], [], map[], {})

  ghost predicate ValidBook(b: Book) {
    && Distinct(b.order)
    && (forall a :: a in b.order <==> a in b.items)
    && (forall a :: a in b.items ==> b.items[a].reservation.attempt == a)
    && (forall p :: Resolving(p) in b.seen ==>
          p.attempt in b.items && b.items[p.attempt].resolution == Some(p))
  }

  // ---------------------------------------------------------------- folding

  predicate SettlementConflicts(prior: Option<Settlement>, next: Settlement) {
    prior.Some? && prior.value != next && (prior.value.actual.Some? || next.actual.None?)
  }

  function Apply(b: Book, e: Event): Result<Book> {
    match e
    case Configured(c) =>
      if c.request in b.requests then
        if b.requests[c.request] != c then Err("Conflicting budget configuration replay") else Ok(b)
      else
        Ok(b.(requests := b.requests[c.request := c], limits := b.limits[c.scope := c.limit]))
    case Reserved(r) =>
      if r.attempt in b.items then
        if b.items[r.attempt].reservation != r then Err("Conflicting budget reservation replay")
        else Ok(b)
      else
        Ok(b.(order := b.order + [r.attempt], items := b.items[r.attempt := Item(r, None, None)]))
    case Settled(p) =>
      if Settling(p) in b.seen then Ok(b)
      else if p.attempt !in b.items then Err("Settlement has no reservation")
      else if SettlementConflicts(b.items[p.attempt].settlement, p) then
        Err("Conflicting budget settlement replay")
      else
        Ok(b.(seen := b.seen + {Settling(p)},
              items := b.items[p.attempt := b.items[p.attempt].(settlement := Some(p))]))
    case Resolved(p) =>
      if Resolving(p) in b.seen then Ok(b)
      else if p.attempt !in b.items then Err("Settlement has no reservation")
      else if b.items[p.attempt].resolution.Some? && b.items[p.attempt].resolution != Some(p) then
        Err("Conflicting budget settlement replay")
      else
        Ok(b.(seen := b.seen + {Resolving(p)},
              items := b.items[p.attempt := b.items[p.attempt].(resolution := Some(p))]))
    case _ => Ok(b)
  }

  lemma ApplyValid(b: Book, e: Event)
    requires ValidBook(b)
    ensures Apply(b, e).Ok? ==> ValidBook(Apply(b, e).value)
  {
    if e.Reserved? && e.reservation.attempt !in b.items {
      var c := Apply(b, e).value;
      forall i, j | 0 <= i < j < |c.order|
        ensures c.order[i] != c.order[j]
      {
        assert c.order[i] in b.order;
      }
    }
  }

  /** The book a log stands for, or the error that reading it raises. */
  function Fold(log: seq<Event>): (r: Result<Book>)
    ensures r.Ok? ==> ValidBook(r.value)
  {
    if log == [] then Ok(EMPTY_BOOK)
    else
      var b :- Fold(log[..|log| - 1]);
      ApplyValid(b, log[|log| - 1]);
      Apply(b, log[|log| - 1])
  }

  lemma FoldAppend(log: seq<Event>, e: Event)
    ensures Fold(log + [e]) == if Fold(log).Ok? then Apply(Fold(log).value, e) else Fold(log)
  {
    assert (log + [e])[..|log|] == log;
  }

  /** Reading one event further. */
  lemma FoldNext(log: seq<Event>, i: nat)
    requires i < |log| && Fold(log[..i]).Ok?
    ensures Fold(log[..i + 1]) == Apply(Fold(log[..i]).value, log[i])
  {
    assert log[..i + 1][..i] == log[..i];
  }

  /** Reading one event further, and the error that it may raise. */
  lemma FoldStep(log: seq<Event>, i: nat)
    requires i < |log| && Fold(log[..i]).Ok?
    ensures var next := Apply(Fold(log[..i]).value, log[i]);
            Fold(log[..i + 1]) == next && (next.Err? ==> Fold(log) == next)
  {
    FoldNext(log, i);
    PrefixError(log, i + 1);
  }

  /** The projection loop: four dictionaries updated event by event. */
  method Project(log: seq<Event>) returns (r: Result<Book>)
    ensures r == Fold(log)
  {
    var limits, requests, order, items, seen := map[], map[], [], map[], {};
    for i := 0 to |log|
      invariant Fold(log[..i]) == Ok(Book(limits, requests, order, items, seen))
    {
      ghost var before := Book(limits, requests, order, items, seen);
      FoldStep(log, i);
      match log[i] {
        case Configured(c) =>
          if c.request in requests && requests[c.request] != c {
            return Err("Conflicting budget configuration replay");
          }
          if c.request !in requests {
            requests := requests[c.request := c];
            limits := limits[c.scope := c.limit];
          }
        case Reserved(p) =>
          if p.attempt in items {
            if items[p.attempt].reservation != p {
              return Err("Conflicting budget reservation replay");
            }
          } else {
            order := order + [p.attempt];
            items := items[p.attempt := Item(p, None, None)];
          }
        case Settled(p) =>
          if Settling(p) !in seen {
            seen := seen + {Settling(p)};
            if p.attempt !in items {
              return Err("Settlement has no reservation");
            }
            if SettlementConflicts(items[p.attempt].settlement, p) {
              return Err("Conflicting budget settlement replay");
            }
            items := items[p.attempt := items[p.attempt].(settlement := Some(p))];
          }
        case Resolved(p) =>
          if Resolving(p) !in seen {
            seen := seen + {Resolving(p)};
            if p.attempt !in items {
              return Err("Settlement has no reservation");
            }
            if items[p.attempt].resolution.Some? && items[p.attempt].resolution != Some(p) {
              return Err("Conflicting budget settlement replay");
            }
            items := items[p.attempt := items[p.attempt].(resolution := Some(p))];
          }
        case _ =>
      }
    }
    assert log[..|log|] == log;
    r := Ok(Book(limits, requests, order, items, seen));
  }

  /** An error met in a prefix is the error of the whole log. */
  lemma {:induction false} PrefixError(log: seq<Event>, i: nat)
    requires i <= |log|
    ensures Fold(log[..i]).Err? ==> Fold(log) == Fold(log[..i])
    decreases |log|
  {
    if i == |log| {
      assert log[..i] == log;
    } else {
      assert log[..|log| - 1][..i] == log[..i];
      PrefixError(log[..|log| - 1], i);
    }
  }

  // ---------------------------------------------------------------- amounts, buckets, receipts

  datatype Status = Unsettled | SettledFully | ManuallyResolved

  function Counter(usage: map<string, nat>, key: string): nat {
    if key in usage then usage[key] else 0
  }

  /** Tokens still held for the attempt, tokens known to be spent, and the attempt's status. */
  function Amount(item: Item): (nat, Option<nat>, Status) {
    if item.resolution.Some? then (0, Some(item.resolution.value.actual), ManuallyResolved)
    else if item.settlement.Some? && item.settlement.value.actual.Some? then
      (0, item.settlement.value.actual, SettledFully)
    else
      var observed :=
        if item.settlement.Some? && item.settlement.value.source.Reported? then
          Counter(item.settlement.value.usage, "input_tokens")
          + Counter(item.settlement.value.usage, "output_tokens")
        else 0;
      (Max(item.reservation.reserved, observed), None, Unsettled)
  }

  function Charge(item: Item): nat {
    Amount(item).0 + Amount(item).1.GetOr(0)
  }

  /** Which attempts are summed, and which figure of each. */
  datatype Family = InScope(scope: Scope) | OfRoot(root: string) | Everything

  datatype Figure = Held | Actual | Pending | Charged | Capped | Excess

  predicate Selects(f: Family, item: Item) {
    match f
    case InScope(k) => k in item.reservation.scopes
    case OfRoot(root) => item.reservation.context.root == root
    case Everything => true
  }

  function FigureOf(g: Figure, item: Item): nat {
    match g
    case Held => Amount(item).0
    case Actual => Amount(item).1.GetOr(0)
    case Pending => if Amount(item).1.None? then 1 else 0
    case Charged => Charge(item)
    case Capped => Min(Charge(item), item.reservation.reserved)
    case Excess => Max(0, Charge(item) - item.reservation.reserved)
  }

  function Weight(f: Family, g: Figure, item: Item): nat {
    if Selects(f, item) then FigureOf(g, item) else 0
  }

  function Sum(order: seq<string>, items: map<string, Item>, f: Family, g: Figure): nat
    requires forall a :: a in order ==> a in items
  {
    if order == [] then 0
    else
      Sum(order[..|order| - 1], items, f, g) + Weight(f, g, items[order[|order| - 1]])
  }

  function Total(b: Book, f: Family, g: Figure): nat
    requires ValidBook(b)
  {
    Sum(b.order, b.items, f, g)
  }

  datatype Bucket = Bucket(
    scope: Scope, limit: Option<nat>, actual: nat, held: nat, committed: nat,
    unsettled: nat, remaining: Option<nat>, warning: bool, blocked: bool)

  function LimitOf(b: Book, k: Scope): Option<nat> {
    if k in b.limits then b.limits[k] else None
  }

  function BucketOf(b: Book, k: Scope): Bucket
    requires ValidBook(b)
  {
    var committed := Total(b, InScope(k), Charged);
    var limit := LimitOf(b, k);
    Bucket(k, limit, Total(b, InScope(k), Actual), Total(b, InScope(k), Held), committed,
           Total(b, InScope(k), Pending),
           if limit.Some? then Some(Max(limit.value - committed, 0)) else None,
           limit.Some? && committed * 5 >= limit.value * 4,
           limit.Some? && committed >= limit.value)
  }

  /** The sum over one attempt more. */
  lemma SumNext(b: Book, f: Family, g: Figure, i: nat)
    requires ValidBook(b) && i < |b.order|
    ensures Sum(b.order[..i + 1], b.items, f, g)
         == Sum(b.order[..i], b.items, f, g) + Weight(f, g, b.items[b.order[i]])
  {
    assert b.order[..i + 1][..i] == b.order[..i];
  }

  lemma BucketStep(b: Book, k: Scope, i: nat)
    requires ValidBook(b) && i < |b.order|
    ensures var item := b.items[b.order[i]];
            var (held, known, _) := Amount(item);
            var counts := k in item.reservation.scopes;
            && Sum(b.order[..i + 1], b.items, InScope(k), Held)
               == Sum(b.order[..i], b.items, InScope(k), Held) + (if counts then held else 0)
            && Sum(b.order[..i + 1], b.items, InScope(k), Actual)
               == Sum(b.order[..i], b.items, InScope(k), Actual) + (if counts then known.GetOr(0) else 0)
            && Sum(b.order[..i + 1], b.items, InScope(k), Pending)
               == Sum(b.order[..i], b.items, InScope(k), Pending) + (if counts && known.None? then 1 else 0)
            && Sum(b.order[..i + 1], b.items, InScope(k), Charged)
               == Sum(b.order[..i], b.items, InScope(k), Charged)
                  + (if counts then held + known.GetOr(0) else 0)
  {
    SumNext(b, InScope(k), Held, i);
    SumNext(b, InScope(k), Actual, i);
    SumNext(b, InScope(k), Pending, i);
    SumNext(b, InScope(k), Charged, i);
  }

  /** The bucket loop, which adds held and known tokens apart and commits their sum. */
  method ReadBucket(b: Book, k: Scope) returns (r: Bucket)
    requires ValidBook(b)
    ensures r == BucketOf(b, k)
  {
    var actual, held, unsettled := 0, 0, 0;
    for i := 0 to |b.order|
      invariant held == Sum(b.order[..i], b.items, InScope(k), Held)
      invariant actual == Sum(b.order[..i], b.items, InScope(k), Actual)
      invariant unsettled == Sum(b.order[..i], b.items, InScope(k), Pending)
      invariant held + actual == Sum(b.order[..i], b.items, InScope(k), Charged)
    {
      BucketStep(b, k, i);
      var item := b.items[b.order[i]];
      if k in item.reservation.scopes {
        var (reserved, known, _) := Amount(item);
        held := held + reserved;
        actual := actual + known.GetOr(0);
        unsettled := unsettled + (if known.None? then 1 else 0);
      }
    }
    assert b.order[..|b.order|] == b.order;
    var limit := LimitOf(b, k);
    var committed := actual + held;
    r := Bucket(k, limit, actual, held, committed, unsettled,
                if limit.Some? then Some(Max(limit.value - committed, 0)) else None,
                limit.Some? && committed * 5 >= limit.value * 4,
                limit.Some? && committed >= limit.value);
  }

  datatype Receipt = Receipt(
    attempt: string, run: string, status: Status, reserved: nat, actual: Option<nat>,
    source: Source, buckets: seq<Bucket>, warnings: seq<Bucket>)

  function BucketsOf(b: Book, scopes: seq<Scope>): seq<Bucket>
    requires ValidBook(b)
  {
    if scopes == [] then []
    else BucketsOf(b, scopes[..|scopes| - 1]) + [BucketOf(b, scopes[|scopes| - 1])]
  }

  function Warnings(buckets: seq<Bucket>): seq<Bucket> {
    if buckets == [] then []
    else (if buckets[0].warning then [buckets[0]] else []) + Warnings(buckets[1..])
  }

  function ReceiptOf(b: Book, attempt: string): Receipt
    requires ValidBook(b) && attempt in b.items
  {
    var item := b.items[attempt];
    var buckets := BucketsOf(b, item.reservation.scopes);
    Receipt(attempt, item.reservation.run, Amount(item).2, item.reservation.reserved,
            Amount(item).1,
            if item.settlement.Some? then item.settlement.value.source else Unknown,
            buckets, Warnings(buckets))
  }

  /** A receipt reads only limits, order and items; memory may hold other fields than the log. */
  lemma {:induction false} BucketsReadOnly(b: Book, c: Book, scopes: seq<Scope>)
    requires ValidBook(b) && ValidBook(c)
    requires b.limits == c.limits && b.order == c.order && b.items == c.items
    ensures BucketsOf(b, scopes) == BucketsOf(c, scopes)
  {
    if scopes != [] {
      BucketsReadOnly(b, c, scopes[..|scopes| - 1]);
    }
  }

  // ---------------------------------------------------------------- sums over the book

  lemma {:induction false} SumFrame(
    order: seq<string>, items: map<string, Item>, items': map<string, Item>, f: Family, g: Figure)
    requires forall a :: a in order ==> a in items && a in items' && items[a] == items'[a]
    ensures Sum(order, items, f, g) == Sum(order, items', f, g)
  {
    if order != [] {
      SumFrame(order[..|order| - 1], items, items', f, g);
    }
  }

  /** Replacing one attempt's item changes a sum by exactly that item's weight. */
  lemma {:induction false} SumUpdate(
    order: seq<string>, items: map<string, Item>, a: string, item: Item, f: Family, g: Figure)
    requires Distinct(order) && a in order
    requires forall x :: x in order ==> x in items
    ensures Sum(order, items[a := item], f, g) + Weight(f, g, items[a])
         == Sum(order, items, f, g) + Weight(f, g, item)
  {
    var n := |order| - 1;
    if order[n] == a {
      SumFrame(order[..n], items, items[a := item], f, g);
    } else {
      SumUpdate(order[..n], items, a, item, f, g);
    }
  }

  /** A new attempt adds exactly its own weight. */
  lemma SumInsert(
    order: seq<string>, items: map<string, Item>, a: string, item: Item, f: Family, g: Figure)
    requires a !in order
    requires forall x :: x in order ==> x in items
    ensures Sum(order + [a], items[a := item], f, g)
         == Sum(order, items, f, g) + Weight(f, g, item)
  {
    assert (order + [a])[..|order|] == order;
    SumFrame(order, items, items[a := item], f, g);
  }

  /** What is charged splits into the part within each reservation and the overshoot. */
  lemma {:induction false} SumSplit(order: seq<string>, items: map<string, Item>, f: Family)
    requires forall a :: a in order ==> a in items
    ensures Sum(order, items, f, Charged) == Sum(order, items, f, Capped) + Sum(order, items, f, Excess)
    ensures Sum(order, items, f, Charged) == Sum(order, items, f, Held) + Sum(order, items, f, Actual)
  {
    if order != [] {
      SumSplit(order[..|order| - 1], items, f);
    }
  }
}
