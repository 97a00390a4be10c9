/** What each operation of the ledger charges, to which buckets, written out from its call. */
module Charges {
  import opened Common
  import opened Budgets
  import opened Ownership
  import opened Ledger

  // ---------------------------------------------------------------- one attempt changes

  /** The two books differ in what is known of one attempt only. */
  ghost predicate OnlyChanges(b: Book, c: Book, a: string) {
    && a in b.items && a in c.items && c.items[a].reservation == b.items[a].reservation
    && c.order == b.order && c.limits == b.limits && c.items == b.items[a := c.items[a]]
  }

  /** Each bucket of the attempt changes by exactly the difference of its charges, and no other bucket. */
  lemma Recharged(b: Book, c: Book, a: string, k: Scope)
    requires ValidBook(b) && ValidBook(c) && OnlyChanges(b, c, a)
    ensures BucketOf(c, k).limit == BucketOf(b, k).limit
    ensures BucketOf(c, k).committed + (if k in b.items[a].reservation.scopes then Charge(b.items[a]) else 0)
         == BucketOf(b, k).committed + (if k in b.items[a].reservation.scopes then Charge(c.items[a]) else 0)
  {
    SumUpdate(b.order, b.items, a, c.items[a], InScope(k), Charged);
  }

  // ---------------------------------------------------------------- settle

  function Told(usage: map<string, nat>, counter: string): nat {
    if counter in usage then usage[counter] else 0
  }

  /** A report that has every total of the basis. */
  predicate TellsAll(c: SettleCall, basis: Basis) {
    c.source.Reported? && "input_tokens" in c.usage && (basis.InputOutput? ==> "output_tokens" in c.usage)
  }

  /** What a settlement leaves charged: the reported totals, or as long as they are open no less than reserved. */
  function SettledCharge(c: SettleCall, p: Reservation): nat {
    var told := Told(c.usage, "input_tokens") + if p.basis.InputOutput? then Told(c.usage, "output_tokens") else 0;
    if TellsAll(c, p.basis) then told else Max(p.reserved, if c.source.Reported? then told else 0)
  }

  lemma SettlesOne(b: Book, c: SettleCall)
    requires ValidBook(b) && SettleIn(b, c).Appended?
    ensures SettleIn(b, c).fact.Settled? && IsMark(SettleIn(b, c).mark)
    ensures var r := Apply(b, SettleIn(b, c).fact);
            && r.Ok? && OnlyChanges(b, r.value, c.attempt)
            && var item, p := r.value.items[c.attempt], b.items[c.attempt].reservation;
            && Amount(b.items[c.attempt]).1.None?
            && Charge(item) == SettledCharge(c, p)
            && (TellsAll(c, p.basis) ==> Amount(item) == (0, Some(SettledCharge(c, p)), SettledFully))
            && (!TellsAll(c, p.basis) ==> Amount(item) == (SettledCharge(c, p), None, Unsettled))
  {
    var fact := SettleIn(b, c).fact;
    var items := Apply(b, fact).value.items;
    assert items == b.items[c.attempt := items[c.attempt]];
  }

  /**
   * An accepted settlement with every total of the basis settles the attempt at their sum. Any other one leaves
   * it open at its reservation, or at what has been reported so far if that is more. Each bucket follows.
   */
  lemma SettlementCharges(s: Store, c: SettleCall, k: Scope)
    requires Fold(s.log).Ok? && DecideSettle(s, c).Appended?
    ensures var b, after := Fold(s.log).value, Fold(s.log + Additions(DecideSettle(s, c)));
            && after.Ok? && OnlyChanges(b, after.value, c.attempt)
            && var item, p := after.value.items[c.attempt], b.items[c.attempt].reservation;
            && (TellsAll(c, p.basis) ==> Amount(item) == (0, Some(SettledCharge(c, p)), SettledFully))
            && (!TellsAll(c, p.basis) ==> Amount(item) == (SettledCharge(c, p), None, Unsettled))
            && BucketOf(after.value, k).committed + (if k in p.scopes then Charge(b.items[c.attempt]) else 0)
               == BucketOf(b, k).committed + (if k in p.scopes then SettledCharge(c, p) else 0)
  {
    hide SettleIn, Apply, Charge, Amount, SettledCharge, ValidBook, BucketOf;
    var b, d := Fold(s.log).value, DecideSettle(s, c);
    SettlesOne(b, c);
    FoldWithMark(s.log, d.fact, d.mark);
    Recharged(b, Apply(b, d.fact).value, c.attempt, k);
  }

  /** The call agrees with itself: a finished attempt is its own and names the Run, unknown usage is empty. */
  predicate SettleFormed(c: SettleCall) {
    && (c.finished.Some? ==> c.run.Some? && c.finished.value.attempt == c.attempt)
    && (c.source.Unknown? ==> c.usage == map[])
  }

  /** The call agrees with the reservation it settles. */
  predicate SettleAgrees(p: Reservation, c: SettleCall) {
    && p.session == c.session && (c.run.Some? ==> c.run.value == p.run)
    && (c.finished.Some? ==> c.finished.value.basis == p.basis)
    && (p.basis.InputOnly? ==>
          && "output_tokens" !in c.usage && "reasoning_tokens" !in c.usage
          && (c.finished.Some? ==> c.finished.value.kind == "embedding"))
  }

  /** Facts may be written under the Run: it is of the session and not over. Without one they always may. */
  predicate StoreTakes(s: Store, session: string, run: Option<string>) {
    run in {None, Some("")}
    || (run.value in s.runs && s.runs[run.value].session == session && run.value !in s.over)
  }

  lemma FormedIff(c: SettleCall)
    ensures SettleProblem(c).None? <==> SettleFormed(c)
  {
  }

  lemma AgreesIff(item: Item, c: SettleCall)
    ensures SettleMismatch(item, c).None? <==> SettleAgrees(item.reservation, c)
  {
  }

  lemma TakesIff(s: Store, session: string, run: Option<string>)
    ensures AppendProblem(s, session, run).None? <==> StoreTakes(s, session, run)
  {
  }

  lemma TellsIff(c: SettleCall, basis: Basis)
    ensures SettlementFor(c, basis).actual.Some? <==> TellsAll(c, basis)
  {
  }

  /**
   * What is no replay is settled if and only if the call is well formed and agrees with an attempt that is neither
   * resolved nor settled, or settled without a total that the call now gives.
   */
  lemma SettledIff(s: Store, c: SettleCall)
    requires Fold(s.log).Ok? && !DecideSettle(s, c).Replayed?
    ensures var b := Fold(s.log).value;
            DecideSettle(s, c).Appended? <==>
              && SettleFormed(c) && c.session in s.sessions && c.attempt in b.items
              && var item := b.items[c.attempt];
              && SettleAgrees(item.reservation, c) && StoreTakes(s, c.session, c.run)
              && item.resolution.None?
              && (item.settlement.Some? ==>
                    item.settlement.value.actual.None? && TellsAll(c, item.reservation.basis))
  {
    hide SettleProblem, SettleFormed, SettleMismatch, SettleAgrees, AppendProblem, StoreTakes, SettlementFor, TellsAll;
    var b := Fold(s.log).value;
    FormedIff(c);
    TakesIff(s, c.session, c.run);
    if c.attempt in b.items {
      AgreesIff(b.items[c.attempt], c);
      TellsIff(c, b.items[c.attempt].reservation.basis);
    }
  }

  // ---------------------------------------------------------------- resolve

  lemma ResolvesOne(b: Book, session: string, p: Resolution)
    requires ValidBook(b) && ResolveIn(b, session, p).Appended?
    ensures IsMark(ResolveIn(b, session, p).mark)
    ensures var r := Apply(b, ResolveIn(b, session, p).fact);
            && r.Ok? && OnlyChanges(b, r.value, p.attempt)
            && Amount(b.items[p.attempt]).1.None?
            && Amount(r.value.items[p.attempt]) == (0, Some(p.actual), ManuallyResolved)
            && Charge(r.value.items[p.attempt]) == p.actual
  {
    var items := Apply(b, ResolveIn(b, session, p).fact).value.items;
    assert items == b.items[p.attempt := items[p.attempt]];
  }

  /** A manual resolution charges what it states in place of what was held. */
  lemma ResolutionCharges(s: Store, session: string, p: Resolution, k: Scope)
    requires Fold(s.log).Ok? && DecideResolve(s, session, p).Appended?
    ensures var b, after := Fold(s.log).value, Fold(s.log + Additions(DecideResolve(s, session, p)));
            && after.Ok? && OnlyChanges(b, after.value, p.attempt)
            && Amount(after.value.items[p.attempt]) == (0, Some(p.actual), ManuallyResolved)
            && var charged := k in b.items[p.attempt].reservation.scopes;
            && BucketOf(after.value, k).committed + (if charged then Charge(b.items[p.attempt]) else 0)
               == BucketOf(b, k).committed + (if charged then p.actual else 0)
  {
    hide ResolveIn, Apply, Charge, Amount, ValidBook, BucketOf;
    var b, d := Fold(s.log).value, DecideResolve(s, session, p);
    ResolvesOne(b, session, p);
    FoldWithMark(s.log, d.fact, d.mark);
    Recharged(b, Apply(b, d.fact).value, p.attempt, k);
  }

  /** What is no replay is resolved if and only if the attempt is of the session and open, and the request new. */
  lemma ResolvedIff(s: Store, session: string, p: Resolution)
    requires Fold(s.log).Ok? && !DecideResolve(s, session, p).Replayed?
    ensures var b := Fold(s.log).value;
            DecideResolve(s, session, p).Appended? <==>
              && session in s.sessions && p.attempt in b.items
              && b.items[p.attempt].reservation.session == session && b.items[p.attempt].resolution.None?
              && (b.items[p.attempt].settlement.Some? ==> b.items[p.attempt].settlement.value.actual.None?)
              && forall a :: a in b.items && b.items[a].resolution.Some? ==>
                   b.items[a].resolution.value.request != p.request
  {
  }

  // ---------------------------------------------------------------- reserve

  /** The buckets of a request: its root, its Run, its delivery, its project, and the UTC day it is made on. */
  predicate ChargedTo(c: ReserveCall, k: Scope) {
    var at := c.at.GetOr(c.now);
    match k
    case RunScope(run) => run == c.context.root || run == c.run
    case DeliveryScope(delivery) => c.context.delivery == Some(delivery)
    case ProjectScope(project) => c.context.project == Some(project)
    case DayScope(day) => day * 86_400_000_000 <= at < (day + 1) * 86_400_000_000
  }

  lemma DayOf(at: int, day: int)
    ensures day == UtcDay(at) <==> day * 86_400_000_000 <= at < (day + 1) * 86_400_000_000
  {
  }

  lemma ScopesAreCharged(c: ReserveCall, k: Scope)
    ensures k in ReservationFor(c).scopes <==> ChargedTo(c, k)
  {
    if k.DayScope? {
      DayOf(c.at.GetOr(c.now), k.day);
    }
  }

  /** The bucket has room for the estimate, and is not used up. */
  predicate HasRoom(b: Book, k: Scope, estimate: nat)
    requires ValidBook(b)
  {
    k in b.limits && b.limits[k].Some? ==>
      BucketOf(b, k).committed + estimate <= b.limits[k].value && BucketOf(b, k).committed < b.limits[k].value
  }

  lemma RoomIsNoViolation(b: Book, k: Scope, estimate: nat)
    requires ValidBook(b)
    ensures HasRoom(b, k, estimate) <==> !Violates(BucketOf(b, k), estimate)
  {
  }

  lemma {:induction false} ViolationIn(b: Book, scopes: seq<Scope>, estimate: nat)
    requires ValidBook(b)
    ensures Violations(b, scopes, estimate) == [] <==> forall k :: k in scopes ==> HasRoom(b, k, estimate)
  {
    if scopes != [] {
      var n := |scopes| - 1;
      ViolationIn(b, scopes[..n], estimate);
      RoomIsNoViolation(b, scopes[n], estimate);
      assert scopes == scopes[..n] + [scopes[n]];
    }
  }

  ghost predicate RoomForAll(b: Book, c: ReserveCall)
    requires ValidBook(b)
  {
    forall k :: ChargedTo(c, k) ==> HasRoom(b, k, c.inputEstimate + c.outputEstimate)
  }

  lemma RoomIsChecked(b: Book, c: ReserveCall)
    requires ValidBook(b)
    ensures var p := ReservationFor(c);
            p.reserved == c.inputEstimate + c.outputEstimate
            && (Violations(b, p.scopes, p.reserved) == [] <==> RoomForAll(b, c))
  {
    hide BucketOf, HasRoom, Violations, ChargedTo, ValidBook;
    var p := ReservationFor(c);
    ViolationIn(b, p.scopes, p.reserved);
    forall k ensures k in p.scopes <==> ChargedTo(c, k) {
      ScopesAreCharged(c, k);
    }
  }

  /** Between admitted and over budget, the room in the charged buckets decides. */
  lemma AdmittedIffRoom(s: Store, c: ReserveCall)
    requires Fold(s.log).Ok? && (DecideReserve(s, c).Appended? || DecideReserve(s, c).OverBudget?)
    ensures DecideReserve(s, c).Appended? <==> RoomForAll(Fold(s.log).value, c)
  {
    hide RoomForAll, Violations, ValidateContext, ReservationFor, ValidBook;
    RoomIsChecked(Fold(s.log).value, c);
  }

  /** The call agrees with itself: its started attempt is its own, and an input-only one is an embedding. */
  predicate ReserveFormed(c: ReserveCall) {
    && (c.started.Some? ==> c.started.value.attempt == c.attempt && c.started.value.basis == c.basis)
    && (c.basis.InputOnly? ==> c.outputEstimate == 0 && c.started.Some? && c.started.value.kind == "embedding")
  }

  /** A new attempt is reserved if and only if the call is well formed, owned, and has room in its buckets. */
  lemma ReservedIff(s: Store, c: ReserveCall)
    requires Fold(s.log).Ok? && c.attempt !in Fold(s.log).value.items
    ensures var b := Fold(s.log).value;
            DecideReserve(s, c).Appended? <==>
              && ReserveFormed(c) && c.session in s.sessions
              && ValidateContext(s, c.session, c.run, c.context, b).None? && RoomForAll(b, c)
              && (c.started.Some? ==> StoreTakes(s, c.session, Some(c.run)))
  {
    hide RoomForAll, Violations, ValidateContext, Scopes, ValidBook;
    RoomIsChecked(Fold(s.log).value, c);
  }

  lemma ReservesOne(s: Store, b: Book, c: ReserveCall)
    requires ValidBook(b) && ReserveIn(s, b, c).Appended?
    ensures c.attempt !in b.items && IsMark(ReserveIn(s, b, c).mark)
    ensures ReserveIn(s, b, c).fact == Reserved(ReservationFor(c)) && ReservationFor(c).attempt == c.attempt
  {
  }

  lemma NewItem(b: Book, p: Reservation)
    requires ValidBook(b) && p.attempt !in b.items
    ensures var c := b.(order := b.order + [p.attempt], items := b.items[p.attempt := Item(p, None, None)]);
            Apply(b, Reserved(p)) == Ok(c) && ValidBook(c)
    ensures Amount(Item(p, None, None)) == (p.reserved, None, Unsettled) && Charge(Item(p, None, None)) == p.reserved
  {
    ApplyValid(b, Reserved(p));
  }

  lemma NewCharge(b: Book, c: Book, p: Reservation, k: Scope)
    requires ValidBook(b) && ValidBook(c) && p.attempt !in b.items && Charge(Item(p, None, None)) == p.reserved
    requires c == b.(order := b.order + [p.attempt], items := b.items[p.attempt := Item(p, None, None)])
    ensures BucketOf(c, k).committed == BucketOf(b, k).committed + if k in p.scopes then p.reserved else 0
  {
    hide Charge, Amount;
    SumInsert(b.order, b.items, p.attempt, Item(p, None, None), InScope(k), Charged);
  }

  /** An admitted reservation holds the sum of its estimates in exactly the buckets of the request. */
  lemma ReservationCharges(s: Store, c: ReserveCall, k: Scope)
    requires Fold(s.log).Ok? && DecideReserve(s, c).Appended?
    ensures var b, after := Fold(s.log).value, Fold(s.log + Additions(DecideReserve(s, c)));
            var estimate := c.inputEstimate + c.outputEstimate;
            && after.Ok? && c.attempt !in b.items && c.attempt in after.value.items
            && Amount(after.value.items[c.attempt]) == (estimate, None, Unsettled)
            && BucketOf(after.value, k).committed
               == BucketOf(b, k).committed + if ChargedTo(c, k) then estimate else 0
  {
    hide ReserveIn, Apply, Amount, Charge, ValidBook, BucketOf, ChargedTo, Scopes;
    var b, d, p := Fold(s.log).value, DecideReserve(s, c), ReservationFor(c);
    ReservesOne(s, b, c);
    FoldWithMark(s.log, d.fact, d.mark);
    NewItem(b, p);
    NewCharge(b, Apply(b, d.fact).value, p, k);
    ScopesAreCharged(c, k);
  }

  /** A replayed reservation is for the same Run, owner and estimates, and for the same time if one is given. */
  lemma ReplayIsSameRequest(s: Store, c: ReserveCall)
    requires Fold(s.log).Ok? && DecideReserve(s, c).Replayed?
    ensures c.attempt in Fold(s.log).value.items
    ensures var p := Fold(s.log).value.items[c.attempt].reservation;
            && p.attempt == c.attempt && p.run == c.run && p.session == c.session && p.context == c.context
            && p.inputEstimate == c.inputEstimate && p.outputEstimate == c.outputEstimate
            && p.estimateMethod == c.estimateMethod && p.basis == c.basis
            && (c.at.Some? ==> p.reservedAt == c.at.value)
  {
  }

  // ---------------------------------------------------------------- buckets and receipts

  /** A configuration sets one scope's limit and charges nothing. */
  lemma ConfigurationLimits(s: Store, session: string, c: Configuration, k: Scope)
    requires Fold(s.log).Ok? && DecideConfigure(s, session, c).Appended?
    ensures var b, after := Fold(s.log).value, Fold(s.log + Additions(DecideConfigure(s, session, c)));
            && after.Ok? && BucketOf(after.value, k).committed == BucketOf(b, k).committed
            && BucketOf(after.value, k).limit == if k == c.scope then c.limit else BucketOf(b, k).limit
  {
    FoldWithMark(s.log, Configured(c), []);
  }

  /** A bucket is blocked when nothing remains, and warns when at most a fifth does. */
  lemma BucketReads(b: Book, k: Scope)
    requires ValidBook(b)
    ensures var bucket := BucketOf(b, k);
            && bucket.committed == bucket.actual + bucket.held
            && (bucket.limit.None? ==> bucket.remaining.None? && !bucket.blocked && !bucket.warning)
            && (bucket.limit.Some? ==>
                  && bucket.remaining == Some(Max(bucket.limit.value - bucket.committed, 0))
                  && (bucket.blocked <==> bucket.remaining == Some(0))
                  && (bucket.warning <==> bucket.remaining.value * 5 <= bucket.limit.value))
  {
    SumSplit(b.order, b.items, InScope(k));
  }

  lemma {:induction false} WarningsExact(buckets: seq<Bucket>)
    ensures forall x :: x in Warnings(buckets) <==> x in buckets && x.warning
  {
    if buckets != [] {
      WarningsExact(buckets[1..]);
      assert buckets == [buckets[0]] + buckets[1..];
    }
  }

  lemma {:induction false} BucketsInOrder(b: Book, scopes: seq<Scope>)
    requires ValidBook(b)
    ensures |BucketsOf(b, scopes)| == |scopes|
    ensures forall i :: 0 <= i < |scopes| ==> BucketsOf(b, scopes)[i] == BucketOf(b, scopes[i])
  {
    if scopes != [] {
      BucketsInOrder(b, scopes[..|scopes| - 1]);
    }
  }

  /** A receipt lists the bucket of each charged scope in order, and warns of exactly those that warn. */
  lemma ReceiptReads(b: Book, attempt: string)
    requires ValidBook(b) && attempt in b.items
    ensures var r, p := ReceiptOf(b, attempt), b.items[attempt].reservation;
            && r.attempt == attempt && r.run == p.run && r.reserved == p.reserved
            && (r.actual.Some? <==> r.status != Unsettled)
            && |r.buckets| == |p.scopes|
            && (forall i :: 0 <= i < |p.scopes| ==> r.buckets[i] == BucketOf(b, p.scopes[i]))
            && forall x :: x in r.warnings <==> x in r.buckets && x.warning
  {
    BucketsInOrder(b, b.items[attempt].reservation.scopes);
    WarningsExact(ReceiptOf(b, attempt).buckets);
  }
}
