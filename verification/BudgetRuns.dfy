/** What holds of the token budget over every run of the ledger, whatever else is written meanwhile. */
module BudgetRuns {
  import opened Common
  import opened Budgets
  import opened Ownership
  import opened Ledger

  datatype Command =
    | Configure(session: string, configuration: Configuration)
    | Reserve(reserve: ReserveCall)
    | Settle(settle: SettleCall)
    | Resolve(session: string, resolution: Resolution)
    | Outside(facts: seq<Event>, runs: map<string, RunRow>, over: set<string>,
              sessions: map<string, string>, workspaces: map<string, string>)

  /** The rest of the program writes no budget facts. */
  predicate Legal(c: Command) {
    c.Outside? ==> forall e :: e in c.facts ==> !IsBudgetFact(e)
  }

  predicate AllLegal(cs: seq<Command>) {
    forall c :: c in cs ==> Legal(c)
  }

  function Decide(s: Store, c: Command): Decision
    requires !c.Outside?
  {
    match c
    case Configure(session, configuration) => DecideConfigure(s, session, configuration)
    case Reserve(call) => DecideReserve(s, call)
    case Settle(call) => DecideSettle(s, call)
    case Resolve(session, resolution) => DecideResolve(s, session, resolution)
  }

  /** The decision once the log is folded and the session is known. */
  function DecideIn(s: Store, b: Book, c: Command): Decision
    requires !c.Outside? && ValidBook(b)
  {
    match c
    case Configure(_, configuration) => ConfigureIn(b, configuration)
    case Reserve(call) => ReserveIn(s, b, call)
    case Settle(call) => SettleIn(b, call)
    case Resolve(session, resolution) => ResolveIn(b, session, resolution)
  }

  lemma DecideByBook(s: Store, c: Command)
    requires Fold(s.log).Ok? && !c.Outside?
    ensures Decide(s, c) == DecideIn(s, Fold(s.log).value, c) || Decide(s, c).Refused?
    ensures Admissible(s, c) ==>
              || Decide(s, c) == DecideIn(s, Fold(s.log).value, c)
              || (DecideIn(s, Fold(s.log).value, c).Appended? && Decide(s, c).Refused?)
    ensures !Admissible(s, c) ==> Decide(s, c).Refused?
  {
  }

  predicate Admissible(s: Store, c: Command) {
    match c
    case Configure(session, _) => session in s.sessions
    case Reserve(r) => ReserveProblem(r).None? && r.session in s.sessions
    case Settle(p) => SettleProblem(p).None? && p.session in s.sessions
    case Resolve(session, _) => session in s.sessions
    case Outside(_, _, _, _, _) => false
  }

  /** Outside activity may add facts and rows and end Runs; rows that exist are never rewritten. */
  function Exec(s: Store, c: Command): Store {
    match c
    case Outside(facts, runs, over, sessions, workspaces) =>
      Store(s.log + facts, runs + s.runs, s.over + over, sessions + s.sessions, workspaces + s.workspaces)
    case _ =>
      var d := Decide(s, c);
      if d.Appended? then s.(log := s.log + Additions(d)) else s
  }

  function Run(s: Store, cs: seq<Command>): Store {
    if cs == [] then s else Exec(Run(s, cs[..|cs| - 1]), cs[|cs| - 1])
  }

  /** A store in which the ledger has not been used yet. */
  ghost predicate Untouched(s: Store) {
    forall e :: e in s.log ==> !IsBudgetFact(e)
  }

  // ---------------------------------------------------------------- the log always folds

  lemma {:induction false} FoldOutside(log: seq<Event>, facts: seq<Event>)
    requires forall e :: e in facts ==> !IsBudgetFact(e)
    ensures Fold(log + facts) == Fold(log)
    decreases |facts|
  {
    if facts == [] {
      assert log + facts == log;
    } else {
      var n := |facts| - 1;
      FoldOutside(log, facts[..n]);
      assert facts[n] in facts;
      assert log + facts == log + facts[..n] + [facts[n]];
      FoldAppend(log + facts[..n], facts[n]);
    }
  }

  ghost predicate Applies(b: Book, d: Decision, reserves: bool) {
    d.Appended? && IsBudgetFact(d.fact) && IsMark(d.mark) && Apply(b, d.fact).Ok? && (d.fact.Reserved? <==> reserves)
  }

  lemma ReserveApplies(s: Store, b: Book, c: ReserveCall)
    requires ValidBook(b) && ReserveIn(s, b, c).Appended?
    ensures Applies(b, ReserveIn(s, b, c), true)
  {
  }

  lemma SettleApplies(b: Book, c: SettleCall)
    requires SettleIn(b, c).Appended?
    ensures Applies(b, SettleIn(b, c), false)
  {
  }

  lemma ResolveApplies(b: Book, session: string, p: Resolution)
    requires ValidBook(b) && ResolveIn(b, session, p).Appended?
    ensures Applies(b, ResolveIn(b, session, p), false)
  {
  }

  /** An accepted change is one budget fact that the folded book takes without an error. */
  lemma ChangeApplies(s: Store, b: Book, c: Command)
    requires ValidBook(b) && !c.Outside? && DecideIn(s, b, c).Appended?
    ensures var d := DecideIn(s, b, c);
            && IsBudgetFact(d.fact) && IsMark(d.mark) && Apply(b, d.fact).Ok?
            && (d.fact.Reserved? <==> c.Reserve?)
  {
    hide ReserveIn, SettleIn, ResolveIn, ValidBook;
    match c {
      case Reserve(call) => ReserveApplies(s, b, call);
      case Settle(call) => SettleApplies(b, call);
      case Resolve(session, resolution) => ResolveApplies(b, session, resolution);
      case Configure(_, _) =>
    }
  }

  lemma DecisionApplies(s: Store, c: Command)
    requires Fold(s.log).Ok? && !c.Outside? && Decide(s, c).Appended?
    ensures var b, d := Fold(s.log).value, Decide(s, c);
            && d == DecideIn(s, b, c) && Apply(b, d.fact).Ok?
            && Fold(s.log + Additions(d)) == Apply(b, d.fact)
  {
    DecideByBook(s, c);
    ChangeApplies(s, Fold(s.log).value, c);
    FoldWithMark(s.log, Decide(s, c).fact, Decide(s, c).mark);
  }

  /** One command leaves the book alone or applies exactly its own fact. */
  lemma ExecBook(s: Store, c: Command)
    requires Fold(s.log).Ok? && Legal(c)
    ensures Fold(Exec(s, c).log).Ok?
    ensures Fold(Exec(s, c).log)
         == if !c.Outside? && Decide(s, c).Appended?
            then Apply(Fold(s.log).value, Decide(s, c).fact)
            else Fold(s.log)
  {
    if c.Outside? {
      FoldOutside(s.log, c.facts);
    } else if Decide(s, c).Appended? {
      DecisionApplies(s, c);
    }
  }

  /** No log built by the ledger makes the projection raise. */
  lemma {:induction false} LedgerLogsFold(s: Store, cs: seq<Command>)
    requires Untouched(s) && AllLegal(cs)
    ensures Fold(Run(s, cs).log).Ok?
  {
    if cs == [] {
      assert [] + s.log == s.log;
      FoldOutside([], s.log);
    } else {
      LedgerLogsFold(s, cs[..|cs| - 1]);
      ExecBook(Run(s, cs[..|cs| - 1]), cs[|cs| - 1]);
    }
  }

  // ---------------------------------------------------------------- safety

  predicate Touches(e: Event, k: Scope) {
    e.Reserved? && k in e.reservation.scopes
  }

  /** The limit on `k` in force when its latest reservation was admitted, if there was one. */
  function AdmissionLimit(log: seq<Event>, k: Scope): Option<nat> {
    if log == [] then None
    else if Touches(log[|log| - 1], k) then
      match Fold(log[..|log| - 1])
      case Ok(b) => LimitOf(b, k)
      case Err(_) => None
    else AdmissionLimit(log[..|log| - 1], k)
  }

  lemma {:induction false} AdmissionLimitFrame(log: seq<Event>, facts: seq<Event>, k: Scope)
    requires forall e :: e in facts ==> !Touches(e, k)
    ensures AdmissionLimit(log + facts, k) == AdmissionLimit(log, k)
    decreases |facts|
  {
    if facts == [] {
      assert log + facts == log;
    } else {
      var n := |facts| - 1;
      AdmissionLimitFrame(log, facts[..n], k);
      assert (log + facts)[..|log + facts| - 1] == log + facts[..n];
      assert facts[n] in facts;
    }
  }

  ghost predicate Bounded(log: seq<Event>, k: Scope) {
    Fold(log).Ok? && (AdmissionLimit(log, k).Some? ==>
      Total(Fold(log).value, InScope(k), Capped) <= AdmissionLimit(log, k).value)
  }

  /** What the ledger has checked before it settles or resolves an attempt. */
  lemma AcceptedChange(s: Store, b: Book, c: Command)
    requires ValidBook(b) && (c.Settle? || c.Resolve?) && DecideIn(s, b, c).Appended?
    ensures ChangesUnknown(b, DecideIn(s, b, c).fact)
  {
  }

  /** The event settles or resolves an attempt of which the usage is not known yet. */
  predicate ChangesUnknown(b: Book, e: Event) {
    match e
    case Settled(p) => p.attempt in b.items && Amount(b.items[p.attempt]).1.None?
    case Resolved(p) => p.attempt in b.items && Amount(b.items[p.attempt]).1.None?
    case _ => false
  }

  /** Within its reservation, an attempt's charge never grows when its usage becomes known. */
  lemma ItemNeverGrows(item: Item, next: Item)
    requires Amount(item).1.None? && next.reservation == item.reservation
    ensures FigureOf(Capped, next) <= FigureOf(Capped, item)
  {
  }

  lemma ChangedItem(b: Book, e: Event, a: string)
    requires ValidBook(b) && Apply(b, e).Ok? && ChangesUnknown(b, e)
    requires a == if e.Settled? then e.settlement.attempt else e.resolution.attempt
    ensures var c := Apply(b, e).value;
            && c.order == b.order && a in c.items && c.items == b.items[a := c.items[a]]
            && c.items[a].reservation == b.items[a].reservation && Amount(b.items[a]).1.None?
  {
    assert b.items == b.items[a := b.items[a]];
  }

  lemma ChangeNeverGrows(b: Book, e: Event, k: Scope)
    requires ValidBook(b) && Apply(b, e).Ok? && ValidBook(Apply(b, e).value)
    requires ChangesUnknown(b, e)
    ensures Total(Apply(b, e).value, InScope(k), Capped) <= Total(b, InScope(k), Capped)
  {
    var a := if e.Settled? then e.settlement.attempt else e.resolution.attempt;
    ChangedItem(b, e, a);
    ItemNeverGrows(b.items[a], Apply(b, e).value.items[a]);
    SumUpdate(b.order, b.items, a, Apply(b, e).value.items[a], InScope(k), Capped);
  }

  lemma {:induction false} ViolationsComplete(b: Book, scopes: seq<Scope>, requested: nat, k: Scope)
    requires ValidBook(b) && Violations(b, scopes, requested) == [] && k in scopes
    ensures !Violates(BucketOf(b, k), requested)
  {
    if k != scopes[|scopes| - 1] {
      ViolationsComplete(b, scopes[..|scopes| - 1], requested, k);
    }
  }

  /** What the ledger has checked before it admits a reservation. */
  lemma Admitted(s: Store, b: Book, p: Reservation, started: bool)
    requires ValidBook(b) && Admit(s, b, p, started).Appended?
    ensures Admit(s, b, p, started)
         == Appended(Reserved(p), if started then [AttemptStarted(p.attempt)] else [])
    ensures Violations(b, p.scopes, p.reserved) == []
    ensures !FamilyConflict(b.order, b.items, p.context)
    ensures p.context.project.None? ==> p.context.root == p.run && p.context.delivery.None?
  {
  }

  lemma AcceptedReserve(s: Store, b: Book, c: ReserveCall)
    requires ValidBook(b) && ReserveIn(s, b, c).Appended?
    ensures c.attempt !in b.items
    ensures ReserveIn(s, b, c) == Admit(s, b, ReservationFor(c), c.started.Some?)
  {
  }

  lemma CappedInsert(b: Book, p: Reservation, k: Scope)
    requires ValidBook(b) && p.attempt !in b.items
    ensures Apply(b, Reserved(p)) == Ok(Inserted(b, p)) && ValidBook(Inserted(b, p))
    ensures Total(Inserted(b, p), InScope(k), Capped)
         == Total(b, InScope(k), Capped) + if k in p.scopes then p.reserved else 0
  {
    ApplyValid(b, Reserved(p));
    FreshItem(p, k);
    SumInsert(b.order, b.items, p.attempt, Item(p, None, None), InScope(k), Capped);
  }

  function Inserted(b: Book, p: Reservation): Book {
    b.(order := b.order + [p.attempt], items := b.items[p.attempt := Item(p, None, None)])
  }

  lemma FreshItem(p: Reservation, k: Scope)
    ensures Weight(InScope(k), Capped, Item(p, None, None)) == if k in p.scopes then p.reserved else 0
  {
  }

  lemma FitsLimit(b: Book, p: Reservation, k: Scope)
    requires ValidBook(b) && k in p.scopes && Violations(b, p.scopes, p.reserved) == []
    requires LimitOf(b, k).Some?
    ensures Total(b, InScope(k), Capped) + p.reserved <= LimitOf(b, k).value
  {
    ViolationsComplete(b, p.scopes, p.reserved, k);
    SumSplit(b.order, b.items, InScope(k));
  }

  /** After the insertion the capped total is within the limit that then counts, as it was before. */
  lemma InsertedFits(b: Book, p: Reservation, k: Scope, limit: Option<nat>)
    requires ValidBook(b) && p.attempt !in b.items && Violations(b, p.scopes, p.reserved) == []
    requires limit.Some? ==> Total(b, InScope(k), Capped) <= limit.value
    ensures Apply(b, Reserved(p)) == Ok(Inserted(b, p)) && ValidBook(Inserted(b, p))
    ensures var next := if k in p.scopes then LimitOf(b, k) else limit;
            next.Some? ==> Total(Inserted(b, p), InScope(k), Capped) <= next.value
  {
    CappedInsert(b, p, k);
    if k in p.scopes && LimitOf(b, k).Some? {
      FitsLimit(b, p, k);
    }
  }

  lemma AdmitKeepsBound(s: Store, p: Reservation, started: bool, k: Scope)
    requires Bounded(s.log, k) && p.attempt !in Fold(s.log).value.items
    requires Admit(s, Fold(s.log).value, p, started).Appended?
    ensures Bounded(s.log + Additions(Admit(s, Fold(s.log).value, p, started)), k)
  {
    hide Admit, Apply, AdmissionLimit, Violations, Total, LimitOf, ValidBook;
    var b := Fold(s.log).value;
    var mark := if started then [AttemptStarted(p.attempt)] else [];
    Admitted(s, b, p, started);
    FoldWithMark(s.log, Reserved(p), mark);
    InsertedFits(b, p, k, AdmissionLimit(s.log, k));
    AdmissionLimitAfter(s.log, p, mark, k);
  }

  lemma AdmissionLimitAfter(log: seq<Event>, p: Reservation, mark: seq<Event>, k: Scope)
    requires Fold(log).Ok? && forall e :: e in mark ==> !Touches(e, k)
    ensures AdmissionLimit(log + ([Reserved(p)] + mark), k)
         == if k in p.scopes then LimitOf(Fold(log).value, k) else AdmissionLimit(log, k)
  {
    var first := log + [Reserved(p)];
    Associate(log, [Reserved(p)], mark);
    assert first[..|first| - 1] == log;
    AdmissionLimitFrame(first, mark, k);
  }

  /** A change that is no reservation of `k` keeps the limit and raises no capped charge. */
  lemma ChangeKeepsBound(s: Store, c: Command, k: Scope)
    requires Bounded(s.log, k) && !c.Outside? && !c.Reserve? && Decide(s, c).Appended?
    ensures Bounded(s.log + Additions(Decide(s, c)), k)
  {
    var b, d := Fold(s.log).value, Decide(s, c);
    DecisionApplies(s, c);
    NoCappedGrowth(s, b, c, k);
    MarksTouchNothing(d, k);
    AdmissionLimitFrame(s.log, Additions(d), k);
  }

  lemma MarksTouchNothing(d: Decision, k: Scope)
    requires d.Appended? && !d.fact.Reserved? && IsMark(d.mark)
    ensures forall e :: e in Additions(d) ==> !Touches(e, k)
  {
  }

  lemma NoCappedGrowth(s: Store, b: Book, c: Command, k: Scope)
    requires ValidBook(b) && !c.Outside? && !c.Reserve? && DecideIn(s, b, c).Appended?
    ensures var d := DecideIn(s, b, c);
            && !d.fact.Reserved? && IsMark(d.mark)
            && Apply(b, d.fact).Ok? && ValidBook(Apply(b, d.fact).value)
            && Total(Apply(b, d.fact).value, InScope(k), Capped) <= Total(b, InScope(k), Capped)
  {
    var d := DecideIn(s, b, c);
    ChangeApplies(s, b, c);
    ApplyValid(b, d.fact);
    if c.Configure? {
      SameItemsSameTotal(b, Apply(b, d.fact).value, k);
    } else {
      AcceptedChange(s, b, c);
      ChangeNeverGrows(b, d.fact, k);
    }
  }

  lemma SameItemsSameTotal(b: Book, c: Book, k: Scope)
    requires ValidBook(b) && ValidBook(c) && b.order == c.order && b.items == c.items
    ensures Total(b, InScope(k), Capped) == Total(c, InScope(k), Capped)
  {
  }

  lemma ExecKeepsBound(s: Store, c: Command, k: Scope)
    requires Bounded(s.log, k) && Legal(c)
    ensures Bounded(Exec(s, c).log, k)
  {
    if c.Outside? {
      FoldOutside(s.log, c.facts);
      AdmissionLimitFrame(s.log, c.facts, k);
    } else if Decide(s, c).Appended? {
      if c.Reserve? {
        DecideByBook(s, c);
        AcceptedReserve(s, Fold(s.log).value, c.reserve);
        AdmitKeepsBound(s, ReservationFor(c.reserve), c.reserve.started.Some?, k);
      } else {
        ChangeKeepsBound(s, c, k);
      }
    }
  }

  lemma {:induction false} RunKeepsBound(s: Store, cs: seq<Command>, k: Scope)
    requires Untouched(s) && AllLegal(cs)
    ensures Bounded(Run(s, cs).log, k)
  {
    if cs == [] {
      LedgerLogsFold(s, []);
      assert forall e :: e in s.log ==> !Touches(e, k);
      assert [] + s.log == s.log;
      AdmissionLimitFrame([], s.log, k);
    } else {
      RunKeepsBound(s, cs[..|cs| - 1], k);
      ExecKeepsBound(Run(s, cs[..|cs| - 1]), cs[|cs| - 1], k);
    }
  }

  /**
   * Safety of every bucket over every run: what a scope is charged within its reservations never
   * exceeds the limit under which its latest reservation was admitted, so only tokens spent beyond
   * an attempt's own reservation can take the committed total past that limit.
   */
  lemma BudgetSafety(s: Store, cs: seq<Command>, k: Scope)
    requires Untouched(s) && AllLegal(cs)
    ensures var log := Run(s, cs).log;
            && Fold(log).Ok?
            && var b := Fold(log).value;
            && (AdmissionLimit(log, k).Some? ==>
                  && Total(b, InScope(k), Capped) <= AdmissionLimit(log, k).value
                  && BucketOf(b, k).committed
                       <= AdmissionLimit(log, k).value + Total(b, InScope(k), Excess))
  {
    RunKeepsBound(s, cs, k);
    var b := Fold(Run(s, cs).log).value;
    SumSplit(b.order, b.items, InScope(k));
  }

  ghost predicate Touched(log: seq<Event>, k: Scope) {
    exists e :: e in log && Touches(e, k)
  }

  /** The limit on `k` is set before its first reservation and afterwards only raised. */
  ghost predicate OnlyRaised(log: seq<Event>, k: Scope) {
    log == [] ||
    var before, e := log[..|log| - 1], log[|log| - 1];
    && OnlyRaised(before, k)
    && Fold(before).Ok?
    && var limit := LimitOf(Fold(before).value, k);
    && (Touches(e, k) ==> limit.Some?)
    && (e.Configured? && e.configuration.scope == k && Touched(before, k) ==>
          limit.Some? && e.configuration.limit.Some? && limit.value <= e.configuration.limit.value)
  }

  lemma {:induction false} RaisedLimitCovers(log: seq<Event>, k: Scope)
    requires OnlyRaised(log, k) && Fold(log).Ok? && Touched(log, k)
    ensures LimitOf(Fold(log).value, k).Some? && AdmissionLimit(log, k).Some?
    ensures AdmissionLimit(log, k).value <= LimitOf(Fold(log).value, k).value
  {
    var before, e := log[..|log| - 1], log[|log| - 1];
    assert log == before + [e];
    FoldAppend(before, e);
    LimitAfter(Fold(before).value, e, k);
    if !Touches(e, k) {
      var t :| t in log && Touches(t, k);
      assert t in before;
      RaisedLimitCovers(before, k);
    }
  }

  /** Only a configuration of `k` changes its limit, and only to what it says. */
  lemma LimitAfter(b: Book, e: Event, k: Scope)
    requires Apply(b, e).Ok?
    ensures LimitOf(Apply(b, e).value, k) == LimitOf(b, k)
         || (e.Configured? && e.configuration.scope == k
             && LimitOf(Apply(b, e).value, k) == e.configuration.limit)
  {
  }

  lemma {:induction false} UntouchedTotal(log: seq<Event>, k: Scope)
    requires Fold(log).Ok? && !Touched(log, k)
    ensures NoneInScope(Fold(log).value, k)
  {
    if log != [] {
      var before, e := log[..|log| - 1], log[|log| - 1];
      assert log == before + [e];
      assert !Touches(e, k);
      forall x | x in before ensures !Touches(x, k) {
        assert x in log;
      }
      UntouchedTotal(before, k);
      FoldAppend(before, e);
      ApplyOutOfScope(Fold(before).value, e, k);
    }
  }

  ghost predicate NoneInScope(b: Book, k: Scope) {
    forall a :: a in b.items ==> k !in b.items[a].reservation.scopes
  }

  lemma ApplyOutOfScope(b: Book, e: Event, k: Scope)
    requires NoneInScope(b, k) && !Touches(e, k) && Apply(b, e).Ok?
    ensures NoneInScope(Apply(b, e).value, k)
  {
  }

  lemma {:induction false} EmptyFamily(order: seq<string>, items: map<string, Item>, k: Scope, g: Figure)
    requires forall a :: a in order ==> a in items && k !in items[a].reservation.scopes
    ensures Sum(order, items, InScope(k), g) == 0
  {
    if order != [] {
      EmptyFamily(order[..|order| - 1], items, k, g);
    }
  }

  /** With a limit set first and only raised since, the scope stays within its current limit. */
  lemma RaisedLimitSafety(s: Store, cs: seq<Command>, k: Scope)
    requires Untouched(s) && AllLegal(cs)
    requires OnlyRaised(Run(s, cs).log, k)
    ensures var log := Run(s, cs).log;
            && Fold(log).Ok?
            && var b := Fold(log).value;
            && (LimitOf(b, k).Some? ==>
                  && Total(b, InScope(k), Capped) <= LimitOf(b, k).value
                  && BucketOf(b, k).committed
                       <= LimitOf(b, k).value + Total(b, InScope(k), Excess))
  {
    var log := Run(s, cs).log;
    BudgetSafety(s, cs, k);
    var b := Fold(log).value;
    if Touched(log, k) {
      RaisedLimitCovers(log, k);
    } else {
      UntouchedTotal(log, k);
      EmptyFamily(b.order, b.items, k, Capped);
      EmptyFamily(b.order, b.items, k, Charged);
    }
  }

  // ---------------------------------------------------------------- replays

  /** What later facts may never undo: configurations, reservations, changes, resolutions. */
  ghost predicate KeepsBook(b: Book, c: Book) {
    && (forall q :: q in b.requests ==> q in c.requests && c.requests[q] == b.requests[q])
    && (forall a :: a in b.items ==> a in c.items && c.items[a].reservation == b.items[a].reservation)
    && b.seen <= c.seen
    && (forall a :: a in b.items && b.items[a].resolution.Some? ==>
          c.items[a].resolution == b.items[a].resolution)
  }

  ghost predicate Keeps(s: Store, t: Store) {
    && Fold(s.log).Ok? && Fold(t.log).Ok?
    && (forall x :: x in s.sessions ==> x in t.sessions)
    && KeepsBook(Fold(s.log).value, Fold(t.log).value)
  }

  lemma ApplyKeepsBook(b: Book, e: Event)
    requires Apply(b, e).Ok?
    ensures KeepsBook(b, Apply(b, e).value)
  {
  }

  lemma ExecKeeps(s: Store, c: Command)
    requires Fold(s.log).Ok? && Legal(c)
    ensures Keeps(s, Exec(s, c))
  {
    ExecBook(s, c);
    if !c.Outside? && Decide(s, c).Appended? {
      DecisionApplies(s, c);
      ApplyKeepsBook(Fold(s.log).value, Decide(s, c).fact);
    }
  }

  lemma {:induction false} RunKeeps(s: Store, cs: seq<Command>)
    requires Fold(s.log).Ok? && AllLegal(cs)
    ensures Keeps(s, Run(s, cs))
  {
    if cs != [] {
      var t := Run(s, cs[..|cs| - 1]);
      RunKeeps(s, cs[..|cs| - 1]);
      assert cs[|cs| - 1] in cs;
      ExecKeeps(t, cs[|cs| - 1]);
    }
  }

  /** The book already holds what the command asks for. */
  ghost predicate Recorded(b: Book, c: Command)
    requires ValidBook(b)
  {
    match c
    case Configure(_, q) => q.request in b.requests && b.requests[q.request] == q
    case Reserve(r) =>
      r.attempt in b.items && SameRequest(b.items[r.attempt].reservation, r)
    case Settle(p) =>
      && p.attempt in b.items && SettleMismatch(b.items[p.attempt], p).None?
      && Settling(SettlementFor(p, b.items[p.attempt].reservation.basis)) in b.seen
    case Resolve(session, p) =>
      && p.attempt in b.items && b.items[p.attempt].reservation.session == session
      && b.items[p.attempt].resolution == Some(p)
    case Outside(_, _, _, _, _) => false
  }

  /** The ledger answers with a replay exactly when its book already holds what is asked for. */
  lemma ReplayedIffRecorded(s: Store, c: Command)
    requires Fold(s.log).Ok? && !c.Outside?
    ensures Decide(s, c).Replayed? <==> Admissible(s, c) && Recorded(Fold(s.log).value, c)
  {
    DecideByBook(s, c);
    ReplayedIn(s, Fold(s.log).value, c);
  }

  lemma ReplayedIn(s: Store, b: Book, c: Command)
    requires ValidBook(b) && !c.Outside?
    ensures DecideIn(s, b, c).Replayed? <==> Recorded(b, c)
  {
  }

  lemma AppendedIsRecorded(s: Store, b: Book, c: Command)
    requires ValidBook(b) && !c.Outside? && DecideIn(s, b, c).Appended?
    ensures var r := Apply(b, DecideIn(s, b, c).fact);
            r.Ok? && ValidBook(r.value) && Recorded(r.value, c)
  {
    ChangeApplies(s, b, c);
    ApplyValid(b, DecideIn(s, b, c).fact);
    match c {
      case Reserve(call) =>
        AcceptedReserve(s, b, call);
        Admitted(s, b, ReservationFor(call), call.started.Some?);
        RecordedReserve(b, call);
      case Settle(call) =>
        RecordedSettle(b, call);
      case Resolve(_, _) =>
        AcceptedChange(s, b, c);
      case Configure(_, _) =>
    }
  }

  lemma RecordedReserve(b: Book, c: ReserveCall)
    requires ValidBook(b) && c.attempt !in b.items
    ensures var r := Apply(b, Reserved(ReservationFor(c)));
            && r.Ok? && c.attempt in r.value.items
            && SameRequest(r.value.items[c.attempt].reservation, c)
  {
  }

  lemma RecordedSettle(b: Book, c: SettleCall)
    requires ValidBook(b) && SettleIn(b, c).Appended?
    ensures var p := SettlementFor(c, b.items[c.attempt].reservation.basis);
            var r := Apply(b, Settled(p));
            && SettleIn(b, c).fact == Settled(p)
            && r.Ok? && Settling(p) in r.value.seen
            && c.attempt in r.value.items
            && r.value.items[c.attempt].reservation == b.items[c.attempt].reservation
            && SettleMismatch(r.value.items[c.attempt], c).None?
  {
  }

  /** An accepted command, made again at once, is a replay. */
  lemma AcceptedIsRecorded(s: Store, c: Command)
    requires Fold(s.log).Ok? && !c.Outside?
    requires Decide(s, c).Appended? || Decide(s, c).Replayed?
    ensures Fold(Exec(s, c).log).Ok? && Decide(Exec(s, c), c) == Replayed
  {
    ExecBook(s, c);
    if Decide(s, c).Appended? {
      DecideByBook(s, c);
      AppendedIsRecorded(s, Fold(s.log).value, c);
      ReplayedIffRecorded(Exec(s, c), c);
    }
  }

  lemma RecordedIsKept(b: Book, d: Book, c: Command)
    requires ValidBook(b) && ValidBook(d) && KeepsBook(b, d) && Recorded(b, c)
    ensures Recorded(d, c)
  {
  }

  lemma ReplayStays(s: Store, t: Store, c: Command)
    requires !c.Outside? && Keeps(s, t) && Decide(s, c) == Replayed
    ensures Decide(t, c) == Replayed
  {
    ReplayedIffRecorded(s, c);
    RecordedIsKept(Fold(s.log).value, Fold(t.log).value, c);
    ReplayedIffRecorded(t, c);
  }

  /**
   * Repeating any accepted call, after any later history, appends nothing: the store, and with it
   * every bucket, is exactly what it was.
   */
  lemma ReplayIsSilent(s: Store, before: seq<Command>, c: Command, later: seq<Command>)
    requires Untouched(s) && AllLegal(before) && AllLegal(later) && !c.Outside?
    requires var d := Decide(Run(s, before), c); d.Appended? || d.Replayed?
    ensures var t := Run(Exec(Run(s, before), c), later);
            Decide(t, c) == Replayed && Exec(t, c) == t
  {
    LedgerLogsFold(s, before);
    var r := Run(s, before);
    AcceptedIsRecorded(r, c);
    RunKeeps(Exec(r, c), later);
    ReplayStays(Exec(r, c), Run(Exec(r, c), later), c);
  }

  // ---------------------------------------------------------------- conservation

  /** Every reservation carries the scopes of its own context; a Run family has one context. */
  ghost predicate Owned(b: Book) {
    && (forall a :: a in b.items ==>
          var r := b.items[a].reservation;
          && r.scopes == Scopes(r.context, r.run, r.reservedAt)
          && (r.context.project.None? ==> r.context.root == r.run && r.context.delivery.None?))
    && (forall a, c :: a in b.items && c in b.items
                       && b.items[a].reservation.context.root == b.items[c].reservation.context.root ==>
          b.items[a].reservation.context == b.items[c].reservation.context)
  }

  lemma OwnedInsert(b: Book, p: Reservation)
    requires ValidBook(b) && Owned(b) && p.attempt !in b.items
    requires p.scopes == Scopes(p.context, p.run, p.reservedAt)
    requires p.context.project.None? ==> p.context.root == p.run && p.context.delivery.None?
    requires !FamilyConflict(b.order, b.items, p.context)
    ensures Owned(Apply(b, Reserved(p)).value)
  {
    var c := Apply(b, Reserved(p)).value;
    forall a | a in b.items && b.items[a].reservation.context.root == p.context.root
      ensures b.items[a].reservation.context == p.context
    {
      assert a in b.order;
    }
  }

  lemma ExecKeepsOwned(s: Store, c: Command)
    requires Fold(s.log).Ok? && Legal(c) && Owned(Fold(s.log).value)
    ensures Fold(Exec(s, c).log).Ok? && Owned(Fold(Exec(s, c).log).value)
  {
    ExecBook(s, c);
    if !c.Outside? && Decide(s, c).Appended? {
      DecideByBook(s, c);
      DecisionKeepsOwned(s, Fold(s.log).value, c);
    }
  }

  lemma DecisionKeepsOwned(s: Store, b: Book, c: Command)
    requires ValidBook(b) && Owned(b) && !c.Outside? && DecideIn(s, b, c).Appended?
    ensures Apply(b, DecideIn(s, b, c).fact).Ok? && Owned(Apply(b, DecideIn(s, b, c).fact).value)
  {
    ChangeApplies(s, b, c);
    if c.Reserve? {
      AcceptedReserve(s, b, c.reserve);
      Admitted(s, b, ReservationFor(c.reserve), c.reserve.started.Some?);
      OwnedInsert(b, ReservationFor(c.reserve));
    } else {
      SameReservations(b, DecideIn(s, b, c).fact);
    }
  }

  lemma SameOwners(b: Book, e: Event)
    requires !e.Reserved? && Apply(b, e).Ok?
    ensures forall a :: a in Apply(b, e).value.items ==>
              a in b.items && Apply(b, e).value.items[a].reservation == b.items[a].reservation
  {
  }

  lemma SameReservations(b: Book, e: Event)
    requires Owned(b) && !e.Reserved? && Apply(b, e).Ok?
    ensures Owned(Apply(b, e).value)
  {
    var c := Apply(b, e).value;
    SameOwners(b, e);
    assert forall a :: a in c.items ==> c.items[a].reservation == b.items[a].reservation;
  }

  lemma {:induction false} LedgerOwnership(s: Store, cs: seq<Command>)
    requires Untouched(s) && AllLegal(cs)
    ensures Fold(Run(s, cs).log).Ok? && Owned(Fold(Run(s, cs).log).value)
  {
    if cs == [] {
      assert [] + s.log == s.log;
      FoldOutside([], s.log);
    } else {
      LedgerOwnership(s, cs[..|cs| - 1]);
      ExecKeepsOwned(Run(s, cs[..|cs| - 1]), cs[|cs| - 1]);
    }
  }

  function SumFamilies(b: Book, fs: seq<Family>, g: Figure): nat
    requires ValidBook(b)
  {
    if fs == [] then 0
    else SumFamilies(b, fs[..|fs| - 1], g) + Total(b, fs[|fs| - 1], g)
  }

  function ItemInFamilies(item: Item, fs: seq<Family>, g: Figure): nat {
    if fs == [] then 0
    else ItemInFamilies(item, fs[..|fs| - 1], g) + Weight(fs[|fs| - 1], g, item)
  }

  function SumItems(order: seq<string>, items: map<string, Item>, fs: seq<Family>, g: Figure): nat
    requires forall a :: a in order ==> a in items
  {
    if order == [] then 0
    else SumItems(order[..|order| - 1], items, fs, g)
         + ItemInFamilies(items[order[|order| - 1]], fs, g)
  }

  lemma {:induction false} SumItemsSplit(order: seq<string>, items: map<string, Item>, fs: seq<Family>, g: Figure)
    requires forall a :: a in order ==> a in items
    ensures SumItems(order, items, fs, g)
         == if fs == [] then 0
            else SumItems(order, items, fs[..|fs| - 1], g) + Sum(order, items, fs[|fs| - 1], g)
  {
    if order != [] {
      SumItemsSplit(order[..|order| - 1], items, fs, g);
    }
  }

  lemma {:induction false} SumsExchange(b: Book, fs: seq<Family>, g: Figure)
    requires ValidBook(b)
    ensures SumFamilies(b, fs, g) == SumItems(b.order, b.items, fs, g)
  {
    SumItemsSplit(b.order, b.items, fs, g);
    if fs != [] {
      SumsExchange(b, fs[..|fs| - 1], g);
    }
  }

  /** An attempt selected by exactly one family of the list weighs once in it. */
  lemma {:induction false} WeighsOnce(item: Item, fs: seq<Family>, g: Figure)
    requires Distinct(fs)
    requires forall x, y :: x in fs && y in fs && Selects(x, item) && Selects(y, item) ==> x == y
    ensures ItemInFamilies(item, fs, g)
         == if exists f :: f in fs && Selects(f, item) then FigureOf(g, item) else 0
  {
    if fs != [] {
      var n := |fs| - 1;
      WeighsOnce(item, fs[..n], g);
      assert fs == fs[..n] + [fs[n]];
      if Selects(fs[n], item) {
        forall f | f in fs[..n] ensures !Selects(f, item) {
          assert f in fs && f != fs[n];
        }
      }
    }
  }

  lemma {:induction false} SumCovered(
    order: seq<string>, items: map<string, Item>, whole: Family, fs: seq<Family>, g: Figure)
    requires forall a :: a in order ==> a in items
    requires forall a :: a in order ==> ItemInFamilies(items[a], fs, g) == Weight(whole, g, items[a])
    ensures SumItems(order, items, fs, g) == Sum(order, items, whole, g)
  {
    if order != [] {
      SumCovered(order[..|order| - 1], items, whole, fs, g);
    }
  }

  /** Families that split a whole without overlap sum to it. */
  lemma PartitionSums(b: Book, whole: Family, fs: seq<Family>, g: Figure)
    requires ValidBook(b) && Distinct(fs)
    requires forall a, x, y ::
               (a in b.items && x in fs && y in fs
                && Selects(x, b.items[a]) && Selects(y, b.items[a])) ==> x == y
    requires forall a :: a in b.items ==>
               (Selects(whole, b.items[a]) <==> exists f :: f in fs && Selects(f, b.items[a]))
    ensures SumFamilies(b, fs, g) == Total(b, whole, g)
  {
    SumsExchange(b, fs, g);
    forall a | a in b.order
      ensures ItemInFamilies(b.items[a], fs, g) == Weight(whole, g, b.items[a])
    {
      assert a in b.items;
      WeighsOnce(b.items[a], fs, g);
    }
    SumCovered(b.order, b.items, whole, fs, g);
  }

  function RootFamilies(roots: seq<string>): seq<Family> {
    seq(|roots|, i requires 0 <= i < |roots| => OfRoot(roots[i]))
  }

  function DayFamilies(days: seq<int>): seq<Family> {
    seq(|days|, i requires 0 <= i < |days| => InScope(DayScope(days[i])))
  }

  /** A project's bucket is the sum of its root families, for every figure and every enumeration. */
  lemma ProjectConservation(s: Store, cs: seq<Command>, project: string, roots: seq<string>, g: Figure)
    requires Untouched(s) && AllLegal(cs) && Fold(Run(s, cs).log).Ok?
    requires Distinct(roots)
    requires var b := Fold(Run(s, cs).log).value;
             forall r :: r in roots <==>
               exists a :: a in b.items && b.items[a].reservation.context.root == r
                           && b.items[a].reservation.context.project == Some(project)
    ensures var b := Fold(Run(s, cs).log).value;
            SumFamilies(b, RootFamilies(roots), g) == Total(b, InScope(ProjectScope(project)), g)
  {
    LedgerOwnership(s, cs);
    RootsPartition(Fold(Run(s, cs).log).value, project, roots, g);
  }

  lemma RootsPartition(b: Book, project: string, roots: seq<string>, g: Figure)
    requires ValidBook(b) && Owned(b) && Distinct(roots)
    requires forall r :: r in roots <==>
               exists a :: a in b.items && b.items[a].reservation.context.root == r
                           && b.items[a].reservation.context.project == Some(project)
    ensures SumFamilies(b, RootFamilies(roots), g) == Total(b, InScope(ProjectScope(project)), g)
  {
    var fs := RootFamilies(roots);
    forall a | a in b.items
      ensures Selects(InScope(ProjectScope(project)), b.items[a])
         <==> exists f :: f in fs && Selects(f, b.items[a])
    {
      var root := b.items[a].reservation.context.root;
      if b.items[a].reservation.context.project == Some(project) {
        assert root in roots;
        var i :| 0 <= i < |roots| && roots[i] == root;
        assert fs[i] in fs && Selects(fs[i], b.items[a]);
      }
      if f :| f in fs && Selects(f, b.items[a]) {
        assert f == OfRoot(root) && root in roots;
        var c :| c in b.items && b.items[c].reservation.context.root == root
                 && b.items[c].reservation.context.project == Some(project);
      }
    }
    PartitionSums(b, InScope(ProjectScope(project)), fs, g);
  }

  /** All day buckets together are all charges: every reservation lies in exactly one UTC day. */
  lemma DayConservation(s: Store, cs: seq<Command>, days: seq<int>, g: Figure)
    requires Untouched(s) && AllLegal(cs) && Fold(Run(s, cs).log).Ok?
    requires Distinct(days)
    requires var b := Fold(Run(s, cs).log).value;
             forall a :: a in b.items ==> UtcDay(b.items[a].reservation.reservedAt) in days
    ensures var b := Fold(Run(s, cs).log).value;
            SumFamilies(b, DayFamilies(days), g) == Total(b, Everything, g)
  {
    LedgerOwnership(s, cs);
    DaysPartition(Fold(Run(s, cs).log).value, days, g);
  }

  lemma DaysPartition(b: Book, days: seq<int>, g: Figure)
    requires ValidBook(b) && Owned(b) && Distinct(days)
    requires forall a :: a in b.items ==> UtcDay(b.items[a].reservation.reservedAt) in days
    ensures SumFamilies(b, DayFamilies(days), g) == Total(b, Everything, g)
  {
    var fs := DayFamilies(days);
    forall a | a in b.items ensures exists f :: f in fs && Selects(f, b.items[a]) {
      var i :| 0 <= i < |days| && days[i] == UtcDay(b.items[a].reservation.reservedAt);
      OneDay(b.items[a].reservation, days[i]);
      assert fs[i] in fs && Selects(fs[i], b.items[a]);
    }
    forall a, f | a in b.items && f in fs && Selects(f, b.items[a])
      ensures f == InScope(DayScope(UtcDay(b.items[a].reservation.reservedAt)))
    {
      OneDay(b.items[a].reservation, f.scope.day);
    }
    PartitionSums(b, Everything, fs, g);
  }

  lemma OneDay(r: Reservation, day: int)
    requires r.scopes == Scopes(r.context, r.run, r.reservedAt)
    ensures DayScope(day) in r.scopes <==> day == UtcDay(r.reservedAt)
  {
    var last := DayScope(UtcDay(r.reservedAt));
    assert r.scopes[|r.scopes| - 1] == last;
  }
}
