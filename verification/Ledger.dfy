/** The four ledger operations: each folds the log, decides, and appends in one transaction. */
module Ledger {
  import opened Common
  import opened Budgets
  import opened Ownership

  datatype AttemptMark = AttemptMark(attempt: string, kind: string, basis: Basis)

  datatype ReserveCall = ReserveCall(
    session: string, run: string, attempt: string, context: Context,
    inputEstimate: nat, outputEstimate: nat, estimateMethod: string,
    at: Option<int>, now: int, started: Option<AttemptMark>, basis: Basis)

  datatype SettleCall = SettleCall(
    session: string, attempt: string, usage: map<string, nat>, source: Source,
    run: Option<string>, finished: Option<AttemptMark>)

  /** What one transaction decides: raise, refuse over budget, answer a replay, or append facts. */
  datatype Decision =
    | Refused(error: string)
    | OverBudget(violations: seq<Bucket>)
    | Replayed
    | Appended(fact: Event, mark: seq<Event>)    // the budget fact and the attempt fact beside it

  function Additions(d: Decision): seq<Event>
    requires d.Appended?
  {
    [d.fact] + d.mark
  }

  predicate IsMark(mark: seq<Event>) {
    |mark| <= 1 && (|mark| == 1 ==> mark[0].AttemptStarted? || mark[0].AttemptFinished?)
  }

  datatype Answer<+T> =
    | Answered(value: T)
    | Raised(error: string)
    | Exceeded(violations: seq<Bucket>)

  /** Why the store refuses facts that name a Run: it must be of the session and not over yet. */
  function AppendProblem(s: Store, session: string, run: Option<string>): Option<string> {
    if run.None? || run.value == "" then None
    else if run.value !in s.runs || s.runs[run.value].session != session then Some("Run/session identity mismatch")
    else if run.value in s.over then Some("Run already terminated")
    else None
  }

  /** The transaction is rolled back if the store refuses its facts. */
  function Written(s: Store, session: string, run: Option<string>, d: Decision): Decision {
    if d.Appended? && AppendProblem(s, session, run).Some? then Refused(AppendProblem(s, session, run).value) else d
  }

  // ---------------------------------------------------------------- configure

  function DecideConfigure(s: Store, session: string, c: Configuration): Decision {
    if session !in s.sessions then Refused("Session not found")
    else
      match Fold(s.log)
      case Err(e) => Refused(e)
      case Ok(b) => ConfigureIn(b, c)
  }

  function ConfigureIn(b: Book, c: Configuration): Decision {
    if c.request in b.requests then
      if b.requests[c.request] != c then
        Refused("Budget request identity was reused with different content")
      else Replayed
    else Appended(Configured(c), [])
  }

  // ---------------------------------------------------------------- reserve

  function ReservationFor(c: ReserveCall): Reservation {
    var at := if c.at.Some? then c.at.value else c.now;
    Reservation(c.attempt, c.run, c.session, c.context, c.inputEstimate, c.outputEstimate,
                c.estimateMethod, c.inputEstimate + c.outputEstimate, at,
                Scopes(c.context, c.run, at), c.basis)
  }

  /** What is wrong with the request itself. */
  function ReserveProblem(c: ReserveCall): Option<string> {
    if c.started.Some? && c.started.value.attempt != c.attempt then Some("Model attempt identity mismatch")
    else if c.basis.InputOnly?
            && (c.outputEstimate != 0 || c.started.None? || c.started.value.kind != "embedding") then
      Some("Input-only reservations require an embedding attempt without output")
    else if c.started.Some? && c.started.value.basis != c.basis then Some("Model attempt usage basis mismatch")
    else None
  }

  /** A replay may differ in the assigned time and scopes, and in time only when none was asked for. */
  predicate SameRequest(original: Reservation, c: ReserveCall) {
    var p := ReservationFor(c);
    && original == p.(reservedAt := original.reservedAt, scopes := original.scopes)
    && (c.at.Some? ==> original.reservedAt == p.reservedAt)
  }

  /** How a call differs from the reservation that has its identity. */
  function ReuseProblem(original: Reservation, c: ReserveCall): string {
    var p := ReservationFor(c);
    if original.basis != c.basis then "Attempt identity was reused with different usage basis"
    else if original != p.(reservedAt := original.reservedAt, scopes := original.scopes) then
      "Attempt identity was reused with different content"
    else "Attempt identity was reused with a different timestamp"
  }

  predicate FamilyConflict(order: seq<string>, items: map<string, Item>, context: Context)
    requires forall a :: a in order ==> a in items
  {
    exists a :: a in order && items[a].reservation.context.root == context.root
                && items[a].reservation.context != context
  }

  function ValidateContext(s: Store, session: string, run: string, context: Context, b: Book)
    : (error: Option<string>)
    requires ValidBook(b)
  {
    if run !in s.runs || s.runs[run].session != session then Some("Run/session identity mismatch")
    else if context.project.None?
            && (context.root != run || context.delivery.Some? || !IsServiceProbe(s, run)) then
      Some("Only a standalone connection probe can omit project ownership")
    else
      match Parents(s.log)
      case Err(e) => Some(e)
      case Ok(parents) =>
        match Walk(parents, s.runs.Keys, run, {})
        case Err(e) => Some(e)
        case Ok(root) =>
          if root != context.root then Some("Budget root must be the actual root Run")
          else if FamilyConflict(b.order, b.items, context) then
            Some("A Run family cannot change budget ownership")
          else None
  }

  /**
   * The context the controller resolves passes the ledger's own checks exactly when no Run of the log
   * names two parents and the Run family keeps its owner.
   */
  lemma ControllerContextAccepted(s: Store, run: string, records: Deliveries, b: Book)
    requires ValidBook(b) && "" !in s.runs
    requires ControllerContext(s, run, records).Ok?
    ensures var (session, context) := ControllerContext(s, run, records).value;
            ValidateContext(s, session, run, context, b).None?
            <==> Parents(s.log).Ok? && !FamilyConflict(b.order, b.items, context)
  {
    if Parents(s.log).Ok? {
      ControllerRootIsLedgerRoot(s, run, records);
      if !IsServiceProbe(s, run) {
        ClimbNamesProject(s, run, {}, None, records);
      }
    }
  }

  lemma {:induction false} ClimbNamesProject(
    s: Store, a: string, visited: set<string>, project: Option<string>, records: Deliveries)
    requires ClimbFrom(s, a, visited, project, records).Ok?
    ensures ClimbFrom(s, a, visited, project, records).value.project.Some?
    decreases s.runs.Keys - visited
  {
    match ClimbOnce(s, a, project, records) {
      case Up(parent, owner) => ClimbNamesProject(s, parent, visited + {a}, Some(owner), records);
      case _ =>
    }
  }

  predicate Violates(bucket: Bucket, requested: nat) {
    bucket.limit.Some? && (bucket.committed + requested > bucket.limit.value || bucket.blocked)
  }

  function Violations(b: Book, scopes: seq<Scope>, requested: nat): seq<Bucket>
    requires ValidBook(b)
  {
    if scopes == [] then []
    else
      Violations(b, scopes[..|scopes| - 1], requested)
      + (var bucket := BucketOf(b, scopes[|scopes| - 1]);
         if Violates(bucket, requested) then [bucket] else [])
  }

  /** A new reservation must have a valid owner and fit every bucket it is charged to. */
  function Admit(s: Store, b: Book, p: Reservation, started: bool): Decision
    requires ValidBook(b)
  {
    match ValidateContext(s, p.session, p.run, p.context, b)
    case Some(e) => Refused(e)
    case None =>
      var violations := Violations(b, p.scopes, p.reserved);
      if violations != [] then OverBudget(violations)
      else Appended(Reserved(p), if started then [AttemptStarted(p.attempt)] else [])
  }

  function DecideReserve(s: Store, c: ReserveCall): Decision {
    if ReserveProblem(c).Some? then Refused(ReserveProblem(c).value)
    else if c.session !in s.sessions then Refused("Session not found")
    else
      match Fold(s.log)
      case Err(e) => Refused(e)
      case Ok(b) => Written(s, c.session, NamedRun(c), ReserveIn(s, b, c))
  }

  /** Only facts that record a started attempt are written under the Run. */
  function NamedRun(c: ReserveCall): Option<string> {
    if c.started.Some? then Some(c.run) else None
  }

  function ReserveIn(s: Store, b: Book, c: ReserveCall): Decision
    requires ValidBook(b)
  {
    if c.attempt in b.items then
      var original := b.items[c.attempt].reservation;
      if SameRequest(original, c) then Replayed else Refused(ReuseProblem(original, c))
    else Admit(s, b, ReservationFor(c), c.started.Some?)
  }

  // ---------------------------------------------------------------- settle and resolve

  predicate CoversTotals(basis: Basis, usage: map<string, nat>) {
    "input_tokens" in usage && (basis.InputOutput? ==> "output_tokens" in usage)
  }

  function SettlementFor(c: SettleCall, basis: Basis): Settlement {
    Settlement(
      c.attempt, c.usage, if c.usage == map[] then Unknown else c.source,
      if c.source.Reported? && CoversTotals(basis, c.usage) then
        Some(c.usage["input_tokens"] + if basis.InputOutput? then c.usage["output_tokens"] else 0)
      else None)
  }

  function SettleProblem(c: SettleCall): Option<string> {
    if c.finished.Some? && (c.run.None? || c.finished.value.attempt != c.attempt) then
      Some("Model attempt identity mismatch")
    else if c.source.Unknown? && c.usage != map[] then Some("Unknown usage cannot contain counters")
    else None
  }

  /** Errors found before the settlement is compared with what is already known of the attempt. */
  function SettleMismatch(item: Item, c: SettleCall): Option<string> {
    var basis := item.reservation.basis;
    if item.reservation.session != c.session then Some("Attempt/session identity mismatch")
    else if c.run.Some? && item.reservation.run != c.run.value then
      Some("Attempt/Run identity mismatch")
    else if c.finished.Some? && (c.finished.value.basis != basis
            || (basis.InputOnly? && c.finished.value.kind != "embedding")) then
      Some("Model attempt usage basis mismatch")
    else if basis.InputOnly? && ("output_tokens" in c.usage || "reasoning_tokens" in c.usage) then
      Some("Input-only usage cannot contain output counters")
    else None
  }

  function DecideSettle(s: Store, c: SettleCall): Decision {
    if SettleProblem(c).Some? then Refused(SettleProblem(c).value)
    else if c.session !in s.sessions then Refused("Session not found")
    else
      match Fold(s.log)
      case Err(e) => Refused(e)
      case Ok(b) => Written(s, c.session, c.run, SettleIn(b, c))
  }

  function SettleIn(b: Book, c: SettleCall): Decision {
    if c.attempt !in b.items then Refused("Unknown attempt reservation")
    else
      var item := b.items[c.attempt];
      match SettleMismatch(item, c)
      case Some(e) => Refused(e)
      case None =>
        var p := SettlementFor(c, item.reservation.basis);
        if Settling(p) in b.seen then Replayed
        else if item.resolution.Some?
                || (item.settlement.Some?
                    && (item.settlement.value.actual.Some? || p.actual.None?)) then
          Refused("Conflicting attempt settlement")
        else Appended(Settled(p), if c.finished.Some? then [AttemptFinished(c.attempt)] else [])
  }

  predicate ResolutionUsed(b: Book, request: string)
    requires ValidBook(b)
  {
    exists a :: a in b.order && b.items[a].resolution.Some?
                && b.items[a].resolution.value.request == request
  }

  function DecideResolve(s: Store, session: string, p: Resolution): Decision {
    if session !in s.sessions then Refused("Session not found")
    else
      match Fold(s.log)
      case Err(e) => Refused(e)
      case Ok(b) => ResolveIn(b, session, p)
  }

  function ResolveIn(b: Book, session: string, p: Resolution): Decision
    requires ValidBook(b)
  {
    if p.attempt !in b.items then Refused("Unknown attempt reservation")
    else
      var item := b.items[p.attempt];
      if item.reservation.session != session then Refused("Attempt/session identity mismatch")
      else if item.resolution == Some(p) then Replayed
      else if item.resolution.Some? || Amount(item).1.Some? then
        Refused("Attempt is already settled")
      else if ResolutionUsed(b, p.request) then
        Refused("Resolution request identity was reused")
      else Appended(Resolved(p), [])
  }

  // ---------------------------------------------------------------- the class

  class RuntimeStore {
    var log: seq<Event>
    var runs: map<string, RunRow>
    var over: set<string>
    var sessions: map<string, string>
    var workspaces: map<string, string>

    function View(): Store
      reads this
    {
      Store(log, runs, over, sessions, workspaces)
    }
  }

  /** Every receipt is the one that folding the log again, additions included, would give. */
  ghost predicate Refines(before: Store, after: seq<Event>, d: Decision, attempt: string, r: Answer<Receipt>) {
    match d
    case Refused(e) => r == Raised(e) && after == before.log
    case OverBudget(v) => r == Exceeded(v) && after == before.log
    case Replayed =>
      && after == before.log
      && Fold(after).Ok? && attempt in Fold(after).value.items
      && r == Answered(ReceiptOf(Fold(after).value, attempt))
    case Appended(_, _) =>
      && after == before.log + Additions(d)
      && Fold(after).Ok? && attempt in Fold(after).value.items
      && r == Answered(ReceiptOf(Fold(after).value, attempt))
  }

  lemma FoldWithMark(log: seq<Event>, fact: Event, mark: seq<Event>)
    requires Fold(log).Ok? && IsMark(mark)
    ensures Fold(log + ([fact] + mark)) == Apply(Fold(log).value, fact)
  {
    FoldAppend(log, fact);
    Reassociate(log, fact, mark);
    if mark != [] {
      FoldMark(log + [fact], mark[0]);
    }
  }

  lemma FoldMark(log: seq<Event>, mark: Event)
    requires mark.AttemptStarted? || mark.AttemptFinished?
    ensures Fold(log + [mark]) == Fold(log)
  {
    FoldAppend(log, mark);
  }

  /** The receipt read from memory after a change equals the one read from the folded fact. */
  lemma MemoryIsRefold(b: Book, memory: Book, fact: Event, attempt: string)
    requires ValidBook(b) && Apply(b, fact).Ok?
    requires var c := Apply(b, fact).value;
             memory == c.(seen := b.seen) && b.seen <= c.seen && attempt in c.items
    ensures ValidBook(memory) && ValidBook(Apply(b, fact).value)
    ensures ReceiptOf(memory, attempt) == ReceiptOf(Apply(b, fact).value, attempt)
  {
    ApplyValid(b, fact);
    var c := Apply(b, fact).value;
    BucketsReadOnly(memory, c, c.items[attempt].reservation.scopes);
  }

  /** The bucket read after only the limit is set equals the one read from the folded configuration. */
  lemma LimitIsRefold(b: Book, memory: Book, c: Configuration)
    requires ValidBook(b) && c.request !in b.requests
    requires memory == b.(limits := b.limits[c.scope := c.limit])
    ensures ValidBook(memory) && Apply(b, Configured(c)).Ok? && ValidBook(Apply(b, Configured(c)).value)
    ensures BucketOf(memory, c.scope) == BucketOf(Apply(b, Configured(c)).value, c.scope)
  {
  }

  class BudgetLedger {
    const store: RuntimeStore

    constructor (store: RuntimeStore)
      ensures this.store == store
    {
      this.store := store;
    }

    method Configure(session: string, c: Configuration) returns (r: Answer<Bucket>)
      modifies store`log
      ensures match DecideConfigure(old(store.View()), session, c)
              case Refused(e) => r == Raised(e) && store.log == old(store.log)
              case OverBudget(_) => false
              case Replayed =>
                && store.log == old(store.log)
                && Fold(store.log).Ok? && r == Answered(BucketOf(Fold(store.log).value, c.scope))
              case Appended(fact, mark) =>
                && store.log == old(store.log) + ([fact] + mark)
                && Fold(store.log).Ok? && r == Answered(BucketOf(Fold(store.log).value, c.scope))
    {
      if session !in store.sessions {
        return Raised("Session not found");
      }
      var state := Project(store.log);
      if state.Err? {
        return Raised(state.error);
      }
      var b := state.value;
      if c.request in b.requests {
        if b.requests[c.request] != c {
          return Raised("Budget request identity was reused with different content");
        }
        var bucket := ReadBucket(b, c.scope);
        return Answered(bucket);
      }
      // Only the limit changes in memory; the request is recorded by the fact.
      var memory := b.(limits := b.limits[c.scope := c.limit]);
      LimitIsRefold(b, memory, c);
      var bucket := ReadBucket(memory, c.scope);
      FoldWithMark(store.log, Configured(c), []);
      store.log := store.log + ([Configured(c)] + []);
      r := Answered(bucket);
    }

    method Reserve(c: ReserveCall) returns (r: Answer<Receipt>)
      modifies store`log
      ensures Refines(old(store.View()), store.log, DecideReserve(old(store.View()), c), c.attempt, r)
    {
      var invalid := ReserveProblem(c);
      if invalid.Some? {
        return Raised(invalid.value);
      }
      if c.session !in store.sessions {
        return Raised("Session not found");
      }
      var state := Project(store.log);
      if state.Err? {
        return Raised(state.error);
      }
      var b := state.value;
      if c.attempt in b.items {
        var reused := CompareReplay(b.items[c.attempt].reservation, c);
        if reused.Some? {
          return Raised(reused.value);
        }
        var receipt := ReadReceipt(b, c.attempt);
        return Answered(receipt);
      }
      r := ReserveNew(b, c);
    }

    /** The part of a reservation that is no replay: its owner, its buckets, the facts. */
    method ReserveNew(b: Book, c: ReserveCall) returns (r: Answer<Receipt>)
      requires Fold(store.log) == Ok(b) && c.attempt !in b.items
      modifies store`log
      ensures var s := old(store.View());
              var d := Written(s, c.session, NamedRun(c), Admit(s, b, ReservationFor(c), c.started.Some?));
              Refines(s, store.log, d, c.attempt, r)
    {
      var p := ReservationFor(c);
      var problem := CheckContext(c.session, c.run, c.context, b);
      if problem.Some? {
        return Raised(problem.value);
      }
      var violations := FindViolations(b, p.scopes, p.reserved);
      if violations != [] {
        return Exceeded(violations);
      }
      var unwritable := AppendProblem(store.View(), c.session, NamedRun(c));
      if unwritable.Some? {
        return Raised(unwritable.value);
      }
      var memory := b.(order := b.order + [c.attempt], items := b.items[c.attempt := Item(p, None, None)]);
      var mark := if c.started.Some? then [AttemptStarted(c.attempt)] else [];
      var receipt := Record(b, memory, Reserved(p), mark, c.attempt);
      r := Answered(receipt);
    }

    /** Whether a call repeats the reservation that has its identity, and how it differs if not. */
    static method CompareReplay(original: Reservation, c: ReserveCall) returns (error: Option<string>)
      ensures error == if SameRequest(original, c) then None else Some(ReuseProblem(original, c))
    {
      var p := ReservationFor(c);
      if original.basis != c.basis {
        return Some("Attempt identity was reused with different usage basis");
      }
      if original != p.(reservedAt := original.reservedAt, scopes := original.scopes) {
        return Some("Attempt identity was reused with different content");
      }
      if c.at.Some? && original.reservedAt != p.reservedAt {
        return Some("Attempt identity was reused with a different timestamp");
      }
      error := None;
    }

    method CheckContext(session: string, run: string, context: Context, b: Book)
      returns (error: Option<string>)
      requires ValidBook(b)
      ensures error == ValidateContext(store.View(), session, run, context, b)
    {
      if run !in store.runs || store.runs[run].session != session {
        return Some("Run/session identity mismatch");
      }
      if context.project.None?
         && (context.root != run || context.delivery.Some? || !IsServiceProbe(store.View(), run)) {
        return Some("Only a standalone connection probe can omit project ownership");
      }
      var parents := ReadParents(store.log);
      if parents.Err? {
        return Some(parents.error);
      }
      var root := FindRoot(parents.value, store.runs.Keys, run);
      if root.Err? {
        return Some(root.error);
      }
      if root.value != context.root {
        return Some("Budget root must be the actual root Run");
      }
      var conflict := FindConflict(b.order, b.items, context);
      error := if conflict then Some("A Run family cannot change budget ownership") else None;
    }

    static method FindConflict(order: seq<string>, items: map<string, Item>, context: Context)
      returns (found: bool)
      requires forall a :: a in order ==> a in items
      ensures found == FamilyConflict(order, items, context)
    {
      for i := 0 to |order|
        invariant forall j :: 0 <= j < i ==>
          items[order[j]].reservation.context.root == context.root ==>
          items[order[j]].reservation.context == context
      {
        var owner := items[order[i]].reservation.context;
        if owner.root == context.root && owner != context {
          return true;
        }
      }
      found := false;
    }

    method FindViolations(b: Book, scopes: seq<Scope>, requested: nat) returns (v: seq<Bucket>)
      requires ValidBook(b)
      ensures v == Violations(b, scopes, requested)
    {
      v := [];
      for i := 0 to |scopes|
        invariant v == Violations(b, scopes[..i], requested)
      {
        assert scopes[..i + 1][..i] == scopes[..i];
        var bucket := ReadBucket(b, scopes[i]);
        if Violates(bucket, requested) {
          v := v + [bucket];
        }
      }
      assert scopes[..|scopes|] == scopes;
    }

    method ReadBuckets(b: Book, scopes: seq<Scope>) returns (buckets: seq<Bucket>)
      requires ValidBook(b)
      ensures buckets == BucketsOf(b, scopes)
    {
      buckets := [];
      for i := 0 to |scopes|
        invariant buckets == BucketsOf(b, scopes[..i])
      {
        assert scopes[..i + 1][..i] == scopes[..i];
        var bucket := ReadBucket(b, scopes[i]);
        buckets := buckets + [bucket];
      }
      assert scopes[..|scopes|] == scopes;
    }

    method ReadReceipt(b: Book, attempt: string) returns (r: Receipt)
      requires ValidBook(b) && attempt in b.items
      ensures r == ReceiptOf(b, attempt)
    {
      var item := b.items[attempt];
      var buckets := ReadBuckets(b, item.reservation.scopes);
      r := Receipt(attempt, item.reservation.run, Amount(item).2, item.reservation.reserved,
                   Amount(item).1,
                   if item.settlement.Some? then item.settlement.value.source else Unknown,
                   buckets, Warnings(buckets));
    }

    /** Read the receipt from memory and append the facts. */
    method Record(b: Book, memory: Book, fact: Event, mark: seq<Event>, attempt: string) returns (receipt: Receipt)
      requires Fold(store.log) == Ok(b) && IsMark(mark) && Apply(b, fact).Ok?
      requires var c := Apply(b, fact).value;
               memory == c.(seen := b.seen) && b.seen <= c.seen && attempt in c.items
      modifies store`log
      ensures store.log == old(store.log) + ([fact] + mark) && Fold(store.log) == Apply(b, fact)
      ensures receipt == ReceiptOf(Fold(store.log).value, attempt)
    {
      FoldWithMark(store.log, fact, mark);
      MemoryIsRefold(b, memory, fact, attempt);
      receipt := ReadReceipt(memory, attempt);
      store.log := store.log + ([fact] + mark);
    }

    method Settle(c: SettleCall) returns (r: Answer<Receipt>)
      modifies store`log
      ensures Refines(old(store.View()), store.log, DecideSettle(old(store.View()), c), c.attempt, r)
    {
      var invalid := SettleProblem(c);
      if invalid.Some? {
        return Raised(invalid.value);
      }
      if c.session !in store.sessions {
        return Raised("Session not found");
      }
      var state := Project(store.log);
      if state.Err? {
        return Raised(state.error);
      }
      var b := state.value;
      if c.attempt !in b.items {
        return Raised("Unknown attempt reservation");
      }
      var item := b.items[c.attempt];
      var mismatch := SettleMismatch(item, c);
      if mismatch.Some? {
        return Raised(mismatch.value);
      }
      var p := SettlementFor(c, item.reservation.basis);
      if Settling(p) in b.seen {
        var replay := ReadReceipt(b, c.attempt);
        return Answered(replay);
      }
      if item.resolution.Some?
         || (item.settlement.Some? && (item.settlement.value.actual.Some? || p.actual.None?)) {
        return Raised("Conflicting attempt settlement");
      }
      var unwritable := AppendProblem(store.View(), c.session, c.run);
      if unwritable.Some? {
        return Raised(unwritable.value);
      }
      // The set of seen changes is not touched in memory.
      var memory := b.(items := b.items[c.attempt := item.(settlement := Some(p))]);
      var mark := if c.finished.Some? then [AttemptFinished(c.attempt)] else [];
      var receipt := Record(b, memory, Settled(p), mark, c.attempt);
      r := Answered(receipt);
    }

    method RequestUsed(b: Book, request: string) returns (used: bool)
      requires ValidBook(b)
      ensures used == ResolutionUsed(b, request)
    {
      for i := 0 to |b.order|
        invariant forall j :: 0 <= j < i ==>
          b.items[b.order[j]].resolution.None? || b.items[b.order[j]].resolution.value.request != request
      {
        var other := b.items[b.order[i]].resolution;
        if other.Some? && other.value.request == request {
          return true;
        }
      }
      used := false;
    }

    method ResolveUnknown(session: string, p: Resolution) returns (r: Answer<Receipt>)
      modifies store`log
      ensures Refines(old(store.View()), store.log, DecideResolve(old(store.View()), session, p), p.attempt, r)
    {
      if session !in store.sessions {
        return Raised("Session not found");
      }
      var state := Project(store.log);
      if state.Err? {
        return Raised(state.error);
      }
      var b := state.value;
      if p.attempt !in b.items {
        return Raised("Unknown attempt reservation");
      }
      var item := b.items[p.attempt];
      if item.reservation.session != session {
        return Raised("Attempt/session identity mismatch");
      }
      if item.resolution == Some(p) {
        var replay := ReadReceipt(b, p.attempt);
        return Answered(replay);
      }
      if item.resolution.Some? || Amount(item).1.Some? {
        return Raised("Attempt is already settled");
      }
      var reused := RequestUsed(b, p.request);
      if reused {
        return Raised("Resolution request identity was reused");
      }
      var memory := b.(items := b.items[p.attempt := item.(resolution := Some(p))]);
      var receipt := Record(b, memory, Resolved(p), [], p.attempt);
      r := Answered(receipt);
    }
  }
}
