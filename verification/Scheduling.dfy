/** The run queue and the scheduler's capacity, over the canonical run facts. */
module Scheduling {
  import opened Common

  // ---------------------------------------------------------------- facts and the queue

  datatype Operation = Evaluation | Index | WorktreeControl | HistoryImport | PythonExperiment

  datatype Binding =
    | NoBinding
    | DeliveryBinding(delivery: string)
    | OperationBinding(kind: Operation)
    | SandboxBinding(sandbox: string)
    | SnapshotBinding
    | WorktreeBinding(workspace: string)

  /** An empty parent stands for a root Run. */
  datatype Intent = Intent(parent: string, project: string, workspace: string, binding: Binding)

  datatype Ending = Completed | Failed | Interrupted

  datatype Kind = Admitted(intent: Intent) | Started | Ended(ending: Ending)

  datatype Fact = Fact(kind: Kind, partial: bool, run: string, session: string, at: int, id: string)

  datatype Admission = Admission(session: string, intent: Intent, at: int, id: string)

  datatype Status = Queued | Running | Over(ending: Ending)

  datatype QueueEntry = QueueEntry(
    run: string, session: string, project: string, status: Status,
    admittedAt: int, admissionId: string, intent: Intent)

  /** What the projection collects; `order` is the order of first admissions. */
  datatype Queue = Queue(
    order: seq<string>, admissions: map<string, Admission>,
    starts: set<string>, endings: map<string, Ending>)

  const EMPTY_QUEUE := Queue([], map[], {}, map[])

  function Collect(q: Queue, f: Fact): Result<Queue> {
    if f.partial || f.run == "" then Ok(q)
    else
      match f.kind
      case Admitted(intent) =>
        if f.run in q.admissions then
          if q.admissions[f.run].session != f.session || q.admissions[f.run].intent != intent then
            Err("Conflicting Run admission facts")
          else Ok(q)
        else
          Ok(q.(order := q.order + [f.run],
                admissions := q.admissions[f.run := Admission(f.session, intent, f.at, f.id)]))
      case Started => Ok(q.(starts := q.starts + {f.run}))
      case Ended(ending) =>
        if f.run in q.endings then Ok(q) else Ok(q.(endings := q.endings[f.run := ending]))
  }

  ghost predicate ValidQueue(q: Queue) {
    && Distinct(q.order)
    && (forall r :: r in q.order <==> r in q.admissions)
  }

  function Fold(log: seq<Fact>): (r: Result<Queue>)
    ensures r.Ok? ==> ValidQueue(r.value)
  {
    if log == [] then Ok(EMPTY_QUEUE)
    else
      var q :- Fold(log[..|log| - 1]);
      CollectValid(q, log[|log| - 1]);
      Collect(q, log[|log| - 1])
  }

  lemma CollectValid(q: Queue, f: Fact)
    requires ValidQueue(q)
    ensures Collect(q, f).Ok? ==> ValidQueue(Collect(q, f).value)
  {
  }

  lemma FoldAppend(log: seq<Fact>, f: Fact)
    ensures Fold(log + [f]) == if Fold(log).Ok? then Collect(Fold(log).value, f) else Fold(log)
  {
    assert (log + [f])[..|log|] == log;
  }

  function StatusOf(q: Queue, run: string): Status {
    if run in q.endings then Over(q.endings[run])
    else if run in q.starts then Running
    else Queued
  }

  predicate IsRoot(q: Queue, run: string) {
    run in q.admissions && q.admissions[run].intent.parent == ""
  }

  function EntryOf(q: Queue, run: string): QueueEntry
    requires run in q.admissions
  {
    var a := q.admissions[run];
    QueueEntry(run, a.session, a.intent.project, StatusOf(q, run), a.at, a.id, a.intent)
  }

  /** Root entries among the first admissions, in commit order. */
  function EntriesAmong(q: Queue, order: seq<string>): (entries: seq<QueueEntry>)
    requires forall r :: r in order ==> r in q.admissions
  {
    if order == [] then []
    else
      var r := order[|order| - 1];
      EntriesAmong(q, order[..|order| - 1]) + if IsRoot(q, r) then [EntryOf(q, r)] else []
  }

  function Entries(q: Queue): seq<QueueEntry>
    requires ValidQueue(q)
  {
    EntriesAmong(q, q.order)
  }

  /** The projection loop, and the tuple of entries it returns. */
  method ProjectQueue(log: seq<Fact>) returns (r: Result<seq<QueueEntry>>)
    ensures Fold(log).Err? ==> r == Err(Fold(log).error)
    ensures Fold(log).Ok? ==> r == Ok(Entries(Fold(log).value))
  {
    var order, admissions, starts, endings := [], map[], {}, map[];
    for i := 0 to |log|
      invariant Fold(log[..i]) == Ok(Queue(order, admissions, starts, endings))
    {
      assert log[..i + 1] == log[..i] + [log[i]];
      FoldAppend(log[..i], log[i]);
      PrefixError(log, i + 1);
      var f := log[i];
      if f.partial || f.run == "" {
        continue;
      }
      match f.kind {
        case Admitted(intent) =>
          if f.run in admissions
             && (admissions[f.run].session != f.session || admissions[f.run].intent != intent) {
            return Err("Conflicting Run admission facts");
          }
          if f.run !in admissions {
            order := order + [f.run];
            admissions := admissions[f.run := Admission(f.session, intent, f.at, f.id)];
          }
        case Started =>
          starts := starts + {f.run};
        case Ended(ending) =>
          if f.run !in endings {
            endings := endings[f.run := ending];
          }
      }
    }
    assert log[..|log|] == log;
    ghost var q := Queue(order, admissions, starts, endings);
    var entries: seq<QueueEntry> := [];
    for i := 0 to |order|
      invariant entries == EntriesAmong(q, order[..i])
    {
      assert order[..i + 1][..i] == order[..i];
      var run := order[i];
      assert run in q.order;
      var a := admissions[run];
      if a.intent.parent == "" {
        var status := if run in endings then Over(endings[run])
                      else if run in starts then Running else Queued;
        entries := entries + [QueueEntry(run, a.session, a.intent.project, status, a.at, a.id, a.intent)];
      }
    }
    assert order[..|order|] == order;
    r := Ok(entries);
  }

  lemma {:induction false} PrefixError(log: seq<Fact>, i: nat)
    requires i <= |log|
    ensures Fold(log[..i]).Err? ==> Fold(log) == Fold(log[..i])
    decreases |log|
  {
    if i == |log| {
      assert log[..i] == log;
    } else {
      assert log[..|log| - 1][..i] == log[..i];
      PrefixError(log[..|log| - 1], i);
    }
  }

  /** Entries are exactly the admitted roots, each once. */
  lemma {:induction false} EntriesExact(q: Queue, order: seq<string>)
    requires Distinct(order) && forall r :: r in order ==> r in q.admissions
    ensures forall e :: e in EntriesAmong(q, order) ==>
              e.run in order && IsRoot(q, e.run) && e == EntryOf(q, e.run)
    ensures forall r :: r in order && IsRoot(q, r) ==> EntryOf(q, r) in EntriesAmong(q, order)
  {
    if order != [] {
      EntriesExact(q, order[..|order| - 1]);
      assert order == order[..|order| - 1] + [order[|order| - 1]];
    }
  }

  predicate IsAdmission(f: Fact, run: string) {
    !f.partial && f.run == run && run != "" && f.kind.Admitted?
  }

  ghost predicate Admits(log: seq<Fact>, run: string) {
    exists f :: f in log && IsAdmission(f, run)
  }

  /** Some part of the log from its start admits the one Run and not yet the other. */
  ghost predicate AdmittedBefore(log: seq<Fact>, a: string, b: string) {
    exists n :: 0 <= n <= |log| && Admits(log[..n], a) && !Admits(log[..n], b)
  }

  lemma {:induction false} AdmittedExact(log: seq<Fact>, run: string)
    requires Fold(log).Ok?
    ensures run in Fold(log).value.admissions <==> Admits(log, run)
  {
    if log != [] {
      var n := |log| - 1;
      AdmittedExact(log[..n], run);
      assert log == log[..n] + [log[n]];
      assert Admits(log, run) <==> Admits(log[..n], run) || IsAdmission(log[n], run);
    }
  }

  lemma BeforeLonger(log: seq<Fact>, f: Fact, a: string, b: string)
    requires AdmittedBefore(log, a, b)
    ensures AdmittedBefore(log + [f], a, b)
  {
    var n :| 0 <= n <= |log| && Admits(log[..n], a) && !Admits(log[..n], b);
    assert (log + [f])[..n] == log[..n];
  }

  /** Runs are kept in the order in which the log first admits them. */
  lemma {:induction false} OrderIsCommitOrder(log: seq<Fact>, i: nat, j: nat)
    requires Fold(log).Ok? && i < j < |Fold(log).value.order|
    ensures var order := Fold(log).value.order; AdmittedBefore(log, order[i], order[j])
  {
    var n := |log| - 1;
    var before, order := Fold(log[..n]).value.order, Fold(log).value.order;
    assert log == log[..n] + [log[n]];
    if j < |before| {
      OrderIsCommitOrder(log[..n], i, j);
      BeforeLonger(log[..n], log[n], order[i], order[j]);
    } else {
      AdmittedExact(log[..n], order[i]);
      AdmittedExact(log[..n], order[j]);
      assert order[i] in before;
    }
  }

  /** Entries are taken from the order without changing it. */
  lemma {:induction false} EntriesKeepOrder(q: Queue, order: seq<string>, i: nat, j: nat) returns (a: nat, b: nat)
    requires (forall r :: r in order ==> r in q.admissions) && i < j < |EntriesAmong(q, order)|
    ensures a < b < |order|
    ensures order[a] == EntriesAmong(q, order)[i].run && order[b] == EntriesAmong(q, order)[j].run
  {
    var n := |order| - 1;
    var before := EntriesAmong(q, order[..n]);
    if j < |before| {
      a, b := EntriesKeepOrder(q, order[..n], i, j);
    } else {
      b := n;
      a := EntryPlace(q, order[..n], i);
    }
  }

  lemma {:induction false} EntryPlace(q: Queue, order: seq<string>, i: nat) returns (a: nat)
    requires (forall r :: r in order ==> r in q.admissions) && i < |EntriesAmong(q, order)|
    ensures a < |order| && order[a] == EntriesAmong(q, order)[i].run
  {
    var n := |order| - 1;
    if i < |EntriesAmong(q, order[..n])| {
      a := EntryPlace(q, order[..n], i);
    } else {
      a := n;
    }
  }

  /** The queue lists its entries in commit order, so that the first one that can be claimed is the oldest. */
  lemma EntriesInCommitOrder(log: seq<Fact>, i: nat, j: nat)
    requires Fold(log).Ok? && i < j < |Entries(Fold(log).value)|
    ensures var entries := Entries(Fold(log).value); AdmittedBefore(log, entries[i].run, entries[j].run)
  {
    var q := Fold(log).value;
    var a, b := EntriesKeepOrder(q, q.order, i, j);
    OrderIsCommitOrder(log, a, b);
  }

  // ---------------------------------------------------------------- capacity

  datatype Limits = Limits(activeRoots: nat, waitingRoots: nat)

  datatype Lane = Active | Waiting

  /** Tickets and leases are owned by identity: an equal copy is not the ticket. */
  class AdmissionTicket {
    const run: string
    const session: string
    const lane: Lane

    constructor (run: string, session: string, lane: Lane)
      ensures this.run == run && this.session == session && this.lane == lane
    {
      this.run := run;
      this.session := session;
      this.lane := lane;
    }
  }

  class RootLease {
    const run: string
    const session: string

    constructor (run: string, session: string)
      ensures this.run == run && this.session == session
    {
      this.run := run;
      this.session := session;
    }
  }

  /** Everything the scheduler reads: committed facts, Run rows (Run -> session), sessions, owners. */
  datatype Sched = Sched(
    limits: Limits, log: seq<Fact>, runs: map<string, string>, sessions: set<string>,
    tickets: map<string, AdmissionTicket>, roots: map<string, RootLease>)

  function Owned(s: Sched): set<string> {
    s.tickets.Keys + s.roots.Keys
  }

  function InLane(s: Sched, lane: Lane): set<string> {
    set r | r in s.tickets && s.tickets[r].lane == lane
  }

  function WithStatus(q: Queue, status: Status): set<string> {
    set r | r in q.admissions && IsRoot(q, r) && StatusOf(q, r) == status
  }

  function ActiveCount(s: Sched, q: Queue): nat {
    |s.roots| + |InLane(s, Active)| + |WithStatus(q, Running) - Owned(s)|
  }

  function WaitingCount(s: Sched, q: Queue): nat {
    |InLane(s, Waiting)| + |WithStatus(q, Queued) - Owned(s)|
  }

  function Unowned(entries: seq<QueueEntry>, status: Status, owned: set<string>): nat {
    if entries == [] then 0
    else
      var e := entries[|entries| - 1];
      Unowned(entries[..|entries| - 1], status, owned)
      + if e.status == status && e.run !in owned then 1 else 0
  }

  predicate Counted(q: Queue, r: string, status: Status, owned: set<string>) {
    IsRoot(q, r) && StatusOf(q, r) == status && r !in owned
  }

  function Chosen(q: Queue, order: seq<string>, status: Status, owned: set<string>): set<string> {
    set r | r in order && Counted(q, r, status, owned)
  }

  lemma ChosenStep(q: Queue, order: seq<string>, status: Status, owned: set<string>)
    requires order != [] && Distinct(order)
    ensures var n := |order| - 1;
            && order[n] !in Chosen(q, order[..n], status, owned)
            && Chosen(q, order, status, owned)
               == Chosen(q, order[..n], status, owned)
                  + if Counted(q, order[n], status, owned) then {order[n]} else {}
  {
    var n := |order| - 1;
    assert order == order[..n] + [order[n]];
  }

  lemma UnownedStep(entries: seq<QueueEntry>, e: QueueEntry, status: Status, owned: set<string>)
    ensures Unowned(entries + [e], status, owned)
         == Unowned(entries, status, owned) + if e.status == status && e.run !in owned then 1 else 0
  {
    assert (entries + [e])[..|entries|] == entries;
  }

  /** Counting entries one by one counts each unowned Run of that status once. */
  lemma {:induction false} UnownedIsCardinality(q: Queue, order: seq<string>, status: Status, owned: set<string>)
    requires Distinct(order) && forall r :: r in order ==> r in q.admissions
    ensures Unowned(EntriesAmong(q, order), status, owned) == |Chosen(q, order, status, owned)|
  {
    if order == [] {
      assert Chosen(q, order, status, owned) == {};
    } else {
      var n := |order| - 1;
      UnownedIsCardinality(q, order[..n], status, owned);
      ChosenStep(q, order, status, owned);
      if IsRoot(q, order[n]) {
        UnownedStep(EntriesAmong(q, order[..n]), EntryOf(q, order[n]), status, owned);
      } else {
        assert EntriesAmong(q, order) == EntriesAmong(q, order[..n]);
      }
    }
  }

  lemma QueueCount(q: Queue, status: Status, owned: set<string>)
    requires ValidQueue(q)
    ensures Unowned(Entries(q), status, owned) == |WithStatus(q, status) - owned|
  {
    UnownedIsCardinality(q, q.order, status, owned);
    assert WithStatus(q, status) - owned == Chosen(q, q.order, status, owned);
  }

  // ---------------------------------------------------------------- decisions

  predicate IsTerminal(log: seq<Fact>, run: string) {
    exists f :: f in log && f.run == run && f.kind.Ended?
  }

  predicate HeldByOwner(s: Sched, session: string) {
    || (exists r :: r in s.tickets && s.tickets[r].session == session)
    || (exists r :: r in s.roots && s.roots[r].session == session)
  }

  predicate SessionBusy(s: Sched, q: Queue, session: string) {
    || HeldByOwner(s, session)
    || (exists r :: r in q.admissions && IsRoot(q, r) && q.admissions[r].session == session
                    && !StatusOf(q, r).Over?)
  }

  /** The lane a new admission gets, or why it is refused. */
  function LaneFor(s: Sched, run: string, session: string, startable: bool): Result<Lane> {
    if run == "" || session == "" || session !in s.sessions then
      Err("A Run identity and existing Session are required")
    else if run in s.tickets || run in s.roots || run in s.runs then Err("Run identity already used")
    else if HeldByOwner(s, session) then Err("Session is busy with pending work")
    else
      var q :- Fold(s.log);
      if SessionBusy(s, q, session) then Err("Session is busy with pending work")
      else if startable && ActiveCount(s, q) < s.limits.activeRoots then Ok(Active)
      else if WaitingCount(s, q) >= s.limits.waitingRoots then Err("Run queue is full")
      else Ok(Waiting)
  }

  /** An admission gets the active lane if and only if it may start and an active place is left. */
  lemma LaneIff(s: Sched, run: string, session: string, startable: bool)
    requires Fold(s.log).Ok?
    ensures var q, lane := Fold(s.log).value, LaneFor(s, run, session, startable);
            var free := run != "" && session != "" && session in s.sessions && run !in Owned(s) && run !in s.runs
                        && !SessionBusy(s, q, session);
            && (lane == Ok(Active) <==> free && startable && ActiveCount(s, q) < s.limits.activeRoots)
            && (lane == Ok(Waiting) <==>
                  && free && !(startable && ActiveCount(s, q) < s.limits.activeRoots)
                  && WaitingCount(s, q) < s.limits.waitingRoots)
  {
  }

  /** Why a ticket cannot be committed, if it cannot. */
  function CommitProblem(s: Sched, ticket: AdmissionTicket): Option<string> {
    if ticket.run !in s.tickets || s.tickets[ticket.run] != ticket then
      Some("Admission ticket is not owned by this scheduler")
    else
      match Fold(s.log)
      case Err(e) => Some(e)
      case Ok(q) =>
        if !IsRoot(q, ticket.run) || q.admissions[ticket.run].session != ticket.session
           || StatusOf(q, ticket.run) != Queued then
          Some("Matching unstarted root admission is required")
        else None
  }

  /** A ticket commits if and only if it is owned and its Run is a queued root of its session. */
  lemma CommitsIff(s: Sched, ticket: AdmissionTicket)
    requires Fold(s.log).Ok?
    ensures CommitProblem(s, ticket).None? <==>
              && ticket.run in s.tickets && s.tickets[ticket.run] == ticket
              && exists e :: e in Entries(Fold(s.log).value)
                             && e.run == ticket.run && e.session == ticket.session && e.status == Queued
  {
    var q := Fold(s.log).value;
    EntriesExact(q, q.order);
    if IsRoot(q, ticket.run) {
      assert EntryOf(q, ticket.run) in Entries(q);
    }
  }

  predicate MayReleaseTicket(s: Sched, ticket: AdmissionTicket) {
    ticket.run in s.tickets && s.tickets[ticket.run] == ticket
    && (ticket.run in s.runs ==> IsTerminal(s.log, ticket.run))
  }

  predicate MayReleaseRoot(s: Sched, lease: RootLease) {
    lease.run in s.roots && s.roots[lease.run] == lease && IsTerminal(s.log, lease.run)
  }

  function BusySessions(s: Sched, q: Queue): set<string> {
    (set r | r in WithStatus(q, Running) && r in q.admissions :: q.admissions[r].session)
    + (set r | r in s.roots :: s.roots[r].session)
    + (set r | r in s.tickets :: s.tickets[r].session)
  }

  /** An entry the scheduler may offer to the claim callback. */
  predicate Offered(s: Sched, q: Queue, e: QueueEntry) {
    e.status == Queued && e.run !in Owned(s) && e.session !in BusySessions(s, q)
  }

  // ---------------------------------------------------------------- steps

  /**
   * One step of the scheduler or of the store beside it. Store steps take effect only as the program
   * allows them: a root is admitted under its ticket, and started under its lease.
   */
  datatype Step =
    | TakeTicket(ticket: AdmissionTicket, startable: bool)
    | CommitTicket(ticket: AdmissionTicket, granted: RootLease?)   // null for a waiting ticket
    | DropTicket(ticket: AdmissionTicket)
    | Claim(lease: RootLease)
    | DropRoot(lease: RootLease)
    | OpenSession(session: string)
    | AdmitRoot(run: string, intent: Intent, at: int, id: string)
    | AdmitChild(run: string, session: string, intent: Intent, at: int, id: string)
    | CreateRun(run: string, session: string)
    | StartRun(run: string, at: int, id: string)
    | EndRun(run: string, ending: Ending, at: int, id: string)

  function Append(s: Sched, kind: Kind, run: string, session: string, at: int, id: string): Sched {
    s.(log := s.log + [Fact(kind, false, run, session, at, id)])
  }

  predicate Enabled(s: Sched, q: Queue, step: Step) {
    match step
    case TakeTicket(t, startable) => LaneFor(s, t.run, t.session, startable) == Ok(t.lane)
    case CommitTicket(t, lease) =>
      && CommitProblem(s, t).None? && (lease == null <==> t.lane == Waiting)
      && (lease != null ==> lease.run == t.run && lease.session == t.session)
    case DropTicket(t) => MayReleaseTicket(s, t)
    case Claim(lease) =>
      && ActiveCount(s, q) < s.limits.activeRoots
      && lease.run in q.admissions && IsRoot(q, lease.run)
      && Offered(s, q, EntryOf(q, lease.run)) && lease.session == q.admissions[lease.run].session
    case DropRoot(lease) => MayReleaseRoot(s, lease)
    case OpenSession(_) => true
    case AdmitRoot(run, intent, _, _) =>
      run in s.tickets && run !in s.runs && intent.parent == ""
    case AdmitChild(run, session, intent, _, _) =>
      run != "" && run !in s.tickets && run !in s.runs && intent.parent != "" && session in s.sessions
    case CreateRun(run, session) =>
      run != "" && run !in s.tickets && run !in s.runs && session in s.sessions
    case StartRun(run, _, _) => run in s.runs && (IsRoot(q, run) ==> run in s.roots)
    case EndRun(run, _, _, _) => run in s.runs
  }

  function Exec(s: Sched, step: Step): Sched {
    if Fold(s.log).Err? || !Enabled(s, Fold(s.log).value, step) then s
    else
      match step
      case TakeTicket(t, _) => s.(tickets := s.tickets[t.run := t])
      case CommitTicket(t, lease) =>
        s.(tickets := s.tickets - {t.run},
           roots := if lease != null then s.roots[t.run := lease] else s.roots)
      case DropTicket(t) => s.(tickets := s.tickets - {t.run})
      case Claim(lease) => s.(roots := s.roots[lease.run := lease])
      case DropRoot(lease) => s.(roots := s.roots - {lease.run})
      case OpenSession(session) => s.(sessions := s.sessions + {session})
      case AdmitRoot(run, intent, at, id) =>
        Append(s.(runs := s.runs[run := s.tickets[run].session]),
               Admitted(intent), run, s.tickets[run].session, at, id)
      case AdmitChild(run, session, intent, at, id) =>
        Append(s.(runs := s.runs[run := session]), Admitted(intent), run, session, at, id)
      case CreateRun(run, session) => s.(runs := s.runs[run := session])
      case StartRun(run, at, id) => Append(s, Started, run, s.runs[run], at, id)
      case EndRun(run, ending, at, id) => Append(s, Ended(ending), run, s.runs[run], at, id)
  }

  function Run(s: Sched, steps: seq<Step>): Sched {
    if steps == [] then s else Exec(Run(s, steps[..|steps| - 1]), steps[|steps| - 1])
  }

  // ---------------------------------------------------------------- the invariant

  /** A Run holds its session while it is ticketed, leased, or an unfinished root. */
  predicate Live(s: Sched, q: Queue, r: string) {
    r in s.tickets || r in s.roots || (IsRoot(q, r) && !StatusOf(q, r).Over?)
  }

  function SessionOf(s: Sched, q: Queue, r: string): string
    requires Live(s, q, r)
  {
    if r in s.tickets then s.tickets[r].session
    else if r in s.roots then s.roots[r].session
    else q.admissions[r].session
  }

  /** Tickets and leases are kept under their own Run, and a lease is for an admitted root. */
  ghost predicate Handles(s: Sched, q: Queue) {
    && "" !in s.tickets
    && (forall r :: r in s.tickets ==> s.tickets[r].run == r && r !in s.roots)
    && (forall r :: r in s.roots ==>
          s.roots[r].run == r && IsRoot(q, r) && q.admissions[r].session == s.roots[r].session)
    && (forall r :: r in s.tickets && r in s.runs ==>
          IsRoot(q, r) && q.admissions[r].session == s.tickets[r].session && r !in q.starts)
  }

  /** The folded queue speaks of known Runs only, and a root runs under its lease. */
  ghost predicate Rows(s: Sched, q: Queue) {
    && ValidQueue(q)
    && "" !in s.runs
    && (forall r :: r in q.admissions || r in q.starts || r in q.endings ==> r in s.runs)
    && (forall r :: IsRoot(q, r) && StatusOf(q, r) == Running ==> r in s.roots)
  }

  ghost predicate Owners(s: Sched, q: Queue) {
    Handles(s, q) && Rows(s, q)
  }

  /** The store's own terminal test agrees with the folded queue. */
  ghost predicate EndsAgree(log: seq<Fact>, q: Queue) {
    forall r :: IsTerminal(log, r) <==> r in q.endings
  }

  ghost predicate OnePerSession(s: Sched, q: Queue) {
    forall a, b :: Live(s, q, a) && Live(s, q, b) && SessionOf(s, q, a) == SessionOf(s, q, b) ==> a == b
  }

  ghost predicate WithinLimits(s: Sched, q: Queue) {
    ActiveCount(s, q) <= s.limits.activeRoots && WaitingCount(s, q) <= s.limits.waitingRoots
  }

  ghost predicate Inv(s: Sched) {
    Fold(s.log).Ok?
    && var q := Fold(s.log).value;
       Owners(s, q) && EndsAgree(s.log, q) && OnePerSession(s, q) && WithinLimits(s, q)
  }
}
