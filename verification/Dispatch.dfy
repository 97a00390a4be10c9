/** The scheduler and the dispatcher as objects: tickets, leases, futures and execution claims. */
module Dispatch {
  import opened Common
  import opened ExecutionKeys
  import opened Scheduling
  import opened SchedulerSafety

  class RuntimeStore {
    var log: seq<Fact>
    var runs: map<string, string>
    var sessions: set<string>
  }

  class Host {
    var admissions: map<string, string>     // execution key -> Run
    var lockedWorkspaces: set<string>
    var lockedSessions: set<string>
    var closed: bool
  }

  datatype Future = Pending | Resolved

  const NO_ENTRY := QueueEntry("", "", "", Queued, 0, "", Intent("", "", "", NoBinding))

  /** What the claim callback looks at. */
  datatype Resources = Resources(
    ready: map<string, Future>, admissions: map<string, string>,
    lockedWorkspaces: set<string>, lockedSessions: set<string>)

  /** Whether the claim callback accepts an entry. */
  predicate Claimable(held: Resources, e: QueueEntry) {
    && e.run in held.ready && held.ready[e.run] == Pending
    && ExecutionKey(e.run, e.intent) !in held.admissions
    && ExecutionKey(e.run, e.intent) !in held.lockedWorkspaces
    && e.session !in held.lockedSessions
  }

  /** The name under which the resource of an entry is held: a workspace under its own. */
  function HeldAs(e: QueueEntry): string {
    match ResourceOf(e)
    case Checkout(workspace) => workspace
    case Sandbox(id) => "sandbox" + ":" + id
    case Delivery(id) => "delivery_operation" + ":" + id
    case OwnOf(_) => KeyOf(e)
  }

  /** The Run waits for its dispatch, and its session and its resource are free and unlocked. */
  predicate Available(held: Resources, e: QueueEntry) {
    && e.run in held.ready && held.ready[e.run] == Pending && e.session !in held.lockedSessions
    && HeldAs(e) !in held.admissions && HeldAs(e) !in held.lockedWorkspaces
  }

  lemma ClaimableIffAvailable(held: Resources, e: QueueEntry)
    ensures Claimable(held, e) <==> Available(held, e)
    ensures KeyOf(e) == HeldAs(e)
  {
  }

  lemma CountsAddUp(s: Sched, q: Queue, running: nat, queued: nat)
    requires ValidQueue(q)
    requires running == Unowned(Entries(q), Running, Owned(s))
    requires queued == Unowned(Entries(q), Queued, Owned(s))
    ensures ActiveCount(s, q) == |s.roots| + |InLane(s, Active)| + running
    ensures WaitingCount(s, q) == |InLane(s, Waiting)| + queued
  {
    QueueCount(q, Running, Owned(s));
    QueueCount(q, Queued, Owned(s));
  }

  predicate Unfinished(entries: seq<QueueEntry>, session: string) {
    exists i :: 0 <= i < |entries| && entries[i].session == session && !entries[i].status.Over?
  }

  /** Unfinished work in a session, seen through the entries. */
  lemma BusyByEntries(s: Sched, q: Queue, session: string)
    requires ValidQueue(q)
    ensures SessionBusy(s, q, session) <==>
      HeldByOwner(s, session) || Unfinished(Entries(q), session)
  {
    EntriesExact(q, q.order);
    var entries := Entries(q);
    forall r | IsRoot(q, r) && q.admissions[r].session == session && !StatusOf(q, r).Over?
      ensures exists i :: 0 <= i < |entries| && entries[i].session == session && !entries[i].status.Over?
    {
      assert EntryOf(q, r) in entries;
      var i :| 0 <= i < |entries| && entries[i] == EntryOf(q, r);
    }
    forall i | 0 <= i < |entries| && entries[i].session == session && !entries[i].status.Over?
      ensures exists r :: r in q.admissions && IsRoot(q, r) && q.admissions[r].session == session
                          && !StatusOf(q, r).Over?
    {
      assert entries[i] in entries;
    }
  }

  lemma TakeTicketEffect(s: Sched, t: AdmissionTicket, startable: bool)
    requires LaneFor(s, t.run, t.session, startable) == Ok(t.lane)
    ensures Exec(s, TakeTicket(t, startable)) == s.(tickets := s.tickets[t.run := t])
  {
  }

  lemma MatchingEntry(q: Queue, t: AdmissionTicket)
    requires ValidQueue(q)
    ensures (exists e :: e in Entries(q) && e.run == t.run && e.session == t.session && e.status == Queued)
       <==> IsRoot(q, t.run) && q.admissions[t.run].session == t.session && StatusOf(q, t.run) == Queued
  {
    EntriesExact(q, q.order);
    if IsRoot(q, t.run) {
      assert EntryOf(q, t.run) in Entries(q);
    }
  }

  /**
   * A claim taken from the entries is a step of the scheduler, uses what the callback saw free, and
   * fills one of the active places.
   */
  lemma ClaimIsStep(s: Sched, q: Queue, held: Resources, lease: RootLease, entry: QueueEntry)
    requires Fold(s.log) == Ok(q) && ClaimedNext(s, q, held, lease.run, lease.session, entry)
    ensures Exec(s, Claim(lease)) == s.(roots := s.roots[lease.run := lease])
    ensures lease.run !in s.roots && KeyOf(entry) !in held.admissions && entry.run == lease.run
    ensures lease.run in held.ready && held.ready[lease.run] == Pending
    ensures |s.roots| < s.limits.activeRoots && |s.roots[lease.run := lease]| == |s.roots| + 1
  {
    var i :| EarliestTaken(s, q, held, i, lease.run, lease.session)
             && entry == Entries(q)[i];
    TakenIsEnabled(s, q, held, Entries(q)[i], lease);
    ClaimEffect(s, q, lease);
    RootInserted(s, lease.run, lease);
  }

  lemma ClaimEffect(s: Sched, q: Queue, lease: RootLease)
    requires Fold(s.log) == Ok(q) && Enabled(s, q, Claim(lease))
    ensures Exec(s, Claim(lease)) == s.(roots := s.roots[lease.run := lease])
  {
  }

  lemma TakenIsEnabled(s: Sched, q: Queue, held: Resources, e: QueueEntry, lease: RootLease)
    requires ValidQueue(q) && ActiveCount(s, q) < s.limits.activeRoots
    requires e in Entries(q) && Taken(s, q, held, e) && lease.run == e.run && lease.session == e.session
    ensures Enabled(s, q, Claim(lease)) && lease.run !in s.roots && |s.roots| < s.limits.activeRoots
  {
    EntriesExact(q, q.order);
  }

  class RuntimeScheduler {
    const store: RuntimeStore
    const limits: Limits
    var tickets: map<string, AdmissionTicket>
    var roots: map<string, RootLease>

    constructor (store: RuntimeStore, limits: Limits)
      ensures this.store == store && this.limits == limits && tickets == map[] && roots == map[]
    {
      this.store := store;
      this.limits := limits;
      tickets := map[];
      roots := map[];
    }

    function View(): Sched
      reads this, store
    {
      Sched(limits, store.log, store.runs, store.sessions, tickets, roots)
    }

    /** Active and waiting roots, counted over the entries of the folded log. */
    method Counts() returns (r: Result<(nat, nat)>)
      ensures Fold(store.log).Err? ==> r == Err(Fold(store.log).error)
      ensures Fold(store.log).Ok? ==>
        var q := Fold(store.log).value;
        r == Ok((ActiveCount(View(), q), WaitingCount(View(), q)))
    {
      var projected := ProjectQueue(store.log);
      if projected.Err? {
        return Err(projected.error);
      }
      var s := View();
      var active, waiting := Tally(s, Fold(s.log).value, projected.value);
      r := Ok((active, waiting));
    }

    static method Tally(s: Sched, ghost q: Queue, entries: seq<QueueEntry>)
      returns (active: nat, waiting: nat)
      requires ValidQueue(q) && entries == Entries(q)
      ensures active == ActiveCount(s, q) && waiting == WaitingCount(s, q)
    {
      var running := CountUnowned(entries, Running, Owned(s));
      var queued := CountUnowned(entries, Queued, Owned(s));
      CountsAddUp(s, q, running, queued);
      active := |s.roots| + |InLane(s, Active)| + running;
      waiting := |InLane(s, Waiting)| + queued;
    }

    static method CountUnowned(entries: seq<QueueEntry>, status: Status, owned: set<string>) returns (n: nat)
      ensures n == Unowned(entries, status, owned)
    {
      n := 0;
      for i := 0 to |entries|
        invariant n == Unowned(entries[..i], status, owned)
      {
        assert entries[..i + 1][..i] == entries[..i];
        if entries[i].status == status && entries[i].run !in owned {
          n := n + 1;
        }
      }
      assert entries[..|entries|] == entries;
    }

    static method AnyUnfinished(entries: seq<QueueEntry>, session: string) returns (found: bool)
      ensures found == Unfinished(entries, session)
    {
      for i := 0 to |entries|
        invariant forall j :: 0 <= j < i ==> entries[j].session == session ==> entries[j].status.Over?
      {
        if entries[i].session == session && !entries[i].status.Over? {
          return true;
        }
      }
      found := false;
    }

    /** The sessions a queued root may not be started in. */
    method ReadBusySessions(entries: seq<QueueEntry>) returns (busy: set<string>)
      requires Fold(store.log).Ok? && entries == Entries(Fold(store.log).value)
      ensures busy == BusySessions(View(), Fold(store.log).value)
    {
      RunningSessions(View(), Fold(store.log).value);
      busy := (set e | e in entries && e.status == Running :: e.session)
              + (set t | t in roots :: roots[t].session)
              + (set t | t in tickets :: tickets[t].session);
    }

    /** The checks of a new admission, and the lane that the counts allow. */
    method FindLane(run: string, session: string, startable: bool) returns (r: Result<Lane>)
      ensures r == LaneFor(View(), run, session, startable)
    {
      if run == "" || session == "" || session !in store.sessions {
        return Err("A Run identity and existing Session are required");
      }
      if run in tickets || run in roots || run in store.runs {
        return Err("Run identity already used");
      }
      if HeldByOwner(View(), session) {
        return Err("Session is busy with pending work");
      }
      var projected := ProjectQueue(store.log);
      if projected.Err? {
        return Err(projected.error);
      }
      BusyByEntries(View(), Fold(store.log).value, session);
      var unfinished := AnyUnfinished(projected.value, session);
      if unfinished {
        return Err("Session is busy with pending work");
      }
      var counts := Counts();
      if startable && counts.value.0 < limits.activeRoots {
        return Ok(Active);
      }
      if counts.value.1 >= limits.waitingRoots {
        return Err("Run queue is full");
      }
      r := Ok(Waiting);
    }

    method ReserveAdmission(run: string, session: string, startable: bool)
      returns (r: Result<AdmissionTicket>)
      modifies this`tickets
      ensures match LaneFor(old(View()), run, session, startable)
              case Err(e) => r == Err(e) && tickets == old(tickets)
              case Ok(lane) =>
                && r.Ok? && fresh(r.value)
                && r.value.run == run && r.value.session == session && r.value.lane == lane
                && View() == Exec(old(View()), TakeTicket(r.value, startable))
    {
      var lane := FindLane(run, session, startable);
      if lane.Err? {
        return Err(lane.error);
      }
      var ticket := new AdmissionTicket(run, session, lane.value);
      TakeTicketEffect(View(), ticket, startable);
      tickets := tickets[run := ticket];
      r := Ok(ticket);
    }

    /** Transfer an owned ticket to a lease, or to the queue, once its root admission is durable. */
    method CommitAdmission(ticket: AdmissionTicket) returns (r: Result<RootLease?>)
      modifies this`tickets, this`roots
      ensures match CommitProblem(old(View()), ticket)
              case Some(e) => r == Err(e) && View() == old(View())
              case None =>
                && r.Ok? && Fold(store.log).Ok?
                && (r.value != null ==> fresh(r.value))
                && Enabled(old(View()), Fold(store.log).value, CommitTicket(ticket, r.value))
                && View() == Exec(old(View()), CommitTicket(ticket, r.value))
    {
      if ticket.run !in tickets || tickets[ticket.run] != ticket {
        return Err("Admission ticket is not owned by this scheduler");
      }
      var projected := ProjectQueue(store.log);
      if projected.Err? {
        return Err(projected.error);
      }
      var matches := exists e :: e in projected.value && e.run == ticket.run
                         && e.session == ticket.session && e.status == Queued;
      MatchingEntry(Fold(store.log).value, ticket);
      if !matches {
        return Err("Matching unstarted root admission is required");
      }
      var granted: RootLease? := null;
      if ticket.lane == Active {
        granted := new RootLease(ticket.run, ticket.session);
        roots := roots[ticket.run := granted];
      }
      tickets := tickets - {ticket.run};
      r := Ok(granted);
    }

    method ReleaseTicket(ticket: AdmissionTicket) returns (r: Result<bool>)
      modifies this`tickets
      ensures var s := old(View());
              if ticket.run !in s.tickets || s.tickets[ticket.run] != ticket then
                r == Ok(false) && tickets == old(tickets)
              else if ticket.run !in s.runs || IsTerminal(s.log, ticket.run) then
                r == Ok(true) && tickets == old(tickets) - {ticket.run}
              else r.Err? && tickets == old(tickets)
    {
      if ticket.run !in tickets || tickets[ticket.run] != ticket {
        return Ok(false);
      }
      if ticket.run in store.runs && !IsTerminal(store.log, ticket.run) {
        return Err("Durable admission must be committed or terminated before release");
      }
      tickets := tickets - {ticket.run};
      r := Ok(true);
    }

    method ReleaseRoot(lease: RootLease) returns (r: Result<bool>)
      modifies this`roots
      ensures var s := old(View());
              if lease.run !in s.roots || s.roots[lease.run] != lease then
                r == Ok(false) && roots == old(roots)
              else if IsTerminal(s.log, lease.run) then
                r == Ok(true) && roots == old(roots) - {lease.run}
              else r.Err? && roots == old(roots)
    {
      if lease.run !in roots || roots[lease.run] != lease {
        return Ok(false);
      }
      if !IsTerminal(store.log, lease.run) {
        return Err("Root must reach a terminal fact before releasing its lease");
      }
      roots := roots - {lease.run};
      r := Ok(true);
    }

    /** Claim the oldest queued root that the dispatcher's callback accepts. */
    method ClaimNext(d: RunDispatch) returns (r: Result<Option<RootLease>>, ghost entry: QueueEntry)
      requires d.scheduler == this
      modifies this`roots, d.host`admissions, d`claimed
      ensures Fold(store.log).Err? ==> r.Err?
      ensures r.Err? || r.value.None? ==>
        roots == old(roots) && d.host.admissions == old(d.host.admissions) && d.claimed == old(d.claimed)
      ensures Fold(store.log).Ok? ==> r.Ok?
      ensures Fold(store.log).Ok? && r.value.None? ==>
        var q, s := Fold(store.log).value, old(View());
        NoMore(s, q, old(d.Held()))
      ensures Fold(store.log).Ok? && r.value.Some? ==>
        var q, s, lease := Fold(store.log).value, old(View()), r.value.value;
        && fresh(lease)
        && ClaimedNext(s, q, old(d.Held()), lease.run, lease.session, entry)
        && roots == old(roots)[lease.run := lease]
        && d.host.admissions == old(d.host.admissions)[KeyOf(entry) := lease.run]
        && d.claimed == old(d.claimed)[lease.run := entry]
    {
      entry := NO_ENTRY;
      var counts := Counts();
      if counts.Err? {
        return Err(counts.error), entry;
      }
      if counts.value.0 >= limits.activeRoots {
        return Ok(None), entry;
      }
      var projected := ProjectQueue(store.log);
      var lease;
      lease, entry := LeaseFirst(d, projected.value);
      r := Ok(if lease == null then None else Some(lease));
    }

    /** Give a lease for the first entry that the callback claims. */
    method LeaseFirst(d: RunDispatch, entries: seq<QueueEntry>) returns (lease: RootLease?, ghost entry: QueueEntry)
      requires d.scheduler == this
      requires Fold(store.log).Ok? && entries == Entries(Fold(store.log).value)
      requires ActiveCount(View(), Fold(store.log).value) < limits.activeRoots
      modifies this`roots, d.host`admissions, d`claimed
      ensures lease == null ==>
        && roots == old(roots) && d.host.admissions == old(d.host.admissions) && d.claimed == old(d.claimed)
        && NoMore(old(View()), Fold(store.log).value, old(d.Held()))
      ensures lease != null ==>
        && fresh(lease)
        && ClaimedNext(old(View()), Fold(store.log).value, old(d.Held()), lease.run, lease.session, entry)
        && roots == old(roots)[lease.run := lease]
        && d.host.admissions == old(d.host.admissions)[KeyOf(entry) := lease.run]
        && d.claimed == old(d.claimed)[lease.run := entry]
    {
      hide EarliestTaken, NoneTaken, Entries, ClaimedNext, KeyOf;
      ghost var s, held := View(), d.Held();
      var found := FirstAccepted(d, entries);
      if found.None? {
        return null, NO_ENTRY;
      }
      var first := entries[found.value];
      entry := first;
      EarliestIsNext(s, Fold(s.log).value, held, found.value, first.run, first.session, entry);
      lease := new RootLease(first.run, first.session);
      roots := roots[first.run := lease];
    }

    /** The loop over entries: offer each eligible one to the callback until it claims one. */
    method FirstAccepted(d: RunDispatch, entries: seq<QueueEntry>) returns (found: Option<nat>)
      requires Fold(store.log).Ok? && entries == Entries(Fold(store.log).value)
      modifies d.host`admissions, d`claimed
      ensures found.None? ==>
        && d.host.admissions == old(d.host.admissions) && d.claimed == old(d.claimed)
        && NoneTaken(View(), Fold(store.log).value, old(d.Held()), |entries|)
      ensures found.Some? ==>
        var i := found.value;
        && i < |entries|
        && EarliestTaken(View(), Fold(store.log).value, old(d.Held()), i, entries[i].run, entries[i].session)
        && d.host.admissions == old(d.host.admissions)[KeyOf(entries[i]) := entries[i].run]
        && d.claimed == old(d.claimed)[entries[i].run := entries[i]]
    {
      var busy := ReadBusySessions(entries);
      ghost var q, s, held := Fold(store.log).value, View(), d.Held();
      for i := 0 to |entries|
        invariant d.host.admissions == old(d.host.admissions) && d.claimed == old(d.claimed)
        invariant d.Held() == held
        invariant NoneTaken(s, q, held, i)
      {
        var entry := entries[i];
        OfferedIff(s, q, entry);
        NextEntry(s, q, held, i);
        if entry.status != Queued || entry.run in tickets || entry.run in roots || entry.session in busy {
          continue;
        }
        var accepted := d.Claim(entry);
        if accepted {
          return Some(i);
        }
      }
      found := None;
    }
  }

  /** The entry is offered by the scheduler and accepted by the callback. */
  predicate Taken(s: Sched, q: Queue, held: Resources, e: QueueEntry) {
    Offered(s, q, e) && Claimable(held, e)
  }

  ghost predicate NoneTaken(s: Sched, q: Queue, held: Resources, n: nat)
    requires ValidQueue(q)
  {
    forall j :: 0 <= j < n && j < |Entries(q)| ==> !Taken(s, q, held, Entries(q)[j])
  }

  /** Entry `i` is taken, and no entry committed before it could have been. */
  ghost predicate EarliestTaken(s: Sched, q: Queue, held: Resources, i: int, run: string, session: string)
    requires ValidQueue(q)
  {
    && 0 <= i < |Entries(q)|
    && Entries(q)[i].run == run && Entries(q)[i].session == session
    && Taken(s, q, held, Entries(q)[i])
    && NoneTaken(s, q, held, i)
  }

  /** The sessions of running entries are those of running roots. */
  lemma RunningSessions(s: Sched, q: Queue)
    requires ValidQueue(q)
    ensures BusySessions(s, q)
         == (set e | e in Entries(q) && e.status == Running :: e.session)
            + (set t | t in s.roots :: s.roots[t].session)
            + (set t | t in s.tickets :: s.tickets[t].session)
  {
    EntriesExact(q, q.order);
    var fromEntries := set e | e in Entries(q) && e.status == Running :: e.session;
    var fromRoots := set r | r in WithStatus(q, Running) && r in q.admissions :: q.admissions[r].session;
    forall x | x in fromRoots ensures x in fromEntries {
      var r :| r in WithStatus(q, Running) && r in q.admissions && q.admissions[r].session == x;
      assert EntryOf(q, r) in Entries(q);
    }
    assert fromEntries == fromRoots;
  }

  /** Capacity is used up or every offered entry is refused. */
  ghost predicate NoMore(s: Sched, q: Queue, held: Resources)
    requires ValidQueue(q)
  {
    ActiveCount(s, q) >= s.limits.activeRoots || NoneTaken(s, q, held, |Entries(q)|)
  }

  /** Below capacity, the earliest entry that could be taken has been, with its execution key. */
  ghost predicate ClaimedNext(
    s: Sched, q: Queue, held: Resources, run: string, session: string, entry: QueueEntry)
    requires ValidQueue(q)
  {
    && ActiveCount(s, q) < s.limits.activeRoots
    && exists i :: EarliestTaken(s, q, held, i, run, session) && entry == Entries(q)[i]
  }

  lemma EarliestIsNext(
    s: Sched, q: Queue, held: Resources, i: nat, run: string, session: string, entry: QueueEntry)
    requires ValidQueue(q) && ActiveCount(s, q) < s.limits.activeRoots
    requires EarliestTaken(s, q, held, i, run, session) && entry == Entries(q)[i]
    ensures ClaimedNext(s, q, held, run, session, entry)
  {
  }

  lemma OfferedIff(s: Sched, q: Queue, e: QueueEntry)
    ensures Offered(s, q, e) <==>
      !(e.status != Queued || e.run in s.tickets || e.run in s.roots || e.session in BusySessions(s, q))
  {
  }

  /** An entry may be claimed while its Run is queued without an owner and nothing else runs in its session. */
  lemma OfferedExact(s: Sched, q: Queue, e: QueueEntry)
    requires ValidQueue(q)
    ensures Offered(s, q, e) <==>
              && e.status == Queued && e.run !in s.tickets && e.run !in s.roots && !HeldByOwner(s, e.session)
              && forall x :: x in Entries(q) && x.status == Running ==> x.session != e.session
  {
    RunningSessions(s, q);
  }

  /** One entry further, the search either ends at it or has passed it. */
  lemma NextEntry(s: Sched, q: Queue, held: Resources, i: nat)
    requires ValidQueue(q) && i < |Entries(q)| && NoneTaken(s, q, held, i)
    ensures var e := Entries(q)[i];
            if Taken(s, q, held, e) then EarliestTaken(s, q, held, i, e.run, e.session)
            else NoneTaken(s, q, held, i + 1)
  {
  }

  class RunDispatch {
    const host: Host
    const scheduler: RuntimeScheduler
    var leases: map<string, RootLease>
    var ready: map<string, Future>
    ghost var claimed: map<string, QueueEntry>    // Run -> the entry it was claimed with

    constructor (host: Host, scheduler: RuntimeScheduler)
      ensures this.host == host && this.scheduler == scheduler
      ensures leases == map[] && ready == map[] && claimed == map[]
    {
      this.host := host;
      this.scheduler := scheduler;
      leases := map[];
      ready := map[];
      claimed := map[];
    }

    ghost predicate ClaimsHeld()
      reads this, host
    {
      EachKeyHeld(claimed, host.admissions)
    }

    ghost predicate Valid()
      reads this, host, scheduler, scheduler.store
    {
      Fold(scheduler.store.log).Ok? && Backed(Waiters(), scheduler.roots) && ClaimsHeld()
    }

    function Held(): Resources
      reads this, host
    {
      Resources(ready, host.admissions, host.lockedWorkspaces, host.lockedSessions)
    }

    function Waiters(): Futures
      reads this
    {
      Futures(leases, ready)
    }

    method Claim(entry: QueueEntry) returns (accepted: bool)
      modifies host`admissions, this`claimed
      ensures accepted == Claimable(old(Held()), entry) == Available(old(Held()), entry)
      ensures !accepted ==> host.admissions == old(host.admissions) && claimed == old(claimed)
      ensures accepted ==>
        && host.admissions == old(host.admissions)[KeyOf(entry) := entry.run]
        && host.admissions == old(host.admissions)[HeldAs(entry) := entry.run]
        && claimed == old(claimed)[entry.run := entry]
    {
      ClaimableIffAvailable(Held(), entry);
      if entry.run !in ready || ready[entry.run] != Pending {
        return false;
      }
      var key := ExecutionKey(entry.run, entry.intent);
      if key in host.admissions || key in host.lockedWorkspaces || entry.session in host.lockedSessions {
        return false;
      }
      host.admissions := host.admissions[key := entry.run];
      claimed := claimed[entry.run := entry];
      accepted := true;
    }

    /** Release every execution claim of one Run. */
    method ReleaseExecutionClaims(run: string)
      modifies host`admissions, this`claimed
      ensures host.admissions
           == map k | k in old(host.admissions) && old(host.admissions)[k] != run :: old(host.admissions)[k]
      ensures claimed == old(claimed) - {run}
      ensures old(ClaimsHeld()) ==> ClaimsHeld()
    {
      host.admissions := map k | k in host.admissions && host.admissions[k] != run :: host.admissions[k];
      claimed := claimed - {run};
    }

    /**
     * The host reserves a workspace for a Run that it is admitting, which it refuses while the workspace is
     * reserved or locked.
     */
    method ReserveWorkspace(run: string, workspace: string) returns (r: Result<()>)
      requires Valid()
      modifies host`admissions
      ensures Valid()
      ensures r.Ok? <==> workspace !in old(host.admissions) && workspace !in host.lockedWorkspaces
      ensures host.admissions == if r.Ok? then old(host.admissions)[workspace := run] else old(host.admissions)
    {
      if workspace in host.admissions || workspace in host.lockedWorkspaces {
        return Err("Workspace is busy");
      }
      RecordKey(run, workspace);
      r := Ok(());
    }

    /** The host records a key of its own Run: one that nobody holds yet, or that the Run holds already. */
    method RecordKey(run: string, key: string)
      requires Valid() && (key in host.admissions ==> host.admissions[key] == run)
      modifies host`admissions
      ensures Valid() && host.admissions == old(host.admissions)[key := run]
    {
      host.admissions := host.admissions[key := run];
    }

    /** No further root can be claimed: capacity is used up or every offered entry is refused. */
    ghost predicate Exhausted()
      reads this, host, scheduler, scheduler.store
    {
      Fold(scheduler.store.log).Ok?
      && var q := Fold(scheduler.store.log).value;
         NoMore(scheduler.View(), q, Held())
    }

    /**
     * Claim leases until the scheduler offers no more, letting each claimed Run go. `steps` are the
     * scheduler's own steps that this amounts to.
     */
    method Dispatch() returns (ghost steps: seq<Step>)
      requires Valid()
      modifies this, host`admissions, scheduler`roots
      ensures Valid() && OnlyReleased(old(Waiters()), Waiters())
      ensures scheduler.View() == Run(old(scheduler.View()), steps)
      ensures host.closed ==>
        steps == [] && leases == old(leases) && ready == old(ready)
        && host.admissions == old(host.admissions) && claimed == old(claimed)
      ensures !host.closed ==> Exhausted()
    {
      hide NoMore, Exec;
      steps := [];
      if host.closed {
        return;
      }
      ghost var start, first := scheduler.View(), Waiters();
      var more := true;
      while more
        invariant Valid() && OnlyReleased(first, Waiters())
        invariant scheduler.View() == Run(start, steps)
        invariant !more ==> Exhausted()
        decreases scheduler.limits.activeRoots - |scheduler.roots|, more
      {
        ghost var step;
        ghost var before, held := steps, Waiters();
        more, step := ClaimOnce();
        if more {
          ReleasedOneMore(first, held, Waiters(), step.lease, step.lease.run);
          RunAppend(start, before, step);
          steps := before + [step];
        }
      }
    }

    /** One turn of the dispatch loop: claim the next root and resolve its future, or stop. */
    method ClaimOnce() returns (more: bool, ghost step: Step)
      requires Valid()
      modifies this, host`admissions, scheduler`roots
      ensures Valid()
      ensures !more ==> Exhausted() && Unmoved()
      ensures more ==>
        && step.Claim? && var run := step.lease.run;
        && scheduler.View() == Exec(old(scheduler.View()), step)
        && |old(scheduler.roots)| < scheduler.limits.activeRoots
        && |scheduler.roots| == |old(scheduler.roots)| + 1
        && run !in old(leases) && leases == old(leases)[run := step.lease]
        && run in old(ready) && old(ready)[run] == Pending && ready == old(ready)[run := Resolved]
    {
      hide Backed, EachKeyHeld, KeyOf, NoMore, Exec;
      step := OpenSession("");
      ghost var w, roots, taken, admissions := Waiters(), scheduler.roots, claimed, host.admissions;
      ghost var entry;
      var lease;
      lease, entry := NextLease();
      if lease == null {
        return false, step;
      }
      step := Step.Claim(lease);
      LeaseKept(w, roots, lease);
      KeyKept(taken, admissions, entry);
      leases := leases[lease.run := lease];
      ready := ready[lease.run := Resolved];
      more := true;
    }

    /** Ask the scheduler for the next lease: its own step, and a key that no admission held. */
    method NextLease() returns (lease: RootLease?, ghost entry: QueueEntry)
      requires Fold(scheduler.store.log).Ok?
      modifies this`claimed, host`admissions, scheduler`roots
      ensures lease == null ==> Exhausted() && Unmoved()
      ensures lease != null ==>
        && scheduler.View() == Exec(old(scheduler.View()), Step.Claim(lease))
        && scheduler.roots == old(scheduler.roots)[lease.run := lease]
        && |old(scheduler.roots)| < scheduler.limits.activeRoots
        && |scheduler.roots| == |old(scheduler.roots)| + 1
        && lease.run !in old(scheduler.roots)
        && lease.run in ready && ready[lease.run] == Pending
        && KeyOf(entry) !in old(host.admissions) && entry.run == lease.run
        && host.admissions == old(host.admissions)[KeyOf(entry) := lease.run]
        && claimed == old(claimed)[lease.run := entry]
    {
      hide NoMore, ClaimedNext, ActiveCount, Exec;
      ghost var q, s, held := Fold(scheduler.store.log).value, scheduler.View(), Held();
      var next;
      next, entry := scheduler.ClaimNext(this);
      if next.value.None? {
        assert scheduler.View() == s && Held() == held;
        return null, entry;
      }
      lease := next.value.value;
      ClaimIsStep(s, q, held, lease, entry);
      assert scheduler.View() == s.(roots := s.roots[lease.run := lease]);
    }

    twostate predicate Unmoved()
      reads this, host, scheduler
    {
      leases == old(leases) && ready == old(ready) && scheduler.roots == old(scheduler.roots)
      && host.admissions == old(host.admissions) && claimed == old(claimed)
    }

    /** Called once a root admission is durable under its ticket. */
    method Admitted(ticket: AdmissionTicket) returns (r: Result<()>, ghost steps: seq<Step>)
      requires Valid()
      modifies this, host`admissions, scheduler`tickets, scheduler`roots
      ensures Valid() && ready == old(ready)
      ensures scheduler.View() == Run(old(scheduler.View()), steps)
      ensures match CommitProblem(old(scheduler.View()), ticket)
              case Some(e) => r == Err(e) && steps == [] && leases == old(leases)
              case None =>
                && r == Ok(()) && |steps| == 1 && steps[0].CommitTicket? && steps[0].ticket == ticket
                && (ticket.lane == Active ==>
                      leases.Keys == old(leases).Keys + {ticket.run} && host.admissions == old(host.admissions))
                && (ticket.lane == Waiting ==>
                      leases == old(leases)
                      && forall k :: k in host.admissions ==> host.admissions[k] != ticket.run)
    {
      hide CommitProblem, Run;
      ghost var w, roots := Waiters(), scheduler.roots;
      var granted;
      granted, steps := Grant(ticket);
      if granted.Err? {
        return Err(granted.error), steps;
      }
      r := Ok(());
      if granted.value != null {
        LeaseGranted(w, roots, granted.value);
        leases := leases[ticket.run := granted.value];
      } else {
        ReleaseExecutionClaims(ticket.run);
      }
    }

    /** Commit the ticket with the scheduler: its step, and the lease it grants. */
    method Grant(ticket: AdmissionTicket) returns (granted: Result<RootLease?>, ghost steps: seq<Step>)
      requires Fold(scheduler.store.log).Ok?
      modifies scheduler`tickets, scheduler`roots
      ensures scheduler.View() == Run(old(scheduler.View()), steps)
      ensures match CommitProblem(old(scheduler.View()), ticket)
              case Some(e) => granted == Err(e) && steps == [] && scheduler.roots == old(scheduler.roots)
              case None =>
                && granted.Ok? && steps == [CommitTicket(ticket, granted.value)]
                && (granted.value == null <==> ticket.lane == Waiting)
                && (granted.value == null ==> scheduler.roots == old(scheduler.roots))
                && (granted.value != null ==>
                      granted.value.run == ticket.run
                      && scheduler.roots == old(scheduler.roots)[ticket.run := granted.value])
    {
      ghost var s := scheduler.View();
      granted := scheduler.CommitAdmission(ticket);
      if granted.Err? {
        return granted, [];
      }
      steps := [CommitTicket(ticket, granted.value)];
      RunAppend(s, [], steps[0]);
      CommitEffect(s, ticket, granted.value);
    }

    /** Register the Run's future: let it go if it holds a lease, else try to dispatch. */
    method Start(run: string) returns (ghost steps: seq<Step>)
      requires Valid()
      modifies this, host`admissions, scheduler`roots
      ensures Valid()
      ensures scheduler.View() == Run(old(scheduler.View()), steps)
      ensures ready.Keys == old(ready).Keys + {run}
      ensures run in old(leases) ==>
        steps == [] && ready == old(ready)[run := Resolved] && leases == old(leases)
        && host.admissions == old(host.admissions)
      ensures run !in old(leases) && !host.closed ==> Exhausted()
    {
      hide NoMore;
      ready := ready[run := Pending];
      if run in leases {
        ready := ready[run := Resolved];
        steps := [];
      } else {
        steps := Dispatch();
      }
    }

    /** Called after terminal persistence and cleanup: give up the lease and dispatch again. */
    method Finished(run: string) returns (r: Result<()>, ghost steps: seq<Step>)
      requires Valid()
      modifies this, host`admissions, scheduler`roots
      ensures Valid()
      ensures scheduler.View() == Run(old(scheduler.View()), steps)
      ensures run in old(leases) && !IsTerminal(scheduler.store.log, run) ==>
        r.Err? && steps == [] && leases == old(leases) - {run}
      ensures run !in old(leases) || IsTerminal(scheduler.store.log, run) ==>
        r == Ok(()) && run !in ready && (!host.closed ==> Exhausted())
    {
      steps := [];
      ready := ready - {run};
      if run in leases {
        var released, step := GiveUp(run);
        if released.Err? {
          return Err(released.error), [];
        }
        steps := [step];
      }
      ghost var s := scheduler.View();
      ghost var more := Dispatch();
      RunConcat(old(scheduler.View()), steps, more);
      steps := steps + more;
      r := Ok(());
    }

    /** Take the Run's lease away here and in the scheduler, which refuses before the Run is over. */
    method GiveUp(run: string) returns (r: Result<bool>, ghost step: Step)
      requires Valid() && run in leases && run !in ready
      modifies this`leases, scheduler`roots
      ensures Valid() && leases == old(leases) - {run}
      ensures r.Ok? <==> IsTerminal(scheduler.store.log, run)
      ensures r.Err? ==> scheduler.View() == old(scheduler.View())
      ensures r.Ok? ==> scheduler.View() == Run(old(scheduler.View()), [step])
    {
      hide Run, Exec, IsTerminal;
      var lease := leases[run];
      ghost var s := scheduler.View();
      leases := leases - {run};
      r := scheduler.ReleaseRoot(lease);
      step := DropRoot(lease);
      RunOne(s, step);
      DropRootEffect(s, lease);
    }
  }

  datatype Futures = Futures(leases: map<string, RootLease>, ready: map<string, Future>)

  /** Leases are the scheduler's own, and only a leased Run has been let go. */
  ghost predicate Backed(w: Futures, roots: map<string, RootLease>) {
    && (forall r :: r in w.leases ==> r in roots && roots[r] == w.leases[r] && w.leases[r].run == r)
    && (forall r :: r in w.ready && w.ready[r] == Resolved ==> r in w.leases)
  }

  /** Each claiming Run holds its own execution key: no two of them share one. */
  ghost predicate EachKeyHeld(claimed: map<string, QueueEntry>, admissions: map<string, string>) {
    forall r :: r in claimed ==>
      claimed[r].run == r && KeyOf(claimed[r]) in admissions && admissions[KeyOf(claimed[r])] == r
  }

  lemma LeaseKept(w: Futures, roots: map<string, RootLease>, lease: RootLease)
    requires Backed(w, roots) && lease.run !in roots
    ensures lease.run !in w.leases
    ensures Backed(Futures(w.leases[lease.run := lease], w.ready[lease.run := Resolved]), roots[lease.run := lease])
  {
  }

  lemma LeaseGranted(w: Futures, roots: map<string, RootLease>, lease: RootLease)
    requires Backed(w, roots)
    ensures Backed(w.(leases := w.leases[lease.run := lease]), roots[lease.run := lease])
  {
  }

  lemma KeyKept(claimed: map<string, QueueEntry>, admissions: map<string, string>, e: QueueEntry)
    requires EachKeyHeld(claimed, admissions) && KeyOf(e) !in admissions
    ensures EachKeyHeld(claimed[e.run := e], admissions[KeyOf(e) := e.run])
  {
  }

  /** Futures change only from pending to resolved, once, for a Run that has just got its lease. */
  ghost predicate OnlyReleased(before: Futures, after: Futures) {
    && after.ready.Keys == before.ready.Keys
    && (forall r :: r in before.leases ==> r in after.leases && after.leases[r] == before.leases[r])
    && (forall r :: r in after.ready && after.ready[r] != before.ready[r] ==>
          && before.ready[r] == Pending && after.ready[r] == Resolved
          && r in after.leases && r !in before.leases)
  }

  lemma ReleasedOneMore(start: Futures, before: Futures, after: Futures, lease: RootLease, run: string)
    requires OnlyReleased(start, before)
    requires run !in before.leases && run in before.ready && before.ready[run] == Pending
    requires after == Futures(before.leases[run := lease], before.ready[run := Resolved])
    ensures OnlyReleased(start, after)
  {
  }

  lemma RunOne(s: Sched, step: Step)
    ensures Run(s, [step]) == Exec(s, step)
  {
    assert [step][..0] == [];
  }

  lemma RunAppend(s: Sched, steps: seq<Step>, step: Step)
    ensures Run(s, steps + [step]) == Exec(Run(s, steps), step)
  {
    assert (steps + [step])[..|steps|] == steps;
  }

  lemma {:induction false} RunConcat(s: Sched, a: seq<Step>, b: seq<Step>)
    ensures Run(s, a + b) == Run(Run(s, a), b)
    decreases |b|
  {
    if b == [] {
      assert a + b == a;
    } else {
      var n := |b| - 1;
      RunConcat(s, a, b[..n]);
      RunAppend(s, a + b[..n], b[n]);
      Associate(a, b[..n], [b[n]]);
      assert b == b[..n] + [b[n]];
    }
  }

  lemma CommitEffect(s: Sched, t: AdmissionTicket, granted: RootLease?)
    requires Fold(s.log).Ok? && Enabled(s, Fold(s.log).value, CommitTicket(t, granted))
    ensures var s' := Exec(s, CommitTicket(t, granted));
            && (granted == null <==> t.lane == Waiting) && (granted != null ==> granted.run == t.run)
            && s'.log == s.log && s'.tickets == s.tickets - {t.run}
            && s'.roots == (if granted != null then s.roots[t.run := granted] else s.roots)
  {
  }

  lemma DropRootEffect(s: Sched, lease: RootLease)
    requires Fold(s.log).Ok?
    ensures MayReleaseRoot(s, lease) ==> Exec(s, DropRoot(lease)) == s.(roots := s.roots - {lease.run})
  {
  }

  /** Claims that are held at once are never for one workspace, copy or delivery. */
  lemma ClaimsExclusive(d: RunDispatch, a: string, b: string)
    requires d.Valid() && a in d.claimed && b in d.claimed && a != b
    ensures ResourceOf(d.claimed[a]) != ResourceOf(d.claimed[b])
  {
    if ResourceOf(d.claimed[a]) == ResourceOf(d.claimed[b]) {
      SharedResourceSharesKey(d.claimed[a], d.claimed[b]);
    }
  }
}
