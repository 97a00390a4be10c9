/** The scheduler's invariant over every run: who owns what, one Run per session, capacity. */
module SchedulerSafety {
  import opened Common
  import opened Scheduling

  // ---------------------------------------------------------------- cardinalities

  lemma Inserted(a: set<string>, b: set<string>, x: string)
    requires b == a + {x}
    ensures |b| == |a| + if x in a then 0 else 1
  {
    if x in a {
      assert b == a;
    }
  }

  lemma Shrinks(a: set<string>, b: set<string>)
    requires a <= b
    ensures |a| <= |b|
  {
    assert b == a + (b - a);
  }

  /** The sets whose sizes the counts add up. */
  function QueuedFree(s: Sched, q: Queue): set<string> {
    WithStatus(q, Queued) - Owned(s)
  }

  function RunningFree(s: Sched, q: Queue): set<string> {
    WithStatus(q, Running) - Owned(s)
  }

  lemma NothingRunsUnowned(s: Sched, q: Queue)
    requires Owners(s, q)
    ensures RunningFree(s, q) == {}
  {
  }

  lemma DisjointUnion(a: set<string>, b: set<string>)
    requires a !! b
    ensures |a + b| == |a| + |b|
  {
  }

  lemma GroupsDisjoint(s: Sched, q: Queue)
    requires Owners(s, q)
    ensures s.roots.Keys !! InLane(s, Active) && s.roots.Keys !! InLane(s, Waiting)
    ensures s.roots.Keys !! RunningFree(s, q) && s.roots.Keys !! QueuedFree(s, q)
    ensures InLane(s, Active) !! InLane(s, Waiting)
    ensures InLane(s, Active) !! RunningFree(s, q) && InLane(s, Active) !! QueuedFree(s, q)
    ensures InLane(s, Waiting) !! RunningFree(s, q) && InLane(s, Waiting) !! QueuedFree(s, q)
    ensures RunningFree(s, q) !! QueuedFree(s, q)
  {
  }

  function ActiveRuns(s: Sched, q: Queue): set<string> {
    s.roots.Keys + InLane(s, Active) + RunningFree(s, q)
  }

  function WaitingRuns(s: Sched, q: Queue): set<string> {
    InLane(s, Waiting) + QueuedFree(s, q)
  }

  /**
   * No Run is counted twice: the groups behind the two counts are pairwise disjoint, so the counts
   * are the sizes of two disjoint sets of Runs.
   */
  lemma CountedOnce(s: Sched, q: Queue)
    requires Owners(s, q)
    ensures ActiveRuns(s, q) !! WaitingRuns(s, q)
    ensures ActiveCount(s, q) == |ActiveRuns(s, q)| && WaitingCount(s, q) == |WaitingRuns(s, q)|
  {
    GroupsDisjoint(s, q);
    var roots, active, running := s.roots.Keys, InLane(s, Active), RunningFree(s, q);
    DisjointUnion(roots, active);
    DisjointUnion(roots + active, running);
    DisjointUnion(InLane(s, Waiting), QueuedFree(s, q));
  }

  // ---------------------------------------------------------------- sessions

  ghost predicate SameLive(s: Sched, q: Queue, s': Sched, q': Queue, a: string) {
    Live(s', q', a) ==> Live(s, q, a) && SessionOf(s', q', a) == SessionOf(s, q, a)
  }

  /** Sessions stay exclusive when no Run becomes live, or moves to another session. */
  lemma NoneAdded(s: Sched, q: Queue, s': Sched, q': Queue)
    requires OnePerSession(s, q) && forall a :: SameLive(s, q, s', q', a)
    ensures OnePerSession(s', q')
  {
    forall a, b | Live(s', q', a) && Live(s', q', b) && SessionOf(s', q', a) == SessionOf(s', q', b)
      ensures a == b
    {
      assert SameLive(s, q, s', q', a) && SameLive(s, q, s', q', b);
    }
  }

  /** Sessions stay exclusive when one Run becomes live in a session that no live Run holds. */
  lemma OneAdded(s: Sched, q: Queue, s': Sched, q': Queue, x: string, session: string)
    requires OnePerSession(s, q) && forall a :: a != x ==> SameLive(s, q, s', q', a)
    requires Live(s', q', x) && SessionOf(s', q', x) == session
    requires forall a :: Live(s, q, a) ==> SessionOf(s, q, a) != session
    ensures OnePerSession(s', q')
  {
    forall a, b | Live(s', q', a) && Live(s', q', b) && SessionOf(s', q', a) == SessionOf(s', q', b)
      ensures a == b
    {
      assert a != x ==> SameLive(s, q, s', q', a);
      assert b != x ==> SameLive(s, q, s', q', b);
    }
  }

  lemma NotBusy(s: Sched, q: Queue, session: string)
    requires Owners(s, q) && !SessionBusy(s, q, session)
    ensures forall a :: Live(s, q, a) ==> SessionOf(s, q, a) != session
  {
  }

  // ---------------------------------------------------------------- groups after a step

  /** Taking (or, read backwards, giving up) a ticket changes exactly its own lane. */
  lemma LaneSets(s: Sched, s': Sched, t: AdmissionTicket)
    requires t.run !in s.tickets && s'.tickets == s.tickets[t.run := t]
    ensures InLane(s', t.lane) == InLane(s, t.lane) + {t.run} && t.run !in InLane(s, t.lane)
    ensures t.lane != Active ==> InLane(s', Active) == InLane(s, Active)
    ensures t.lane != Waiting ==> InLane(s', Waiting) == InLane(s, Waiting)
  {
  }

  lemma LaneChange(s: Sched, s': Sched, t: AdmissionTicket)
    requires t.run !in s.tickets && s'.tickets == s.tickets[t.run := t]
    ensures |InLane(s', Active)| == |InLane(s, Active)| + (if t.lane == Active then 1 else 0)
    ensures |InLane(s', Waiting)| == |InLane(s, Waiting)| + (if t.lane == Waiting then 1 else 0)
  {
    LaneSets(s, s', t);
    Inserted(InLane(s, t.lane), InLane(s', t.lane), t.run);
  }

  lemma CountsByGroups(s: Sched, q: Queue)
    requires Owners(s, q)
    ensures ActiveCount(s, q) == |s.roots| + |InLane(s, Active)|
    ensures WaitingCount(s, q) == |InLane(s, Waiting)| + |QueuedFree(s, q)|
  {
    NothingRunsUnowned(s, q);
  }

  lemma SameLanes(s: Sched, s': Sched)
    requires s'.tickets == s.tickets
    ensures InLane(s', Active) == InLane(s, Active) && InLane(s', Waiting) == InLane(s, Waiting)
  {
  }

  lemma FreedQueued(s: Sched, s': Sched, q: Queue, r: string)
    requires Owned(s) == Owned(s') + {r} && r !in Owned(s') && r in WithStatus(q, Queued)
    ensures QueuedFree(s', q) == QueuedFree(s, q) + {r} && r !in QueuedFree(s, q)
  {
  }

  lemma RootInserted(s: Sched, r: string, lease: RootLease)
    requires r !in s.roots
    ensures |s.roots[r := lease]| == |s.roots| + 1
  {
    assert s.roots[r := lease].Keys == s.roots.Keys + {r};
  }

  lemma RootRemoved(s: Sched, r: string)
    requires r in s.roots
    ensures |s.roots - {r}| <= |s.roots|
  {
    assert (s.roots - {r}).Keys == s.roots.Keys - {r};
    assert |(s.roots - {r}).Keys| <= |s.roots.Keys|;
  }

  // ---------------------------------------------------------------- steps of the scheduler

  lemma TakeTicketKeeps(s: Sched, q: Queue, t: AdmissionTicket, startable: bool)
    requires Inv(s) && Fold(s.log) == Ok(q) && Enabled(s, q, TakeTicket(t, startable))
    ensures Inv(Exec(s, TakeTicket(t, startable)))
  {
    var s' := s.(tickets := s.tickets[t.run := t]);
    assert Exec(s, TakeTicket(t, startable)) == s';
    TakeTicketChecked(s, q, t, startable);
    TakeTicketOwners(s, q, t);
    NotBusy(s, q, t.session);
    TakeTicketLive(s, q, t);
    OneAdded(s, q, s', q, t.run, t.session);
    TakeTicketCounts(s, q, t);
  }

  /** What the scheduler has checked before it hands out a ticket. */
  lemma TakeTicketChecked(s: Sched, q: Queue, t: AdmissionTicket, startable: bool)
    requires Owners(s, q) && Fold(s.log) == Ok(q) && Enabled(s, q, TakeTicket(t, startable))
    ensures t.run != "" && t.run !in s.tickets && t.run !in s.roots && t.run !in s.runs
    ensures !IsRoot(q, t.run) && !SessionBusy(s, q, t.session)
    ensures t.lane == Active ==> ActiveCount(s, q) < s.limits.activeRoots
    ensures t.lane == Waiting ==> WaitingCount(s, q) < s.limits.waitingRoots
  {
  }

  lemma TakeTicketCounts(s: Sched, q: Queue, t: AdmissionTicket)
    requires t.run !in s.tickets && t.run !in WithStatus(q, Queued)
    requires Owners(s, q) && Owners(s.(tickets := s.tickets[t.run := t]), q)
    ensures var s' := s.(tickets := s.tickets[t.run := t]);
            && ActiveCount(s', q) == ActiveCount(s, q) + (if t.lane == Active then 1 else 0)
            && WaitingCount(s', q) == WaitingCount(s, q) + (if t.lane == Waiting then 1 else 0)
  {
    var s' := s.(tickets := s.tickets[t.run := t]);
    CountsByGroups(s, q);
    CountsByGroups(s', q);
    LaneChange(s, s', t);
    TicketQueue(s, s', q, t);
  }

  lemma TicketQueue(s: Sched, s': Sched, q: Queue, t: AdmissionTicket)
    requires s'.tickets == s.tickets[t.run := t] && s'.roots == s.roots && t.run !in WithStatus(q, Queued)
    ensures QueuedFree(s', q) == QueuedFree(s, q)
  {
    assert Owned(s') == Owned(s) + {t.run};
  }

  lemma TakeTicketOwners(s: Sched, q: Queue, t: AdmissionTicket)
    requires Owners(s, q) && t.run != "" && t.run !in s.tickets && t.run !in s.roots && t.run !in s.runs
    ensures Owners(s.(tickets := s.tickets[t.run := t]), q)
  {
  }

  lemma TakeTicketLive(s: Sched, q: Queue, t: AdmissionTicket)
    ensures var s' := s.(tickets := s.tickets[t.run := t]);
            && Live(s', q, t.run) && SessionOf(s', q, t.run) == t.session
            && forall a :: a != t.run ==> SameLive(s, q, s', q, a)
  {
  }

  function Committed(s: Sched, t: AdmissionTicket, lease: RootLease?): Sched {
    s.(tickets := s.tickets - {t.run},
       roots := if lease != null then s.roots[t.run := lease] else s.roots)
  }

  lemma CommitKeeps(s: Sched, q: Queue, t: AdmissionTicket, lease: RootLease?)
    requires Inv(s) && Fold(s.log) == Ok(q)
    requires Enabled(s, q, CommitTicket(t, lease))
    ensures Inv(Exec(s, CommitTicket(t, lease)))
  {
    var s' := Committed(s, t, lease);
    assert Exec(s, CommitTicket(t, lease)) == s';
    CommitOwners(s, q, t, lease);
    CommitLive(s, q, t, lease);
    NoneAdded(s, q, s', q);
    CommitCounts(s, q, t, lease);
  }

  ghost predicate Committable(s: Sched, q: Queue, t: AdmissionTicket, lease: RootLease?) {
    && Owners(s, q) && t.run in s.tickets && s.tickets[t.run] == t
    && IsRoot(q, t.run) && q.admissions[t.run].session == t.session
    && StatusOf(q, t.run) == Queued
    && (lease == null <==> t.lane == Waiting)
    && (lease != null ==> lease.run == t.run && lease.session == t.session)
  }

  lemma CommitOwners(s: Sched, q: Queue, t: AdmissionTicket, lease: RootLease?)
    requires Committable(s, q, t, lease)
    ensures Owners(Committed(s, t, lease), q)
  {
  }

  lemma CommitLive(s: Sched, q: Queue, t: AdmissionTicket, lease: RootLease?)
    requires Committable(s, q, t, lease)
    ensures forall a :: SameLive(s, q, Committed(s, t, lease), q, a)
  {
  }

  /** Committing moves one Run between groups of the same count. */
  lemma CommitCounts(s: Sched, q: Queue, t: AdmissionTicket, lease: RootLease?)
    requires Committable(s, q, t, lease) && Owners(Committed(s, t, lease), q)
    ensures var s' := Committed(s, t, lease);
            ActiveCount(s', q) == ActiveCount(s, q) && WaitingCount(s', q) == WaitingCount(s, q)
  {
    var s' := Committed(s, t, lease);
    CountsByGroups(s, q);
    CountsByGroups(s', q);
    CommitLanes(s, t, lease);
    CommitQueue(s, q, t, lease);
  }

  lemma CommitQueue(s: Sched, q: Queue, t: AdmissionTicket, lease: RootLease?)
    requires t.run in s.tickets && t.run !in s.roots && (lease == null <==> t.lane == Waiting)
    requires t.run in WithStatus(q, Queued)
    ensures |QueuedFree(Committed(s, t, lease), q)|
         == |QueuedFree(s, q)| + (if t.lane == Waiting then 1 else 0)
  {
    if t.lane == Active {
      CommitActiveQueue(s, q, t, lease);
    } else {
      CommitWaitingQueue(s, q, t, lease);
    }
  }

  lemma CommitLanes(s: Sched, t: AdmissionTicket, lease: RootLease?)
    requires t.run in s.tickets && s.tickets[t.run] == t && t.run !in s.roots && (lease == null <==> t.lane == Waiting)
    ensures var s' := Committed(s, t, lease);
            && |InLane(s, Active)| + |s.roots| == |InLane(s', Active)| + |s'.roots|
            && |InLane(s, Waiting)| == |InLane(s', Waiting)| + (if t.lane == Waiting then 1 else 0)
  {
    var s' := Committed(s, t, lease);
    assert s.tickets == s'.tickets[t.run := t];
    LaneChange(s', s, t);
    if t.lane == Active {
      RootInserted(s, t.run, lease);
    }
  }

  lemma CommitActiveQueue(s: Sched, q: Queue, t: AdmissionTicket, lease: RootLease?)
    requires t.run in s.tickets && t.lane == Active && lease != null
    ensures QueuedFree(Committed(s, t, lease), q) == QueuedFree(s, q)
  {
    assert Owned(Committed(s, t, lease)) == Owned(s);
  }

  lemma CommitWaitingQueue(s: Sched, q: Queue, t: AdmissionTicket, lease: RootLease?)
    requires t.run in s.tickets && t.run !in s.roots && t.lane == Waiting && lease == null
    requires t.run in WithStatus(q, Queued)
    ensures |QueuedFree(Committed(s, t, lease), q)| == |QueuedFree(s, q)| + 1
  {
    var s' := Committed(s, t, lease);
    assert Owned(s) == Owned(s') + {t.run};
    FreedQueued(s, s', q, t.run);
    Inserted(QueuedFree(s, q), QueuedFree(s', q), t.run);
  }

  lemma DropTicketKeeps(s: Sched, q: Queue, t: AdmissionTicket)
    requires Inv(s) && Fold(s.log) == Ok(q) && Enabled(s, q, DropTicket(t))
    ensures Inv(Exec(s, DropTicket(t)))
  {
    var s' := s.(tickets := s.tickets - {t.run});
    assert Exec(s, DropTicket(t)) == s';
    DroppedTicketIsOver(s, q, t);
    DropTicketOwners(s, q, t);
    DropTicketLive(s, q, t);
    NoneAdded(s, q, s', q);
    DropTicketCounts(s, q, t);
  }

  lemma DropTicketCounts(s: Sched, q: Queue, t: AdmissionTicket)
    requires t.run in s.tickets && s.tickets[t.run] == t && t.run !in WithStatus(q, Queued)
    requires Owners(s, q) && Owners(s.(tickets := s.tickets - {t.run}), q)
    ensures var s' := s.(tickets := s.tickets - {t.run});
            ActiveCount(s', q) <= ActiveCount(s, q) && WaitingCount(s', q) <= WaitingCount(s, q)
  {
    var s' := s.(tickets := s.tickets - {t.run});
    CountsByGroups(s, q);
    CountsByGroups(s', q);
    DropLanes(s, s', q, t);
  }

  lemma DropLanes(s: Sched, s': Sched, q: Queue, t: AdmissionTicket)
    requires t.run in s.tickets && s.tickets[t.run] == t && t.run !in WithStatus(q, Queued)
    requires s'.tickets == s.tickets - {t.run} && s'.roots == s.roots
    ensures |InLane(s', Active)| <= |InLane(s, Active)| && |InLane(s', Waiting)| <= |InLane(s, Waiting)|
    ensures QueuedFree(s', q) == QueuedFree(s, q)
  {
    assert s.tickets == s'.tickets[t.run := t];
    LaneChange(s', s, t);
    TicketQueue(s', s, q, t);
  }

  lemma DroppedTicketIsOver(s: Sched, q: Queue, t: AdmissionTicket)
    requires Owners(s, q) && EndsAgree(s.log, q) && MayReleaseTicket(s, t)
    ensures IsRoot(q, t.run) ==> StatusOf(q, t.run).Over?
  {
  }

  lemma DropTicketOwners(s: Sched, q: Queue, t: AdmissionTicket)
    requires Owners(s, q) && t.run in s.tickets
    ensures Owners(s.(tickets := s.tickets - {t.run}), q)
  {
  }

  lemma DropTicketLive(s: Sched, q: Queue, t: AdmissionTicket)
    requires Owners(s, q) && t.run in s.tickets && (IsRoot(q, t.run) ==> StatusOf(q, t.run).Over?)
    ensures forall a :: SameLive(s, q, s.(tickets := s.tickets - {t.run}), q, a)
  {
  }

  lemma ClaimKeeps(s: Sched, q: Queue, lease: RootLease)
    requires Inv(s) && Fold(s.log) == Ok(q) && Enabled(s, q, Claim(lease))
    ensures Inv(Exec(s, Claim(lease)))
  {
    var s' := s.(roots := s.roots[lease.run := lease]);
    assert Exec(s, Claim(lease)) == s';
    ClaimOwners(s, q, lease);
    ClaimLive(s, q, lease);
    NoneAdded(s, q, s', q);
    ClaimCounts(s, q, lease);
  }

  lemma ClaimCounts(s: Sched, q: Queue, lease: RootLease)
    requires lease.run !in s.roots
    requires Owners(s, q) && Owners(s.(roots := s.roots[lease.run := lease]), q)
    ensures var s' := s.(roots := s.roots[lease.run := lease]);
            ActiveCount(s', q) == ActiveCount(s, q) + 1 && WaitingCount(s', q) <= WaitingCount(s, q)
  {
    var s' := s.(roots := s.roots[lease.run := lease]);
    CountsByGroups(s, q);
    CountsByGroups(s', q);
    SameLanes(s, s');
    RootInserted(s, lease.run, lease);
    ClaimQueue(s, s', q, lease);
  }

  lemma ClaimQueue(s: Sched, s': Sched, q: Queue, lease: RootLease)
    requires s'.roots == s.roots[lease.run := lease] && s'.tickets == s.tickets
    ensures |QueuedFree(s', q)| <= |QueuedFree(s, q)|
  {
    assert Owned(s') == Owned(s) + {lease.run};
    Shrinks(QueuedFree(s', q), QueuedFree(s, q));
  }

  lemma ClaimOwners(s: Sched, q: Queue, lease: RootLease)
    requires Owners(s, q) && IsRoot(q, lease.run) && lease.run !in Owned(s)
    requires lease.session == q.admissions[lease.run].session
    ensures Owners(s.(roots := s.roots[lease.run := lease]), q)
  {
  }

  lemma ClaimLive(s: Sched, q: Queue, lease: RootLease)
    requires Owners(s, q) && IsRoot(q, lease.run) && lease.run !in Owned(s)
    requires StatusOf(q, lease.run) == Queued && lease.session == q.admissions[lease.run].session
    ensures var s' := s.(roots := s.roots[lease.run := lease]); forall a :: SameLive(s, q, s', q, a)
  {
  }

  lemma DropRootKeeps(s: Sched, q: Queue, lease: RootLease)
    requires Inv(s) && Fold(s.log) == Ok(q) && Enabled(s, q, DropRoot(lease))
    ensures Inv(Exec(s, DropRoot(lease)))
  {
    var s' := s.(roots := s.roots - {lease.run});
    assert Exec(s, DropRoot(lease)) == s';
    assert lease.run in q.endings;
    DropRootOwners(s, q, lease.run);
    DropRootLive(s, q, lease.run);
    NoneAdded(s, q, s', q);
    DropRootCounts(s, q, lease.run);
  }

  lemma DropRootCounts(s: Sched, q: Queue, r: string)
    requires r in s.roots && r !in WithStatus(q, Queued)
    requires Owners(s, q) && Owners(s.(roots := s.roots - {r}), q)
    ensures var s' := s.(roots := s.roots - {r});
            ActiveCount(s', q) <= ActiveCount(s, q) && WaitingCount(s', q) == WaitingCount(s, q)
  {
    var s' := s.(roots := s.roots - {r});
    CountsByGroups(s, q);
    CountsByGroups(s', q);
    SameLanes(s, s');
    RootRemoved(s, r);
    DropRootQueue(s, s', q, r);
  }

  lemma DropRootQueue(s: Sched, s': Sched, q: Queue, r: string)
    requires s'.roots == s.roots - {r} && s'.tickets == s.tickets
    requires r in s.roots && r !in WithStatus(q, Queued)
    ensures QueuedFree(s', q) == QueuedFree(s, q)
  {
    assert Owned(s') + {r} == Owned(s) + {r};
  }

  lemma DropRootOwners(s: Sched, q: Queue, r: string)
    requires Owners(s, q) && r in s.roots && r in q.endings
    ensures Owners(s.(roots := s.roots - {r}), q)
  {
  }

  lemma DropRootLive(s: Sched, q: Queue, r: string)
    requires Owners(s, q) && r in s.roots && r in q.endings
    ensures forall a :: SameLive(s, q, s.(roots := s.roots - {r}), q, a)
  {
  }

  // ---------------------------------------------------------------- steps of the store

  /** A step of the store that frees or keeps live Runs and counts keeps the invariant. */
  lemma Assembled(s: Sched, q: Queue, s': Sched, q': Queue)
    requires Inv(s) && Fold(s.log) == Ok(q) && Fold(s'.log) == Ok(q') && s'.limits == s.limits
    requires Owners(s', q') && EndsAgree(s'.log, q')
    requires forall a :: SameLive(s, q, s', q', a)
    requires s'.tickets == s.tickets && s'.roots == s.roots
    requires WithStatus(q', Queued) <= WithStatus(q, Queued) + s.tickets.Keys
    ensures Inv(s')
  {
    NoneAdded(s, q, s', q');
    StoreCounts(s, q, s', q');
  }

  lemma StoreCounts(s: Sched, q: Queue, s': Sched, q': Queue)
    requires Owners(s, q) && Owners(s', q') && s'.tickets == s.tickets && s'.roots == s.roots
    requires WithStatus(q', Queued) <= WithStatus(q, Queued) + s.tickets.Keys
    ensures ActiveCount(s', q') == ActiveCount(s, q) && WaitingCount(s', q') <= WaitingCount(s, q)
  {
    CountsByGroups(s, q);
    CountsByGroups(s', q');
    SameLanes(s, s');
    QueueShrinks(s, q, s', q');
  }

  lemma QueueShrinks(s: Sched, q: Queue, s': Sched, q': Queue)
    requires s'.tickets == s.tickets && s'.roots == s.roots
    requires WithStatus(q', Queued) <= WithStatus(q, Queued) + s.tickets.Keys
    ensures |QueuedFree(s', q')| <= |QueuedFree(s, q)|
  {
    Shrinks(QueuedFree(s', q'), QueuedFree(s, q));
  }

  lemma EndsAppend(log: seq<Fact>, q: Queue, f: Fact)
    requires EndsAgree(log, q) && !f.partial && f.run != "" && Collect(q, f).Ok?
    ensures EndsAgree(log + [f], Collect(q, f).value)
  {
    var q' := Collect(q, f).value;
    forall r ensures IsTerminal(log + [f], r) <==> r in q'.endings {
      assert f in log + [f];
      assert IsTerminal(log + [f], r) <==> IsTerminal(log, r) || (f.run == r && f.kind.Ended?);
    }
  }

  /** A new admission: a ticketed root in its ticket's session, or a child of some other Run. */
  ghost predicate NewAdmission(s: Sched, f: Fact) {
    && f.kind.Admitted? && !f.partial && f.run != "" && f.run !in s.runs
    && (f.run in s.tickets ==> f.kind.intent.parent == "" && f.session == s.tickets[f.run].session)
    && (f.run !in s.tickets ==> f.kind.intent.parent != "")
  }

  function WithAdmission(q: Queue, f: Fact): Queue
    requires f.kind.Admitted?
  {
    q.(order := q.order + [f.run],
       admissions := q.admissions[f.run := Admission(f.session, f.kind.intent, f.at, f.id)])
  }

  lemma AdmissionCollected(s: Sched, q: Queue, f: Fact)
    requires Owners(s, q) && NewAdmission(s, f)
    ensures Collect(q, f) == Ok(WithAdmission(q, f)) && ValidQueue(WithAdmission(q, f))
    ensures f.run !in q.admissions && f.run !in q.starts && f.run !in q.endings && f.run !in s.roots
  {
    CollectValid(q, f);
  }

  lemma AdmittedOwners(s: Sched, q: Queue, f: Fact)
    requires Owners(s, q) && NewAdmission(s, f) && ValidQueue(WithAdmission(q, f))
    requires f.run !in q.admissions && f.run !in q.starts && f.run !in q.endings && f.run !in s.roots
    ensures Owners(s.(runs := s.runs[f.run := f.session], log := s.log + [f]), WithAdmission(q, f))
  {
    AdmittedHandles(s, q, f);
    AdmittedRows(s, q, f);
  }

  lemma AdmittedHandles(s: Sched, q: Queue, f: Fact)
    requires Handles(s, q) && NewAdmission(s, f) && f.run !in q.admissions && f.run !in q.starts
    ensures Handles(s.(runs := s.runs[f.run := f.session], log := s.log + [f]), WithAdmission(q, f))
  {
  }

  lemma AdmittedRows(s: Sched, q: Queue, f: Fact)
    requires Rows(s, q) && NewAdmission(s, f) && ValidQueue(WithAdmission(q, f))
    requires f.run !in q.starts
    ensures Rows(s.(runs := s.runs[f.run := f.session], log := s.log + [f]), WithAdmission(q, f))
  {
  }

  lemma AdmittedLive(s: Sched, q: Queue, s': Sched, f: Fact)
    requires NewAdmission(s, f) && s'.tickets == s.tickets && s'.roots == s.roots
    requires f.run !in q.admissions
    ensures forall a :: SameLive(s, q, s', WithAdmission(q, f), a)
    ensures WithStatus(WithAdmission(q, f), Queued) <= WithStatus(q, Queued) + s.tickets.Keys
  {
  }

  /** An admitted Run stays where its ticket was counted and in its ticket's session. */
  lemma AdmissionKeeps(s: Sched, q: Queue, f: Fact, s': Sched)
    requires Inv(s) && Fold(s.log) == Ok(q) && NewAdmission(s, f)
    requires s' == s.(runs := s.runs[f.run := f.session], log := s.log + [f])
    ensures Inv(s')
  {
    FoldAppend(s.log, f);
    AdmissionCollected(s, q, f);
    AdmittedOwners(s, q, f);
    AdmittedLive(s, q, s', f);
    EndsAppend(s.log, q, f);
    Assembled(s, q, s', WithAdmission(q, f));
  }

  function WithStart(q: Queue, run: string): Queue {
    q.(starts := q.starts + {run})
  }

  lemma StartKeeps(s: Sched, q: Queue, f: Fact, s': Sched)
    requires Inv(s) && Fold(s.log) == Ok(q) && s' == s.(log := s.log + [f])
    requires f.kind.Started? && !f.partial && f.run in s.runs && (IsRoot(q, f.run) ==> f.run in s.roots)
    ensures Inv(s')
  {
    var q' := WithStart(q, f.run);
    StartFolds(s.log, q, f);
    StartOwners(s, q, s', f.run);
    StartLive(s, q, s', f.run);
    EndsAppend(s.log, q, f);
    Assembled(s, q, s', q');
  }

  lemma StartFolds(log: seq<Fact>, q: Queue, f: Fact)
    requires Fold(log) == Ok(q) && f.kind.Started? && !f.partial && f.run != ""
    ensures Collect(q, f) == Fold(log + [f]) == Ok(WithStart(q, f.run))
  {
    FoldAppend(log, f);
  }

  lemma StartOwners(s: Sched, q: Queue, s': Sched, run: string)
    requires Owners(s, q) && run in s.runs && (IsRoot(q, run) ==> run in s.roots)
    requires s'.runs == s.runs && s'.tickets == s.tickets && s'.roots == s.roots
    ensures Owners(s', WithStart(q, run))
  {
  }

  lemma StartLive(s: Sched, q: Queue, s': Sched, run: string)
    requires s'.tickets == s.tickets && s'.roots == s.roots
    ensures var q' := WithStart(q, run);
            && (forall a :: SameLive(s, q, s', q', a))
            && WithStatus(q', Queued) <= WithStatus(q, Queued) + s.tickets.Keys
  {
  }

  function WithEnding(q: Queue, f: Fact): (q': Queue)
    requires f.kind.Ended?
    ensures q'.order == q.order && q'.admissions == q.admissions && q'.starts == q.starts
    ensures q.endings.Keys <= q'.endings.Keys <= q.endings.Keys + {f.run}
  {
    if f.run in q.endings then q else q.(endings := q.endings[f.run := f.kind.ending])
  }

  lemma EndingCollected(q: Queue, f: Fact)
    requires f.kind.Ended? && !f.partial && f.run != ""
    ensures Collect(q, f) == Ok(WithEnding(q, f))
  {
  }

  lemma EndKeeps(s: Sched, q: Queue, f: Fact, s': Sched)
    requires Inv(s) && Fold(s.log) == Ok(q) && s' == s.(log := s.log + [f])
    requires f.kind.Ended? && !f.partial && f.run in s.runs
    ensures Inv(s')
  {
    var q' := WithEnding(q, f);
    FoldAppend(s.log, f);
    EndingCollected(q, f);
    EndsAppend(s.log, q, f);
    EndOwners(s, q, f, q');
    EndLive(s, q, s', q', f.run);
    Assembled(s, q, s', q');
  }

  lemma EndOwners(s: Sched, q: Queue, f: Fact, q': Queue)
    requires Owners(s, q) && f.run in s.runs
    requires q'.order == q.order && q'.admissions == q.admissions && q'.starts == q.starts
    requires q.endings.Keys <= q'.endings.Keys <= q.endings.Keys + {f.run}
    ensures Owners(s.(log := s.log + [f]), q')
  {
  }

  lemma EndLive(s: Sched, q: Queue, s': Sched, q': Queue, run: string)
    requires q'.admissions == q.admissions && q'.starts == q.starts
    requires q.endings.Keys <= q'.endings.Keys
    requires s'.tickets == s.tickets && s'.roots == s.roots
    ensures forall a :: SameLive(s, q, s', q', a)
    ensures WithStatus(q', Queued) <= WithStatus(q, Queued) + s.tickets.Keys
  {
  }

  lemma RowsKeep(s: Sched, q: Queue, s': Sched)
    requires Inv(s) && Fold(s.log) == Ok(q)
    requires s' == s.(sessions := s'.sessions, runs := s'.runs)
    requires s.runs.Keys <= s'.runs.Keys && "" !in s'.runs
    requires forall r :: r in s'.runs && r !in s.runs ==> r !in s.tickets
    ensures Inv(s')
  {
    RowsOwners(s, q, s');
    EndLive(s, q, s', q, "");
    Assembled(s, q, s', q);
  }

  lemma RowsOwners(s: Sched, q: Queue, s': Sched)
    requires Owners(s, q) && s' == s.(sessions := s'.sessions, runs := s'.runs)
    requires s.runs.Keys <= s'.runs.Keys && "" !in s'.runs
    requires forall r :: r in s'.runs && r !in s.runs ==> r !in s.tickets
    ensures Owners(s', q)
  {
  }

  // ---------------------------------------------------------------- every run

  predicate SchedulerStep(step: Step) {
    step.TakeTicket? || step.CommitTicket? || step.DropTicket? || step.Claim? || step.DropRoot?
  }

  lemma SchedulerStepKeeps(s: Sched, q: Queue, step: Step)
    requires Inv(s) && Fold(s.log) == Ok(q) && SchedulerStep(step) && Enabled(s, q, step)
    ensures Inv(Exec(s, step))
  {
    match step {
      case TakeTicket(t, startable) => TakeTicketKeeps(s, q, t, startable);
      case CommitTicket(t, lease) => CommitKeeps(s, q, t, lease);
      case DropTicket(t) => DropTicketKeeps(s, q, t);
      case Claim(lease) => ClaimKeeps(s, q, lease);
      case DropRoot(lease) => DropRootKeeps(s, q, lease);
    }
  }

  lemma StoreStepKeeps(s: Sched, q: Queue, step: Step)
    requires Inv(s) && Fold(s.log) == Ok(q) && !SchedulerStep(step) && Enabled(s, q, step)
    ensures Inv(Exec(s, step))
  {
    var s' := Exec(s, step);
    match step {
      case AdmitRoot(run, intent, at, id) =>
        AdmissionKeeps(s, q, Fact(Admitted(intent), false, run, s.tickets[run].session, at, id), s');
      case AdmitChild(run, session, intent, at, id) =>
        AdmissionKeeps(s, q, Fact(Admitted(intent), false, run, session, at, id), s');
      case StartRun(run, at, id) => StartKeeps(s, q, Fact(Started, false, run, s.runs[run], at, id), s');
      case EndRun(run, ending, at, id) =>
        EndKeeps(s, q, Fact(Ended(ending), false, run, s.runs[run], at, id), s');
      case OpenSession(session) => RowsKeep(s, q, s');
      case CreateRun(run, session) => RowsKeep(s, q, s');
    }
  }

  lemma ExecKeeps(s: Sched, step: Step)
    requires Inv(s)
    ensures Inv(Exec(s, step))
  {
    var q := Fold(s.log).value;
    if !Enabled(s, q, step) {
      assert Exec(s, step) == s;
    } else if SchedulerStep(step) {
      SchedulerStepKeeps(s, q, step);
    } else {
      StoreStepKeeps(s, q, step);
    }
  }

  lemma ExecLimits(s: Sched, step: Step)
    ensures Exec(s, step).limits == s.limits
  {
  }

  /** A fresh scheduler over a store whose root Runs have all been parked. */
  ghost predicate Initial(s: Sched) {
    && s.tickets == map[] && s.roots == map[]
    && "" !in s.runs
    && Fold(s.log).Ok?
    && var q := Fold(s.log).value;
    && (forall r :: r in q.admissions || r in q.starts || r in q.endings ==> r in s.runs)
    && (forall r :: IsRoot(q, r) ==> StatusOf(q, r).Over?)
    && EndsAgree(s.log, q)
  }

  lemma InitialSafe(s: Sched)
    requires Initial(s)
    ensures Inv(s)
  {
    var q := Fold(s.log).value;
    assert WithStatus(q, Queued) == {} && WithStatus(q, Running) == {};
    assert InLane(s, Active) == {} && InLane(s, Waiting) == {};
    assert |s.roots| == 0;
    assert forall a :: !Live(s, q, a);
  }

  /**
   * In every reachable state owners agree with the log, each session holds at most one Run that is
   * ticketed, leased or unfinished, and both counts stay within the configured limits.
   */
  lemma {:induction false} SchedulerSafe(s: Sched, steps: seq<Step>)
    requires Initial(s)
    ensures Inv(Run(s, steps))
    ensures Run(s, steps).limits == s.limits
  {
    if steps == [] {
      InitialSafe(s);
    } else {
      SchedulerSafe(s, steps[..|steps| - 1]);
      ExecKeeps(Run(s, steps[..|steps| - 1]), steps[|steps| - 1]);
      ExecLimits(Run(s, steps[..|steps| - 1]), steps[|steps| - 1]);
    }
  }
}
