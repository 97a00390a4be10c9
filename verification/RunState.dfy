/** The status of one Run read from its own events, and its agreement with the queue. */
module RunState {
  import opened Common
  import opened Scheduling
  import opened SchedulerSafety

  /** A scheduling fact, or an approval that is asked for or resolved, written under a Run of a session. */
  datatype Happening =
    | Scheduled(fact: Fact)
    | Approval(required: bool, partial: bool, run: string, session: string, id: string)

  datatype RunStatus = WaitingForUser | Known(status: Status)

  /** The projected status, and whether a terminal fact has fixed it. */
  datatype View = View(status: RunStatus, terminal: bool)

  const INITIAL := View(Known(Running), false)

  predicate Counts(h: Happening, run: string) {
    match h
    case Scheduled(f) => !f.partial && f.run == run
    case Approval(_, partial, r, _, _) => !partial && r == run
  }

  /** Nothing changes the status after the first terminal fact. */
  function Step(v: View, h: Happening): View {
    if v.terminal then v
    else
      match h
      case Approval(required, _, _, _, _) => v.(status := if required then WaitingForUser else Known(Running))
      case Scheduled(f) =>
        match f.kind
        case Admitted(_) => v.(status := Known(Queued))
        case Started => v.(status := Known(Running))
        case Ended(ending) => View(Known(Over(ending)), true)
  }

  function Read(log: seq<Happening>, run: string): View {
    if log == [] then INITIAL
    else
      var v, h := Read(log[..|log| - 1], run), log[|log| - 1];
      if Counts(h, run) then Step(v, h) else v
  }

  /** The projection over the events of one Run. */
  method ProjectStatus(log: seq<Happening>, run: string) returns (status: RunStatus)
    ensures status == Read(log, run).status
  {
    status := Known(Running);
    var terminal := false;
    for i := 0 to |log|
      invariant Read(log[..i], run) == View(status, terminal)
    {
      assert log[..i + 1][..i] == log[..i];
      if !Counts(log[i], run) {
        continue;
      }
      match log[i] {
        case Approval(required, _, _, _, _) =>
          if !terminal {
            status := if required then WaitingForUser else Known(Running);
          }
        case Scheduled(f) =>
          match f.kind {
            case Admitted(_) =>
              if !terminal {
                status := Known(Queued);
              }
            case Started =>
              if !terminal {
                status := Known(Running);
              }
            case Ended(ending) =>
              if !terminal {
                status, terminal := Known(Over(ending)), true;
              }
          }
      }
    }
    assert log[..|log|] == log;
  }

  predicate Ends(h: Happening, run: string) {
    h.Scheduled? && !h.fact.partial && h.fact.run == run && h.fact.kind.Ended?
  }

  /** The last event of the Run, if it is one. */
  ghost predicate LastOf(log: seq<Happening>, run: string, i: int) {
    0 <= i < |log| && Counts(log[i], run) && forall j :: i < j < |log| ==> !Counts(log[j], run)
  }

  predicate AsksUser(h: Happening) {
    h.Approval? && h.required
  }

  predicate QueuesRun(h: Happening) {
    h.Scheduled? && h.fact.kind.Admitted?
  }

  ghost predicate LastSatisfies(log: seq<Happening>, run: string, p: Happening -> bool) {
    exists i :: LastOf(log, run, i) && p(log[i])
  }

  lemma LastStep(log: seq<Happening>, run: string, p: Happening -> bool)
    requires log != []
    ensures var n := |log| - 1;
            LastSatisfies(log, run, p)
            <==> if Counts(log[n], run) then p(log[n]) else LastSatisfies(log[..n], run, p)
  {
    hide Counts;
    var n := |log| - 1;
    if Counts(log[n], run) {
      assert LastOf(log, run, n);
    } else {
      if i :| LastOf(log, run, i) && p(log[i]) {
        assert LastOf(log[..n], run, i);
      }
      if i :| LastOf(log[..n], run, i) && p(log[..n][i]) {
        assert LastOf(log, run, i);
      }
    }
  }

  /**
   * A Run is over once it has ended. Until then it waits for the user if an approval that is asked for is its last
   * event, is queued if its last event is its admission, and is running otherwise.
   */
  lemma {:induction false} StatusIff(log: seq<Happening>, run: string)
    ensures var v, ended := Read(log, run), exists h :: h in log && Ends(h, run);
            && (v.terminal <==> ended)
            && (v.status.Known? && v.status.status.Over? <==> ended)
            && (v.status == WaitingForUser <==> !ended && LastSatisfies(log, run, AsksUser))
            && (v.status == Known(Queued) <==> !ended && LastSatisfies(log, run, QueuesRun))
  {
    if log != [] {
      var n := |log| - 1;
      StatusIff(log[..n], run);
      LastStep(log, run, AsksUser);
      LastStep(log, run, QueuesRun);
      assert log == log[..n] + [log[n]];
      assert (exists h :: h in log && Ends(h, run))
        <==> (exists h :: h in log[..n] && Ends(h, run)) || Ends(log[n], run);
    }
  }

  /** The facts the queue is projected from. */
  function SchedulingFacts(log: seq<Happening>): seq<Fact> {
    if log == [] then []
    else
      SchedulingFacts(log[..|log| - 1])
      + match log[|log| - 1] case Scheduled(f) => [f] case Approval(_, _, _, _, _) => []
  }

  function QueueOf(log: seq<Happening>): Result<Queue> {
    Fold(SchedulingFacts(log))
  }

  lemma QueueStep(log: seq<Happening>)
    requires log != []
    ensures var before, h := QueueOf(log[..|log| - 1]), log[|log| - 1];
            QueueOf(log) == if h.Scheduled? && before.Ok? then Collect(before.value, h.fact) else before
  {
    var before, h := SchedulingFacts(log[..|log| - 1]), log[|log| - 1];
    if h.Scheduled? {
      FoldAppend(before, h.fact);
    } else {
      assert SchedulingFacts(log) == before;
    }
  }

  /** Both projections take the first terminal fact, in every log. */
  lemma {:induction false} EndsAgree(log: seq<Happening>, run: string)
    requires run != "" && QueueOf(log).Ok?
    ensures var v, q := Read(log, run), QueueOf(log).value;
            && (v.terminal <==> run in q.endings)
            && (run in q.endings ==> v.status == Known(Over(q.endings[run])))
            && (v.status.Known? && v.status.status.Over? ==> v.terminal)
  {
    if log != [] {
      QueueStep(log);
      EndsAgree(log[..|log| - 1], run);
    }
  }

  /** The Run's own status is the queue's, waiting for the user only while it runs there. */
  ghost predicate Agrees(log: seq<Happening>, run: string)
    requires QueueOf(log).Ok?
  {
    var v, q := Read(log, run), QueueOf(log).value;
    run in q.admissions || run in q.starts || run in q.endings ==>
      v.status == Known(StatusOf(q, run)) || (v.status == WaitingForUser && StatusOf(q, run) == Running)
  }

  predicate AwaitsStart(q: Queue, run: string) {
    run in q.admissions && StatusOf(q, run) == Queued
  }

  /** What one more event must not be: an admission after the start, or an approval between the two. */
  ghost predicate InOrder(q: Queue, h: Happening, run: string) {
    Counts(h, run) && run !in q.endings ==>
      && (h.Scheduled? && h.fact.kind.Admitted? ==> run !in q.starts)
      && (h.Approval? && run in q.admissions ==> run in q.starts)
  }

  /** Until its end a Run is not admitted after it has started, and asks for no approval while it is queued. */
  ghost predicate Proper(log: seq<Happening>, run: string) {
    log == [] ||
    var before, h := log[..|log| - 1], log[|log| - 1];
    Proper(before, run) && (QueueOf(before).Ok? ==> InOrder(QueueOf(before).value, h, run))
  }

  /** Until its end the Run's own status is what its latest start or admission made it. */
  ghost predicate Follows(v: View, q: Queue, run: string) {
    && (v.terminal <==> run in q.endings)
    && (run in q.endings ==> v.status == Known(Over(q.endings[run])))
    && (run !in q.endings && run in q.starts ==> v.status == Known(Running) || v.status == WaitingForUser)
    && (run !in q.endings && run !in q.starts && run in q.admissions ==> v.status == Known(Queued))
  }

  lemma StepFollows(v: View, q: Queue, h: Happening, run: string)
    requires run != "" && Follows(v, q, run)
    requires h.Scheduled? ==> Collect(q, h.fact).Ok?
    ensures var v' := if Counts(h, run) then Step(v, h) else v;
            var q' := if h.Scheduled? then Collect(q, h.fact).value else q;
            Follows(v', q', run) <==> InOrder(q, h, run)
  {
  }

  lemma AgreesIsFollows(log: seq<Happening>, run: string)
    requires run != "" && QueueOf(log).Ok?
    ensures Agrees(log, run) <==> Follows(Read(log, run), QueueOf(log).value, run)
  {
    EndsAgree(log, run);
  }

  /** Agreement after every event so far. */
  ghost predicate AlwaysAgrees(log: seq<Happening>, run: string) {
    && (log != [] ==> AlwaysAgrees(log[..|log| - 1], run))
    && (QueueOf(log).Ok? ==> Agrees(log, run))
  }

  /**
   * The two projections agree all along a log exactly when, until the Run's end, no admission follows its start
   * and no approval comes between its admission and its start.
   */
  lemma {:induction false} StatusAgreesIff(log: seq<Happening>, run: string)
    requires run != "" && QueueOf(log).Ok?
    ensures AlwaysAgrees(log, run) <==> Proper(log, run)
  {
    if log != [] {
      var n := |log| - 1;
      var before := log[..n];
      QueueStep(log);
      StatusAgreesIff(before, run);
      AgreesIsFollows(before, run);
      AgreesIsFollows(log, run);
      if AlwaysAgrees(before, run) {
        assert Agrees(before, run);
        StepFollows(Read(before, run), QueueOf(before).value, log[n], run);
      }
    }
  }

  /** Read from a log that repeats an admission, the two projections differ. */
  lemma ReadmittedDisagrees(run: string, session: string, intent: Intent, at: int, id: string)
    requires run != ""
    ensures var admitted := Scheduled(Fact(Admitted(intent), false, run, session, at, id));
            var log := [admitted, Scheduled(Fact(Started, false, run, session, at, id)), admitted];
            && QueueOf(log).Ok? && StatusOf(QueueOf(log).value, run) == Running
            && Read(log, run).status == Known(Queued)
  {
    hide Read, QueueOf, Collect;
    var a := Scheduled(Fact(Admitted(intent), false, run, session, at, id));
    var b := Scheduled(Fact(Started, false, run, session, at, id));
    ReadNothing(run);
    var one := [] + [a];
    var two := one + [b];
    ReadNext([], a, run);
    ReadNext(one, b, run);
    ReadNext(two, a, run);
    assert two + [a] == [a, b, a];
    AdmitStartAdmit(a.fact, b.fact, intent);
  }

  /** So do they after an approval, required or resolved, of a Run that is still queued. */
  lemma EarlyApprovalDisagrees(log: seq<Happening>, run: string, required: bool, session: string, id: string)
    requires run != "" && QueueOf(log).Ok? && AwaitsStart(QueueOf(log).value, run)
    ensures var after := log + [Approval(required, false, run, session, id)];
            QueueOf(after) == QueueOf(log) && !Agrees(after, run)
  {
    EndsAgree(log, run);
    ReadNext(log, Approval(required, false, run, session, id), run);
  }

  /** Its start makes them agree again, whatever was before. */
  lemma StartAgrees(log: seq<Happening>, f: Fact)
    requires QueueOf(log).Ok? && f.kind.Started? && !f.partial && f.run != ""
    ensures QueueOf(log + [Scheduled(f)]).Ok? && Agrees(log + [Scheduled(f)], f.run)
  {
    EndsAgree(log, f.run);
    ReadNext(log, Scheduled(f), f.run);
  }

  lemma ReadNothing(run: string)
    ensures Read([], run) == INITIAL && QueueOf([]) == Ok(EMPTY_QUEUE)
  {
  }

  lemma AdmitStartAdmit(a: Fact, b: Fact, intent: Intent)
    requires a.kind == Admitted(intent) && b.kind == Started && !a.partial && !b.partial
    requires a.run == b.run != ""
    ensures var first := Collect(EMPTY_QUEUE, a);
            && first.Ok? && Collect(first.value, b).Ok?
            && var last := Collect(Collect(first.value, b).value, a);
            && last.Ok? && StatusOf(last.value, a.run) == Running
  {
  }

  lemma ReadNext(log: seq<Happening>, h: Happening, run: string)
    ensures Read(log + [h], run) == if Counts(h, run) then Step(Read(log, run), h) else Read(log, run)
    ensures QueueOf(log + [h])
         == if h.Scheduled? && QueueOf(log).Ok? then Collect(QueueOf(log).value, h.fact) else QueueOf(log)
  {
    assert (log + [h])[..|log|] == log;
    QueueStep(log + [h]);
  }

  // ---------------------------------------------------------------- what the program writes

  function Lift(log: seq<Fact>): seq<Happening> {
    seq(|log|, i requires 0 <= i < |log| => Scheduled(log[i]))
  }

  /** The approvals of a session that nothing has resolved. */
  function OpenApprovals(log: seq<Happening>, session: string): set<string> {
    if log == [] then {}
    else
      var open, h := OpenApprovals(log[..|log| - 1], session), log[|log| - 1];
      if h.Scheduled? || h.partial || h.session != session then open
      else if h.required then open + {h.id}
      else open - {h.id}
  }

  /** The facts that close approvals, written under the Run that continues. */
  function Resolutions(run: string, session: string, ids: seq<string>): seq<Happening> {
    seq(|ids|, i requires 0 <= i < |ids| => Approval(false, false, run, session, ids[i]))
  }

  /** The fact a step of the scheduler or its store writes, if it writes one. */
  function Writes(s: Sched, step: Step): seq<Fact> {
    if Fold(s.log).Err? || !Enabled(s, Fold(s.log).value, step) then []
    else
      match step
      case AdmitRoot(run, intent, at, id) => [Fact(Admitted(intent), false, run, s.tickets[run].session, at, id)]
      case AdmitChild(run, session, intent, at, id) => [Fact(Admitted(intent), false, run, session, at, id)]
      case StartRun(run, at, id) => [Fact(Started, false, run, s.runs[run], at, id)]
      case EndRun(run, ending, at, id) => [Fact(Ended(ending), false, run, s.runs[run], at, id)]
      case _ => []
  }

  lemma ExecWrites(s: Sched, step: Step)
    ensures Exec(s, step).log == s.log + Writes(s, step)
  {
  }

  /** An admission is of a Run that has no row yet, and so no start. */
  lemma WritesInOrder(s: Sched, q: Queue, step: Step, f: Fact)
    requires Fold(s.log) == Ok(q) && Rows(s, q) && f in Writes(s, step)
    ensures Writes(s, step) == [f]
    ensures f.kind.Admitted? ==> f.run !in q.starts
  {
  }

  /** The scheduler with its store, and the whole log with the approvals in it. */
  datatype World = World(sched: Sched, log: seq<Happening>)

  /**
   * What the program does: a step of the scheduler or its store, a fact about an approval under a Run, or the
   * admission of a Run that continues its session, in one commit with the resolutions of what is open there.
   */
  datatype Deed =
    | Take(step: Step)
    | Ask(required: bool, id: string, run: string)
    | Continue(run: string, intent: Intent, at: int, id: string, ids: seq<string>)

  /** The store takes facts under a Run that has a row and is not over. */
  predicate Writable(s: Sched, run: string) {
    run in s.runs && !IsTerminal(s.log, run)
  }

  function Admission(d: Deed): Step
    requires d.Continue?
  {
    AdmitRoot(d.run, d.intent, d.at, d.id)
  }

  /** A Run is continued under its ticket, with the open approvals of the session, each once in any order. */
  ghost predicate CanContinue(w: World, d: Deed)
    requires d.Continue?
  {
    && Fold(w.sched.log).Ok? && Enabled(w.sched, Fold(w.sched.log).value, Admission(d))
    && Distinct(d.ids)
    && forall x :: x in d.ids <==> x in OpenApprovals(w.log, w.sched.tickets[d.run].session)
  }

  function Stepped(w: World, step: Step): World {
    World(Exec(w.sched, step), w.log + Lift(Writes(w.sched, step)))
  }

  ghost function Do(w: World, d: Deed): World {
    match d
    case Take(step) => Stepped(w, step)
    case Ask(required, id, run) =>
      if Writable(w.sched, run)
      then w.(log := w.log + [Approval(required, false, run, w.sched.runs[run], id)]) else w
    case Continue(run, _, _, _, ids) =>
      if CanContinue(w, d)
      then
        var admitted := Stepped(w, Admission(d));
        admitted.(log := admitted.log + Resolutions(run, w.sched.tickets[run].session, ids))
      else w
  }

  ghost function DoAll(w: World, ds: seq<Deed>): World {
    if ds == [] then w else Do(DoAll(w, ds[..|ds| - 1]), ds[|ds| - 1])
  }

  /** The scheduler is in a reachable state, and its store holds the scheduling facts of the log. */
  ghost predicate Tracks(w: World) {
    Inv(w.sched) && SchedulingFacts(w.log) == w.sched.log
  }

  /** An approval of a queued Run, or a Run continued while an approval is open in its session. */
  ghost predicate TooEarly(w: World, d: Deed, run: string) {
    match d
    case Take(_) => false
    case Ask(_, _, r) =>
      r == run && Writable(w.sched, run) && Fold(w.sched.log).Ok? && AwaitsStart(Fold(w.sched.log).value, run)
    case Continue(r, _, _, _, _) =>
      r == run && CanContinue(w, d) && OpenApprovals(w.log, w.sched.tickets[run].session) != {}
  }

  ghost predicate NeverTooEarly(w: World, ds: seq<Deed>, run: string) {
    ds == [] ||
    (NeverTooEarly(w, ds[..|ds| - 1], run) && !TooEarly(DoAll(w, ds[..|ds| - 1]), ds[|ds| - 1], run))
  }

  // ---------------------------------------------------------------- agreement over whole runs

  lemma FactsNext(log: seq<Happening>, h: Happening)
    ensures SchedulingFacts(log + [h]) == SchedulingFacts(log) + if h.Scheduled? then [h.fact] else []
  {
    assert (log + [h])[..|log|] == log;
  }

  lemma ProperNext(log: seq<Happening>, h: Happening, run: string)
    ensures Proper(log + [h], run) <==>
              Proper(log, run) && (QueueOf(log).Ok? ==> InOrder(QueueOf(log).value, h, run))
  {
    assert (log + [h])[..|log|] == log;
  }

  lemma {:induction false} ResolutionsProper(
    log: seq<Happening>, r: string, session: string, ids: seq<string>, run: string)
    requires QueueOf(log).Ok?
    ensures var after := log + Resolutions(r, session, ids);
            && SchedulingFacts(after) == SchedulingFacts(log)
            && (Proper(after, run) <==>
                  Proper(log, run) && !(r == run && ids != [] && AwaitsStart(QueueOf(log).value, run)))
    decreases |ids|
  {
    if ids == [] {
      assert log + Resolutions(r, session, ids) == log;
    } else {
      var n := |ids| - 1;
      var before, h := log + Resolutions(r, session, ids[..n]), Approval(false, false, r, session, ids[n]);
      ResolutionsProper(log, r, session, ids[..n], run);
      assert log + Resolutions(r, session, ids) == before + [h];
      FactsNext(before, h);
      ProperNext(before, h, run);
    }
  }

  lemma InvRows(s: Sched)
    requires Inv(s)
    ensures Fold(s.log).Ok? && Rows(s, Fold(s.log).value) && Handles(s, Fold(s.log).value)
  {
  }

  lemma StepLog(w: World, step: Step, run: string)
    requires SchedulingFacts(w.log) == w.sched.log
    requires Fold(w.sched.log).Ok? && Rows(w.sched, Fold(w.sched.log).value)
    ensures SchedulingFacts(Stepped(w, step).log) == Stepped(w, step).sched.log
    ensures Proper(Stepped(w, step).log, run) <==> Proper(w.log, run)
  {
    var written := Writes(w.sched, step);
    ExecWrites(w.sched, step);
    EmptyOrMember(written);
    if written == [] {
      assert w.log + Lift(written) == w.log && w.sched.log + written == w.sched.log;
    } else {
      var f := written[0];
      WritesInOrder(w.sched, Fold(w.sched.log).value, step, f);
      assert Lift(written) == [Scheduled(f)];
      FactsNext(w.log, Scheduled(f));
      ProperNext(w.log, Scheduled(f), run);
    }
  }

  lemma StepTracks(w: World, step: Step, run: string)
    requires Tracks(w)
    ensures Tracks(Stepped(w, step)) && (Proper(Stepped(w, step).log, run) <==> Proper(w.log, run))
  {
    hide Inv, Exec, Writes, Rows, Handles;
    InvRows(w.sched);
    ExecKeeps(w.sched, step);
    StepLog(w, step, run);
  }

  function AdmissionFact(w: World, d: Deed): Fact
    requires d.Continue? && d.run in w.sched.tickets
  {
    Fact(Admitted(d.intent), false, d.run, w.sched.tickets[d.run].session, d.at, d.id)
  }

  /** The Run that is continued has a ticket, and nothing has been written of it. */
  lemma NewUnderTicket(s: Sched, q: Queue, d: Deed)
    requires Owners(s, q) && d.Continue? && Enabled(s, q, Admission(d))
    ensures d.run in s.tickets && d.run != ""
    ensures d.run !in q.admissions && d.run !in q.starts && d.run !in q.endings
  {
  }

  lemma AdmissionWritten(w: World, d: Deed)
    requires d.Continue? && CanContinue(w, d) && d.run in w.sched.tickets
    ensures Stepped(w, Admission(d)).log == w.log + [Scheduled(AdmissionFact(w, d))]
  {
    assert Lift(Writes(w.sched, Admission(d))) == [Scheduled(AdmissionFact(w, d))];
  }

  /** A Run just admitted awaits its start. */
  lemma ContinuedAwaitsStart(w: World, d: Deed)
    requires Tracks(w) && d.Continue? && CanContinue(w, d)
    ensures d.run in w.sched.tickets && Tracks(Stepped(w, Admission(d)))
    ensures var log := Stepped(w, Admission(d)).log;
            && QueueOf(log).Ok? && AwaitsStart(QueueOf(log).value, d.run)
            && Read(log, d.run) == View(Known(Queued), false)
  {
    hide Inv, Enabled, Exec, Rows, Handles, Writes;
    InvRows(w.sched);
    NewUnderTicket(w.sched, Fold(w.sched.log).value, d);
    StepTracks(w, Admission(d), d.run);
    AdmissionWritten(w, d);
    EndsAgree(w.log, d.run);
    ReadNext(w.log, Scheduled(AdmissionFact(w, d)), d.run);
  }

  lemma AskProper(w: World, d: Deed, run: string)
    requires Tracks(w) && d.Ask? && Writable(w.sched, d.run)
    ensures Tracks(Do(w, d))
    ensures Proper(Do(w, d).log, run) <==> Proper(w.log, run) && !TooEarly(w, d, run)
  {
    hide Inv, Rows, Handles, IsTerminal;
    InvRows(w.sched);
    var h := Approval(d.required, false, d.run, w.sched.runs[d.run], d.id);
    FactsNext(w.log, h);
    ProperNext(w.log, h, run);
  }

  lemma ContinueProper(w: World, d: Deed, run: string)
    requires Tracks(w) && d.Continue? && CanContinue(w, d)
    ensures Tracks(Do(w, d))
    ensures Proper(Do(w, d).log, run) <==> Proper(w.log, run) && !TooEarly(w, d, run)
  {
    hide Inv, Exec, Enabled, Writes, Proper;
    InvRows(w.sched);
    StepTracks(w, Admission(d), run);
    ContinuedAwaitsStart(w, d);
    ResolutionsProper(Stepped(w, Admission(d)).log, d.run, w.sched.tickets[d.run].session, d.ids, run);
    EmptyOrMember(d.ids);
  }

  /** A deed keeps the order of a Run's events exactly when it is not too early. */
  lemma DoProper(w: World, d: Deed, run: string)
    requires Tracks(w)
    ensures Tracks(Do(w, d))
    ensures Proper(Do(w, d).log, run) <==> Proper(w.log, run) && !TooEarly(w, d, run)
  {
    hide Inv, Exec, Enabled, Writes, Proper, IsTerminal;
    match d {
      case Take(step) => StepTracks(w, step, run);
      case Ask(_, _, r) =>
        if Writable(w.sched, r) {
          AskProper(w, d, run);
        }
      case Continue(_, _, _, _, _) =>
        if CanContinue(w, d) {
          ContinueProper(w, d, run);
        }
    }
  }

  lemma {:induction false} DoAllProper(w: World, ds: seq<Deed>, run: string)
    requires Tracks(w)
    ensures Tracks(DoAll(w, ds))
    ensures Proper(DoAll(w, ds).log, run) <==> Proper(w.log, run) && NeverTooEarly(w, ds, run)
  {
    if ds != [] {
      var n := |ds| - 1;
      DoAllProper(w, ds[..n], run);
      DoProper(DoAll(w, ds[..n]), ds[n], run);
    }
  }

  /**
   * Over everything the program does, the two projections agree on a Run all along exactly when they did at first,
   * no approval is written under it while it is queued, and it is not continued while an approval is open.
   */
  lemma ProgramAgreesIff(w: World, ds: seq<Deed>, run: string)
    requires Initial(w.sched) && SchedulingFacts(w.log) == w.sched.log && run != ""
    ensures QueueOf(DoAll(w, ds).log).Ok?
    ensures AlwaysAgrees(DoAll(w, ds).log, run) <==> AlwaysAgrees(w.log, run) && NeverTooEarly(w, ds, run)
  {
    InitialSafe(w.sched);
    DoAllProper(w, ds, run);
    StatusAgreesIff(w.log, run);
    StatusAgreesIff(DoAll(w, ds).log, run);
  }

  lemma {:induction false} ReadResolutions(log: seq<Happening>, run: string, session: string, ids: seq<string>)
    requires !Read(log, run).terminal
    ensures Read(log + Resolutions(run, session, ids), run)
         == if ids == [] then Read(log, run) else INITIAL
    decreases |ids|
  {
    if ids == [] {
      assert log + Resolutions(run, session, ids) == log;
    } else {
      var n := |ids| - 1;
      var before := log + Resolutions(run, session, ids[..n]);
      ReadResolutions(log, run, session, ids[..n]);
      assert log + Resolutions(run, session, ids) == before + [Approval(false, false, run, session, ids[n])];
      ReadNext(before, Approval(false, false, run, session, ids[n]), run);
    }
  }

  /** A continued Run is queued, and shows itself as running exactly when an approval was open in its session. */
  lemma ContinueShows(w: World, d: Deed)
    requires Tracks(w) && d.Continue? && CanContinue(w, d)
    ensures var after, open := Do(w, d).log, OpenApprovals(w.log, w.sched.tickets[d.run].session);
            && QueueOf(after).Ok? && AwaitsStart(QueueOf(after).value, d.run)
            && Read(after, d.run).status == Known(if open == {} then Queued else Running)
  {
    hide Inv, Enabled, Exec, Writes, Proper;
    var admitted := Stepped(w, Admission(d));
    ContinuedAwaitsStart(w, d);
    ResolutionsProper(admitted.log, d.run, w.sched.tickets[d.run].session, d.ids, d.run);
    EmptyOrMember(d.ids);
    ReadResolutions(admitted.log, d.run, w.sched.tickets[d.run].session, d.ids);
  }

  /** The host starts anew over the store: tickets and leases are gone. */
  function Restarted(w: World): World {
    w.(sched := w.sched.(tickets := map[], roots := map[]))
  }

  lemma DoTwo(w: World, a: Deed, b: Deed)
    ensures DoAll(w, [a, b]) == Do(Do(w, a), b)
  {
    assert [a, b][..1] == [a] && [a][..0] == [];
    assert DoAll(w, [a]) == Do(w, a);
  }

  lemma {:induction false} FactsOpenNothing(log: seq<Happening>, facts: seq<Fact>, session: string)
    ensures OpenApprovals(log + Lift(facts), session) == OpenApprovals(log, session)
    decreases |facts|
  {
    if facts == [] {
      assert log + Lift(facts) == log;
    } else {
      var n := |facts| - 1;
      FactsOpenNothing(log, facts[..n], session);
      assert (log + Lift(facts))[..|log| + n] == log + Lift(facts[..n]);
    }
  }

  lemma AskOpens(log: seq<Happening>, run: string, session: string, id: string)
    ensures id in OpenApprovals(log + [Approval(true, false, run, session, id)], session)
  {
    assert (log + [Approval(true, false, run, session, id)])[..|log|] == log;
  }

  /** A Run asks for an approval, and the host stops; when it starts anew it interrupts the Run. */
  ghost function StoppedWaiting(w: World, run: string, id: string, at: int, eventId: string): World {
    Restarted(DoAll(w, [Ask(true, id, run), Take(EndRun(run, Interrupted, at, eventId))]))
  }

  /** All roots but one are over. */
  ghost predicate OthersOver(s: Sched, run: string) {
    Fold(s.log).Ok? && forall r :: IsRoot(Fold(s.log).value, r) && r != run ==> StatusOf(Fold(s.log).value, r).Over?
  }

  ghost predicate AllOver(q: Queue) {
    forall r :: IsRoot(q, r) ==> StatusOf(q, r).Over?
  }

  lemma LastEnds(q: Queue, f: Fact)
    requires f.kind.Ended? && !f.partial && f.run != ""
    requires forall r :: IsRoot(q, r) && r != f.run ==> StatusOf(q, r).Over?
    ensures Collect(q, f).Ok? && AllOver(Collect(q, f).value)
  {
    var q' := Collect(q, f).value;
    forall r | IsRoot(q', r) ensures StatusOf(q', r).Over? {
      assert IsRoot(q, r);
    }
  }

  lemma OverIsInitial(s: Sched)
    requires Inv(s) && AllOver(Fold(s.log).value)
    ensures Initial(s.(tickets := map[], roots := map[]))
  {
    hide OnePerSession, WithinLimits, Handles;
  }

  lemma EndedIsInitial(s: Sched, run: string, at: int, eventId: string)
    requires Inv(s) && Writable(s, run) && OthersOver(s, run)
    ensures var end := EndRun(run, Interrupted, at, eventId);
            Initial(Exec(s, end).(tickets := map[], roots := map[]))
  {
    hide Inv, Initial, Handles, IsTerminal, AllOver;
    var end, q := EndRun(run, Interrupted, at, eventId), Fold(s.log).value;
    var f := Fact(Ended(Interrupted), false, run, s.runs[run], at, eventId);
    InvRows(s);
    ExecKeeps(s, end);
    FoldAppend(s.log, f);
    LastEnds(q, f);
    OverIsInitial(Exec(s, end));
  }

  /** The approval is still open, and the scheduler starts with nothing unfinished. */
  lemma WaitingStaysOpen(w: World, run: string, id: string, at: int, eventId: string)
    requires Tracks(w) && Writable(w.sched, run) && OthersOver(w.sched, run)
    ensures var anew := StoppedWaiting(w, run, id, at, eventId);
            Tracks(anew) && Initial(anew.sched) && id in OpenApprovals(anew.log, w.sched.runs[run])
  {
    hide Inv, Initial, OthersOver, Exec, Writes, IsTerminal, OpenApprovals;
    var ask, end := Ask(true, id, run), EndRun(run, Interrupted, at, eventId);
    var asked := Do(w, ask);
    DoTwo(w, ask, Take(end));
    AskProper(w, ask, run);
    StepTracks(asked, end, run);
    AskOpens(w.log, run, w.sched.runs[run], id);
    FactsOpenNothing(asked.log, Writes(asked.sched, end), w.sched.runs[run]);
    EndedIsInitial(w.sched, run, at, eventId);
    InitialSafe(StoppedWaiting(w, run, id, at, eventId).sched);
  }

  lemma TicketTaken(s: Sched, t: AdmissionTicket, startable: bool, d: Deed)
    requires d.Continue? && d.run == t.run && d.intent.parent == ""
    requires LaneFor(s, t.run, t.session, startable) == Ok(t.lane) && Fold(s.log).Ok?
    ensures var s' := Exec(s, TakeTicket(t, startable));
            && t.run in s'.tickets && s'.tickets[t.run] == t && Fold(s'.log).Ok?
            && Enabled(s', Fold(s'.log).value, Admission(d))
  {
  }

  /**
   * What the program then does to continue the session: a ticket, and the admission with the resolution of all
   * that is open. The Run is queued, and shows itself as running.
   */
  lemma StoppedThenContinued(
    w: World, run: string, id: string, at: int, eventId: string, t: AdmissionTicket, startable: bool, d: Deed)
    requires Tracks(w) && Writable(w.sched, run) && OthersOver(w.sched, run)
    requires var anew := StoppedWaiting(w, run, id, at, eventId);
             && LaneFor(anew.sched, t.run, t.session, startable) == Ok(t.lane) && t.session == w.sched.runs[run]
             && d.Continue? && d.run == t.run && d.intent.parent == "" && Distinct(d.ids)
             && forall x :: x in d.ids <==> x in OpenApprovals(anew.log, t.session)
    ensures var after := DoAll(StoppedWaiting(w, run, id, at, eventId), [Take(TakeTicket(t, startable)), d]).log;
            && QueueOf(after).Ok? && StatusOf(QueueOf(after).value, d.run) == Queued
            && Read(after, d.run).status == Known(Running) && !Agrees(after, d.run)
  {
    hide Inv, Initial, OthersOver, LaneFor, Enabled, DoAll, StoppedWaiting;
    var anew, take := StoppedWaiting(w, run, id, at, eventId), TakeTicket(t, startable);
    WaitingStaysOpen(w, run, id, at, eventId);
    DoTwo(anew, Take(take), d);
    StepTracks(anew, take, d.run);
    FactsOpenNothing(anew.log, Writes(anew.sched, take), t.session);
    InvRows(anew.sched);
    TicketTaken(anew.sched, t, startable, d);
    ContinueShows(Stepped(anew, take), d);
  }
}
