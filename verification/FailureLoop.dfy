/** The bounded failure window: three equal failures with one checkpoint, over a chain of continued Runs. */
module FailureLoop {
  import opened Common

  const FAILURE_WINDOW := 3

  datatype Metadata = Metadata(
    outcomeUnknown: bool, code: string, exitCode: Option<int>, exceptionType: string)

  /** A checkpoint is usable when it is there and available; an empty fingerprint is none. */
  datatype Fact =
    | Checkpoint(state: string, usable: bool)
    | Prepared
    | Completed(callId: string, name: string, isError: bool, fingerprint: string, metadata: Metadata)
    | OutcomeUnknown(callId: string, name: string)
    | OtherFact

  datatype Event = Event(partial: bool, run: string, fact: Fact)

  datatype Item = Item(run: string, callId: string, name: string, signature: string, checkpoint: Option<string>)

  predicate IsOutcome(e: Event) {
    !e.partial && (e.fact.Completed? || e.fact.OutcomeUnknown?)
  }

  predicate IsCheckpoint(e: Event) {
    !e.partial && e.fact.Checkpoint?
  }

  /** A later outcome or prepared tool takes over from the latest outcome. */
  predicate Closes(e: Event) {
    IsOutcome(e) || (!e.partial && e.fact.Prepared?)
  }

  predicate Evidence(m: Metadata) {
    && !m.outcomeUnknown
    && (m.code == "timeout"
        || (m.code == "execution_failed"
            && ((m.exitCode.Some? && m.exitCode.value != 0) || m.exceptionType != "")))
  }

  function SignatureOf(f: Fact): string {
    if f.Completed? && f.isError && Evidence(f.metadata) then f.fingerprint else ""
  }

  function StateOf(f: Fact): Option<string>
    requires f.Checkpoint?
  {
    if f.usable then Some(f.state) else None
  }

  function ItemOf(e: Event, checkpoint: Option<string>): Item
    requires IsOutcome(e)
  {
    Item(e.run, e.fact.callId, e.fact.name, SignatureOf(e.fact), checkpoint)
  }

  // ---------------------------------------------------------------- the projection

  /** The checkpoint in force, all outcomes so far, and whether the last one still follows checkpoints. */
  datatype Reading = Reading(checkpoint: Option<string>, items: seq<Item>, pending: bool)

  const BLANK := Reading(None, [], false)

  function Step(r: Reading, e: Event): Reading {
    if IsCheckpoint(e) then
      var state := StateOf(e.fact);
      var n := |r.items| - 1;
      Reading(state, if r.pending && n >= 0 then r.items[n := r.items[n].(checkpoint := state)] else r.items, r.pending)
    else if IsOutcome(e) then Reading(r.checkpoint, r.items + [ItemOf(e, r.checkpoint)], true)
    else if Closes(e) then r.(pending := false)
    else r
  }

  function ReadFrom(r: Reading, log: seq<Event>): Reading {
    if log == [] then r else Step(ReadFrom(r, log[..|log| - 1]), log[|log| - 1])
  }

  function Read(log: seq<Event>): Reading {
    ReadFrom(BLANK, log)
  }

  /** What the window of the last three outcomes amounts to. */
  datatype Candidate = Candidate(
    tool: string, fingerprint: string, checkpoint: string, continued: bool, calls: seq<(string, string)>)

  function LastThree(items: seq<Item>): seq<Item> {
    if |items| <= FAILURE_WINDOW then items else items[|items| - FAILURE_WINDOW..]
  }

  function Verdict(items: seq<Item>, run: string): Option<Candidate> {
    var window := LastThree(items);
    if |window| != FAILURE_WINDOW then None
    else
      var last := window[2];
      if last.signature == "" || last.checkpoint == None
         || (exists item :: item in window && (item.signature != last.signature || item.checkpoint != last.checkpoint))
      then None
      else
        Some(Candidate(
          last.name, last.signature, last.checkpoint.value, exists item :: item in window && item.run != run,
          seq(3, i requires 0 <= i < 3 => (window[i].run, window[i].callId))))
  }

  /** The loop over the history; the window keeps the last three outcomes only. */
  method FindCandidate(log: seq<Event>, run: string) returns (c: Option<Candidate>)
    ensures c == Verdict(Read(log).items, run)
  {
    var checkpoint: Option<string> := None;
    var window: seq<Item> := [];
    var pending := false;
    for i := 0 to |log|
      invariant var r := Read(log[..i]);
                r.checkpoint == checkpoint && r.pending == pending && LastThree(r.items) == window
      invariant pending ==> window != []
    {
      assert log[..i + 1][..i] == log[..i];
      ghost var r := Read(log[..i]);
      var e := log[i];
      if e.partial {
        continue;
      }
      match e.fact {
        case Checkpoint(state, usable) =>
          checkpoint := if usable then Some(state) else None;
          if pending {
            LastThreeUpdate(r.items, checkpoint);
            window := window[|window| - 1 := window[|window| - 1].(checkpoint := checkpoint)];
          }
        case Prepared =>
          pending := false;
        case Completed(callId, name, isError, fingerprint, metadata) =>
          var signature := if isError && Evidence(metadata) then fingerprint else "";
          LastThreeAppend(r.items, Item(e.run, callId, name, signature, checkpoint));
          window := LastThree(window + [Item(e.run, callId, name, signature, checkpoint)]);
          pending := true;
        case OutcomeUnknown(callId, name) =>
          LastThreeAppend(r.items, Item(e.run, callId, name, "", checkpoint));
          window := LastThree(window + [Item(e.run, callId, name, "", checkpoint)]);
          pending := true;
        case OtherFact =>
      }
    }
    assert log[..|log|] == log;
    SameWindow(Read(log).items, window, run);
    c := Verdict(window, run);
  }

  lemma LastThreeUpdate(items: seq<Item>, checkpoint: Option<string>)
    requires LastThree(items) != []
    ensures var n, window := |items| - 1, LastThree(items);
            LastThree(items[n := items[n].(checkpoint := checkpoint)])
            == window[|window| - 1 := window[|window| - 1].(checkpoint := checkpoint)]
  {
  }

  lemma LastThreeAppend(items: seq<Item>, item: Item)
    ensures LastThree(items + [item]) == LastThree(LastThree(items) + [item])
  {
  }

  lemma SameWindow(items: seq<Item>, window: seq<Item>, run: string)
    requires LastThree(items) == window
    ensures Verdict(items, run) == Verdict(window, run)
  {
    assert LastThree(window) == window;
  }

  /** The last three outcomes failed with this fingerprint and at this checkpoint. */
  ghost predicate LastThreeFail(items: seq<Item>, signature: string, checkpoint: string)
    requires |items| >= FAILURE_WINDOW
  {
    && signature != ""
    && forall i :: |items| - FAILURE_WINDOW <= i < |items| ==>
         items[i].signature == signature && items[i].checkpoint == Some(checkpoint)
  }

  /** A candidate means three failures in a row with one fingerprint and one checkpoint; nothing else does. */
  lemma CandidateIff(items: seq<Item>, run: string)
    ensures Verdict(items, run).Some? <==>
      && |items| >= FAILURE_WINDOW
      && exists signature, checkpoint :: LastThreeFail(items, signature, checkpoint)
  {
    if |items| >= FAILURE_WINDOW {
      var window, n := LastThree(items), |items| - FAILURE_WINDOW;
      assert forall i :: 0 <= i < 3 ==> window[i] == items[n + i];
      assert window == [window[0], window[1], window[2]];
      if Verdict(items, run).Some? {
        var last := window[2];
        forall i | n <= i < |items|
          ensures items[i].signature == last.signature && items[i].checkpoint == Some(last.checkpoint.value)
        {
          assert window[i - n] in window;
        }
        assert LastThreeFail(items, last.signature, last.checkpoint.value);
      }
    }
  }

  // ---------------------------------------------------------------- what a candidate says of the log

  function Outcomes(log: seq<Event>): seq<Event> {
    if log == [] then []
    else Outcomes(log[..|log| - 1]) + if IsOutcome(log[|log| - 1]) then [log[|log| - 1]] else []
  }

  /**
   * A failure that is evidence: a completed call that reported an error, with a fingerprint, whose outcome is
   * known and which timed out, or failed with another exit code than 0 or with an exception.
   */
  predicate FailedWith(e: Event, fingerprint: string) {
    && e.fact.Completed? && e.fact.isError && fingerprint != "" && e.fact.fingerprint == fingerprint
    && !e.fact.metadata.outcomeUnknown
    && match e.fact.metadata.code
       case "timeout" => true
       case "execution_failed" =>
         e.fact.metadata.exitCode !in {None, Some(0)} || e.fact.metadata.exceptionType != ""
       case _ => false
  }

  lemma SignatureIff(e: Event, fingerprint: string)
    ensures FailedWith(e, fingerprint) <==> fingerprint != "" && SignatureOf(e.fact) == fingerprint
  {
  }

  /** The item of an outcome, but for its checkpoint. */
  ghost predicate Notes(item: Item, e: Event) {
    IsOutcome(e) && item.run == e.run && item.callId == e.fact.callId && item.name == e.fact.name
    && item.signature == SignatureOf(e.fact)
  }

  lemma {:induction false} ItemsAreOutcomes(log: seq<Event>)
    ensures |Read(log).items| == |Outcomes(log)|
    ensures forall i :: 0 <= i < |Outcomes(log)| ==> Notes(Read(log).items[i], Outcomes(log)[i])
  {
    if log != [] {
      ItemsAreOutcomes(log[..|log| - 1]);
    }
  }

  /** What a candidate reports: the last tool, the fingerprint and checkpoint of all three, and the three calls. */
  ghost predicate Describes(c: Candidate, items: seq<Item>, run: string)
    requires |items| >= 3
  {
    var n := |items| - 3;
    && c.tool == items[n + 2].name
    && c.calls == [(items[n].run, items[n].callId), (items[n + 1].run, items[n + 1].callId),
                   (items[n + 2].run, items[n + 2].callId)]
    && (c.continued <==> items[n].run != run || items[n + 1].run != run || items[n + 2].run != run)
    && LastThreeFail(items, c.fingerprint, c.checkpoint)
  }

  lemma CandidateDescribes(items: seq<Item>, run: string)
    requires Verdict(items, run).Some?
    ensures |items| >= 3 && Describes(Verdict(items, run).value, items, run)
  {
    CandidateIff(items, run);
    var window, n := LastThree(items), |items| - 3;
    assert window == [items[n], items[n + 1], items[n + 2]];
    assert window[0] in window && window[1] in window && window[2] in window;
  }

  /** The last three outcomes of the log, as a candidate reports them. */
  ghost predicate ReportsLastThree(c: Candidate, outcomes: seq<Event>, run: string) {
    && |outcomes| >= 3
    && var n := |outcomes| - 3;
    && (forall i :: n <= i < n + 3 ==> IsOutcome(outcomes[i]) && FailedWith(outcomes[i], c.fingerprint))
    && c.tool == outcomes[n + 2].fact.name
    && c.calls == [(outcomes[n].run, outcomes[n].fact.callId), (outcomes[n + 1].run, outcomes[n + 1].fact.callId),
                   (outcomes[n + 2].run, outcomes[n + 2].fact.callId)]
    && (c.continued <==> outcomes[n].run != run || outcomes[n + 1].run != run || outcomes[n + 2].run != run)
  }

  /** A candidate reports the last three outcomes of its log, which failed with its fingerprint. */
  lemma CandidateReports(log: seq<Event>, run: string)
    requires Verdict(Read(log).items, run).Some?
    ensures ReportsLastThree(Verdict(Read(log).items, run).value, Outcomes(log), run)
  {
    hide Verdict, Outcomes, Read, SignatureOf, FailedWith;
    var items, outcomes := Read(log).items, Outcomes(log);
    var c := Verdict(items, run).value;
    CandidateDescribes(items, run);
    ItemsAreOutcomes(log);
    var n := |outcomes| - 3;
    forall i | n <= i < n + 3 ensures IsOutcome(outcomes[i]) && FailedWith(outcomes[i], c.fingerprint) {
      assert Notes(items[i], outcomes[i]);
      SignatureIff(outcomes[i], c.fingerprint);
    }
    assert Notes(items[n], outcomes[n]) && Notes(items[n + 1], outcomes[n + 1]) && Notes(items[n + 2], outcomes[n + 2]);
  }

  // ---------------------------------------------------------------- which checkpoint an outcome has

  lemma {:induction false} ReadJoins(r: Reading, a: seq<Event>, b: seq<Event>)
    ensures ReadFrom(r, a + b) == ReadFrom(ReadFrom(r, a), b)
    decreases |b|
  {
    if b == [] {
      assert a + b == a;
    } else {
      var n := |b| - 1;
      assert (a + b)[..|a + b| - 1] == a + b[..n];
      ReadJoins(r, a, b[..n]);
    }
  }

  /** The latest checkpoint of a log, if it has any and it can be used. */
  function Latest(log: seq<Event>): Option<string> {
    if log == [] then None
    else if IsCheckpoint(log[|log| - 1]) then StateOf(log[|log| - 1].fact)
    else Latest(log[..|log| - 1])
  }

  lemma {:induction false} ReadsLatest(log: seq<Event>)
    ensures Read(log).checkpoint == Latest(log)
  {
    if log != [] {
      ReadsLatest(log[..|log| - 1]);
    }
  }

  /** The last checkpoint of the log has this state and is usable. */
  ghost predicate LastState(log: seq<Event>, i: int, state: string) {
    && 0 <= i < |log| && !log[i].partial && log[i].fact == Checkpoint(state, true)
    && forall j :: i < j < |log| && log[j].fact.Checkpoint? ==> log[j].partial
  }

  /** A checkpoint that is not usable leaves none in force. */
  lemma {:induction false} LatestIff(log: seq<Event>, state: string)
    ensures Latest(log) == Some(state) <==> exists i :: LastState(log, i, state)
  {
    if log != [] {
      var n := |log| - 1;
      LatestIff(log[..n], state);
      if i :| LastState(log[..n], i, state) && !IsCheckpoint(log[n]) {
        assert LastState(log, i, state);
      }
      if i :| LastState(log, i, state) {
        assert i < n ==> LastState(log[..n], i, state) && (log[n].fact.Checkpoint? ==> log[n].partial);
      }
      assert log[n].fact == Checkpoint(state, true) && !log[n].partial ==> LastState(log, n, state);
    }
  }

  lemma {:induction false} FollowsCheckpoints(r: Reading, mid: seq<Event>)
    requires r.pending && r.items != [] && r.items[|r.items| - 1].checkpoint == r.checkpoint
    requires forall e :: e in mid ==> !Closes(e)
    ensures var n, after := |r.items| - 1, ReadFrom(r, mid);
            && after.pending && after.items == r.items[n := r.items[n].(checkpoint := after.checkpoint)]
  {
    if mid == [] {
      assert r.items[|r.items| - 1 := r.items[|r.items| - 1].(checkpoint := r.checkpoint)] == r.items;
    } else {
      var k := |mid| - 1;
      assert mid[k] in mid;
      FollowsCheckpoints(r, mid[..k]);
    }
  }

  lemma {:induction false} ItemsSettle(r: Reading, later: seq<Event>, k: nat)
    requires k < |r.items| && (r.pending ==> k + 1 < |r.items|)
    ensures k < |ReadFrom(r, later).items| && ReadFrom(r, later).items[k] == r.items[k]
    ensures ReadFrom(r, later).pending ==> k + 1 < |ReadFrom(r, later).items|
  {
    if later != [] {
      ItemsSettle(r, later[..|later| - 1], k);
    }
  }

  predicate TakesOver(e: Event) {
    !e.partial && (e.fact.Prepared? || e.fact.Completed? || e.fact.OutcomeUnknown?)
  }

  /**
   * An outcome has the latest checkpoint of the log up to the next prepared tool or outcome, whatever comes
   * afterwards.
   */
  lemma OutcomeCheckpoint(before: seq<Event>, o: Event, mid: seq<Event>, later: seq<Event>)
    requires IsOutcome(o) && (forall e :: e in mid ==> !TakesOver(e))
    requires later == [] || TakesOver(later[0])
    ensures var k, items := |Read(before).items|, Read(before + [o] + mid + later).items;
            k < |items| && items[k] == ItemOf(o, Latest(before + [o] + mid))
  {
    var a, b := Read(before), Read(before + [o]);
    assert (before + [o])[..|before|] == before;
    FollowsCheckpoints(b, mid);
    ReadJoins(BLANK, before + [o], mid);
    ReadsLatest(before + [o] + mid);
    var c := Read(before + [o] + mid);
    ReadJoins(BLANK, before + [o] + mid, later);
    if later == [] {
      assert before + [o] + mid + later == before + [o] + mid;
    } else {
      assert later == [later[0]] + later[1..];
      ReadJoins(c, [later[0]], later[1..]);
      var d := ReadFrom(c, [later[0]]);
      assert [later[0]][..0] == [];
      assert d == Step(c, later[0]);
      ItemsSettle(d, later[1..], |a.items|);
    }
  }

  // ---------------------------------------------------------------- stopping the chain walk

  function CountOutcomes(log: seq<Event>): nat {
    if log == [] then 0
    else CountOutcomes(log[..|log| - 1]) + if IsOutcome(log[|log| - 1]) then 1 else 0
  }

  predicate HasCheckpoint(log: seq<Event>) {
    exists e :: e in log && IsCheckpoint(e)
  }

  /** For each outcome, whether the log itself gives it a checkpoint: before it, or before another takes over. */
  function Own(log: seq<Event>): seq<bool> {
    if log == [] then []
    else
      var n := |log| - 1;
      StepOwn(Own(log[..n]), HasCheckpoint(log[..n]), Read(log[..n]).pending, log[n])
  }

  function StepOwn(own: seq<bool>, seen: bool, pending: bool, e: Event): seq<bool> {
    if IsOutcome(e) then own + [seen]
    else if IsCheckpoint(e) && pending && own != [] then own[|own| - 1 := true]
    else own
  }

  /** The outcomes as they look when `checkpoint` was in force before the log. */
  function Fill(items: seq<Item>, own: seq<bool>, checkpoint: Option<string>): seq<Item>
    requires |own| == |items|
  {
    seq(|items|, i requires 0 <= i < |items| =>
      if own[i] then items[i] else items[i].(checkpoint := checkpoint))
  }

  /** A log read on its own: what has no checkpoint of its own has none. */
  ghost predicate Alone(t: Reading, own: seq<bool>, seen: bool) {
    && |own| == |t.items| && (t.pending ==> t.items != [])
    && (!seen ==> t.checkpoint == None)
    && forall i :: 0 <= i < |own| && !own[i] ==> t.items[i].checkpoint == None
  }

  lemma StepAlone(t: Reading, own: seq<bool>, seen: bool, e: Event)
    requires Alone(t, own, seen)
    ensures Alone(Step(t, e), StepOwn(own, seen, t.pending, e), seen || IsCheckpoint(e))
  {
  }

  lemma {:induction false} ReadsAlone(log: seq<Event>)
    ensures Alone(Read(log), Own(log), HasCheckpoint(log))
  {
    if log != [] {
      var n := |log| - 1;
      ReadsAlone(log[..n]);
      StepAlone(Read(log[..n]), Own(log[..n]), HasCheckpoint(log[..n]), log[n]);
      assert log == log[..n] + [log[n]];
    }
  }

  /** The same log read after an earlier history: that history's checkpoint fills in where its own is missing. */
  ghost predicate After(r: Reading, t: Reading, own: seq<bool>, seen: bool, checkpoint: Option<string>) {
    && |own| == |t.items| <= |r.items|
    && r.items[|r.items| - |t.items|..] == Fill(t.items, own, checkpoint)
    && r.checkpoint == (if seen then t.checkpoint else checkpoint)
    && (t.items != [] ==> r.pending == t.pending)
    && (t.pending ==> t.items != [])
  }

  lemma OutcomeAfter(r: Reading, t: Reading, own: seq<bool>, seen: bool, checkpoint: Option<string>, e: Event)
    requires After(r, t, own, seen, checkpoint) && IsOutcome(e)
    ensures After(Step(r, e), Step(t, e), StepOwn(own, seen, t.pending, e), seen || IsCheckpoint(e), checkpoint)
  {
    var r', t', own' := Step(r, e), Step(t, e), StepOwn(own, seen, t.pending, e);
    var n := |r.items| - |t.items|;
    assert r'.items[n..] == r.items[n..] + [ItemOf(e, r.checkpoint)];
    assert Fill(t'.items, own', checkpoint) == Fill(t.items, own, checkpoint) + [ItemOf(e, r.checkpoint)];
  }

  lemma CheckpointAfter(r: Reading, t: Reading, own: seq<bool>, seen: bool, checkpoint: Option<string>, e: Event)
    requires After(r, t, own, seen, checkpoint) && !IsOutcome(e) && IsCheckpoint(e) && t.pending
    ensures After(Step(r, e), Step(t, e), StepOwn(own, seen, t.pending, e), true, checkpoint)
  {
    var r', t', own' := Step(r, e), Step(t, e), StepOwn(own, seen, t.pending, e);
    var n, m, state := |r.items| - |t.items|, |t.items| - 1, StateOf(e.fact);
    var item := r.items[n + m].(checkpoint := state);
    assert r.items[n..][m] == r.items[n + m];
    assert r'.items[n..] == r.items[n..][m := item];
    assert Fill(t'.items, own', checkpoint) == Fill(t.items, own, checkpoint)[m := item];
  }

  lemma StepAfter(r: Reading, t: Reading, own: seq<bool>, seen: bool, checkpoint: Option<string>, e: Event)
    requires After(r, t, own, seen, checkpoint)
    ensures After(Step(r, e), Step(t, e), StepOwn(own, seen, t.pending, e), seen || IsCheckpoint(e), checkpoint)
  {
    if IsOutcome(e) {
      OutcomeAfter(r, t, own, seen, checkpoint, e);
    } else if IsCheckpoint(e) && t.pending {
      CheckpointAfter(r, t, own, seen, checkpoint, e);
    } else if t.items == [] {
      assert Step(r, e).items[|Step(r, e).items|..] == Fill([], [], checkpoint);
    }
  }

  lemma {:induction false} ReadsAfter(r: Reading, log: seq<Event>)
    ensures After(ReadFrom(r, log), Read(log), Own(log), HasCheckpoint(log), r.checkpoint)
  {
    if log == [] {
      assert r.items[|r.items|..] == Fill([], [], r.checkpoint);
    } else {
      var n := |log| - 1;
      ReadsAfter(r, log[..n]);
      StepAfter(ReadFrom(r, log[..n]), Read(log[..n]), Own(log[..n]), HasCheckpoint(log[..n]), r.checkpoint, log[n]);
      assert log == log[..n] + [log[n]];
    }
  }

  lemma {:induction false} CountsItems(log: seq<Event>)
    ensures |Read(log).items| == CountOutcomes(log)
  {
    if log != [] {
      CountsItems(log[..|log| - 1]);
    }
  }

  /**
   * The last three outcomes failed alike, but not all have a checkpoint of their own, and those that have one
   * share it: a checkpoint from before the log can make them a candidate.
   */
  ghost predicate Fragile(items: seq<Item>, own: seq<bool>) {
    && |own| == |items| >= FAILURE_WINDOW
    && (exists i :: |items| - FAILURE_WINDOW <= i < |items| && !own[i])
    && exists signature, checkpoint :: AlikeWhereOwn(items, own, signature, checkpoint)
  }

  ghost predicate AlikeWhereOwn(items: seq<Item>, own: seq<bool>, signature: string, checkpoint: string)
    requires |own| == |items| >= FAILURE_WINDOW
  {
    && signature != ""
    && forall i :: |items| - FAILURE_WINDOW <= i < |items| ==>
         items[i].signature == signature && (own[i] ==> items[i].checkpoint == Some(checkpoint))
  }

  /** Three outcomes of which one lacks a checkpoint are no candidate. */
  lemma UnownedIsNone(t: Reading, own: seq<bool>, seen: bool, i: int, run: string)
    requires Alone(t, own, seen) && |own| >= FAILURE_WINDOW
    requires |own| - FAILURE_WINDOW <= i < |own| && !own[i]
    ensures Verdict(t.items, run).None?
  {
    CandidateIff(t.items, run);
  }

  lemma FilledVerdict(r: Reading, t: Reading, own: seq<bool>, seen: bool, checkpoint: Option<string>, run: string)
    requires After(r, t, own, seen, checkpoint) && |t.items| >= FAILURE_WINDOW
    ensures Verdict(r.items, run) == Verdict(Fill(t.items, own, checkpoint), run)
  {
    var filled, n := Fill(t.items, own, checkpoint), |r.items| - |t.items|;
    assert LastThree(r.items) == LastThree(filled) by {
      assert LastThree(filled) == r.items[n..][|t.items| - 3..];
    }
    SameWindow(r.items, LastThree(r.items), run);
    SameWindow(filled, LastThree(filled), run);
  }

  /** Filling in a checkpoint changes the verdict of a log only if the log is fragile. */
  lemma FillingMatters(t: Reading, own: seq<bool>, seen: bool, checkpoint: Option<string>, run: string)
    requires Alone(t, own, seen) && |t.items| >= FAILURE_WINDOW
    ensures Verdict(Fill(t.items, own, checkpoint), run) == Verdict(t.items, run) || Fragile(t.items, own)
  {
    var filled, n := Fill(t.items, own, checkpoint), |own| - FAILURE_WINDOW;
    if i :| n <= i < |own| && !own[i] {
      UnownedIsNone(t, own, seen, i, run);
      CandidateIff(filled, run);
      if Verdict(filled, run).Some? {
        var signature, state :| LastThreeFail(filled, signature, state);
        forall j | n <= j < |own|
          ensures t.items[j].signature == signature && (own[j] ==> t.items[j].checkpoint == Some(state))
        {
          assert filled[j].signature == signature;
        }
        assert AlikeWhereOwn(t.items, own, signature, state);
      }
    } else {
      assert LastThree(filled) == LastThree(t.items);
      SameWindow(filled, LastThree(filled), run);
      SameWindow(t.items, LastThree(filled), run);
    }
  }

  /** The checkpoint that makes a fragile log a candidate. */
  lemma FragileFills(t: Reading, own: seq<bool>, seen: bool, run: string) returns (state: string)
    requires Alone(t, own, seen) && Fragile(t.items, own)
    ensures Verdict(Fill(t.items, own, Some(state)), run).Some? && Verdict(t.items, run).None?
  {
    var i :| |own| - FAILURE_WINDOW <= i < |own| && !own[i];
    UnownedIsNone(t, own, seen, i, run);
    var signature, checkpoint :| AlikeWhereOwn(t.items, own, signature, checkpoint);
    state := checkpoint;
    FilledIsCandidate(t.items, own, signature, state, run);
  }

  lemma FilledIsCandidate(items: seq<Item>, own: seq<bool>, signature: string, state: string, run: string)
    requires |own| == |items| >= FAILURE_WINDOW && AlikeWhereOwn(items, own, signature, state)
    ensures Verdict(Fill(items, own, Some(state)), run).Some?
  {
    var filled := Fill(items, own, Some(state));
    assert LastThreeFail(filled, signature, state);
    CandidateIff(filled, run);
  }

  /**
   * What came before a log with three outcomes is irrelevant to its verdict, whatever it was, exactly when the
   * log is not fragile.
   */
  lemma EarlierHistoryIsIrrelevant(log: seq<Event>, run: string)
    requires CountOutcomes(log) >= FAILURE_WINDOW
    ensures !Fragile(Read(log).items, Own(log)) <==>
              forall earlier :: SameVerdict(earlier, log, run)
  {
    var t, own, seen := Read(log), Own(log), HasCheckpoint(log);
    ReadsAlone(log);
    CountsItems(log);
    if Fragile(t.items, own) {
      var state := FragileFills(t, own, seen, run);
      var c := Event(false, run, Checkpoint(state, true));
      ReadAppend(BLANK, [], c);
      assert [] + [c] == [c];
      ReadJoins(BLANK, [c], log);
      ReadsAfter(Read([c]), log);
      FilledVerdict(Read([c] + log), t, own, seen, Some(state), run);
      assert !SameVerdict([c], log, run);
    } else {
      forall earlier ensures SameVerdict(earlier, log, run) {
        var r := Read(earlier);
        ReadJoins(BLANK, earlier, log);
        ReadsAfter(r, log);
        FilledVerdict(Read(earlier + log), t, own, seen, r.checkpoint, run);
        FillingMatters(t, own, seen, r.checkpoint, run);
      }
    }
  }

  ghost predicate SameVerdict(earlier: seq<Event>, log: seq<Event>, run: string) {
    Verdict(Read(earlier + log).items, run) == Verdict(Read(log).items, run)
  }

  /** A checkpoint comes before the first outcome. */
  predicate Anchored(log: seq<Event>) {
    log == [] || (Anchored(log[..|log| - 1])
                  && (IsOutcome(log[|log| - 1]) ==> HasCheckpoint(log[..|log| - 1])))
  }

  lemma {:induction false} AnchoredIsOwn(log: seq<Event>)
    requires Anchored(log)
    ensures forall i :: 0 <= i < |Own(log)| ==> Own(log)[i]
  {
    if log != [] {
      AnchoredIsOwn(log[..|log| - 1]);
    }
  }

  // ---------------------------------------------------------------- the chain of Runs

  /** An empty text: the Run continues no other. */
  datatype Run = Run(continuationOf: string, events: seq<Event>)

  /** The history up to a Run; without `stop`, the whole chain. None: a Run of the chain is missing. */
  function History(runs: map<string, Run>, run: string, seen: set<string>, count: nat, stop: bool)
    : Option<seq<Event>>
    decreases runs.Keys - seen
  {
    if run == "" || run in seen then Some([])
    else if run !in runs then None
    else
      var count' := count + CountOutcomes(runs[run].events);
      if stop && count' >= FAILURE_WINDOW then Some(runs[run].events)
      else
        match History(runs, runs[run].continuationOf, seen + {run}, count', stop)
        case None => None
        case Some(earlier) => Some(earlier + runs[run].events)
  }

  method CountIn(log: seq<Event>) returns (n: nat)
    ensures n == CountOutcomes(log)
  {
    n := 0;
    for i := 0 to |log|
      invariant n == CountOutcomes(log[..i])
    {
      assert log[..i + 1][..i] == log[..i];
      if IsOutcome(log[i]) {
        n := n + 1;
      }
    }
    assert log[..|log|] == log;
  }

  /** The walk along the chain; a missing Run gives an empty history. */
  method ReadHistory(runs: map<string, Run>, run: string) returns (history: seq<Event>)
    ensures history == History(runs, run, {}, 0, true).GetOr([])
  {
    var current, seen: set<string>, count: nat := run, {}, 0;
    history := [];
    ghost var whole := History(runs, run, {}, 0, true);
    assert whole.Some? ==> whole.value + [] == whole.value;
    while current != "" && current !in seen
      invariant History(runs, run, {}, 0, true)
             == match History(runs, current, seen, count, true)
                case None => None
                case Some(earlier) => Some(earlier + history)
      decreases runs.Keys - seen
    {
      if current !in runs {
        return [];
      }
      var events := runs[current].events;
      var n := CountIn(events);
      ghost var rest := History(runs, runs[current].continuationOf, seen + {current}, count + n, true);
      if rest.Some? {
        Associate(rest.value, events, history);
      }
      history := events + history;
      seen, count := seen + {current}, count + n;
      if count >= FAILURE_WINDOW {
        return;
      }
      current := runs[current].continuationOf;
    }
    assert [] + history == history;
  }

  ghost predicate AllAnchored(runs: map<string, Run>) {
    forall id :: id in runs ==> Anchored(runs[id].events)
  }

  lemma {:induction false} CountJoins(a: seq<Event>, b: seq<Event>)
    ensures CountOutcomes(a + b) == CountOutcomes(a) + CountOutcomes(b)
    decreases |b|
  {
    if b == [] {
      assert a + b == a;
    } else {
      var n := |b| - 1;
      assert (a + b)[..|a + b| - 1] == a + b[..n];
      CountJoins(a, b[..n]);
    }
  }

  lemma {:induction false} AnchorJoins(a: seq<Event>, b: seq<Event>)
    requires Anchored(a) && Anchored(b)
    ensures Anchored(a + b)
    decreases |b|
  {
    if b == [] {
      assert a + b == a;
    } else {
      var n := |b| - 1;
      assert (a + b)[..|a + b| - 1] == a + b[..n];
      AnchorJoins(a, b[..n]);
      if IsOutcome(b[n]) {
        var e :| e in b[..n] && IsCheckpoint(e);
        assert e in a + b[..n];
      }
    }
  }

  /**
   * Stopping leaves out an earlier part only, and only once three outcomes have been read. A missing Run that
   * the walk meets is met by both; one that only the whole chain meets lies beyond those three outcomes.
   */
  lemma {:induction false} StopsAfterThree(
    runs: map<string, Run>, run: string, seen: set<string>, count: nat) returns (earlier: seq<Event>)
    ensures var part, whole := History(runs, run, seen, count, true), History(runs, run, seen, count, false);
            && (whole.Some? ==> part.Some? && whole.value == earlier + part.value)
            && (part.Some? && (whole.None? || earlier != []) ==>
                  count + CountOutcomes(part.value) >= FAILURE_WINDOW)
    decreases runs.Keys - seen
  {
    earlier := [];
    if run != "" && run !in seen && run in runs {
      var events := runs[run].events;
      var count' := count + CountOutcomes(events);
      var next := runs[run].continuationOf;
      if count' >= FAILURE_WINDOW {
        earlier := History(runs, next, seen + {run}, count', false).GetOr([]);
      } else {
        earlier := StopsAfterThree(runs, next, seen + {run}, count');
        var part := History(runs, next, seen + {run}, count', true).GetOr([]);
        Associate(earlier, part, events);
        CountJoins(part, events);
      }
    }
  }

  lemma {:induction false} WalkIsAnchored(runs: map<string, Run>, run: string, seen: set<string>, count: nat)
    requires AllAnchored(runs)
    ensures Anchored(History(runs, run, seen, count, true).GetOr([]))
    decreases runs.Keys - seen
  {
    if run != "" && run !in seen && run in runs {
      var events := runs[run].events;
      var count' := count + CountOutcomes(events);
      if count' < FAILURE_WINDOW {
        var next := runs[run].continuationOf;
        WalkIsAnchored(runs, next, seen + {run}, count');
        AnchorJoins(History(runs, next, seen + {run}, count', true).GetOr([]), events);
      }
    }
  }

  /**
   * The early stop gives the verdict of the whole chain unless what it read is fragile, which it is not when
   * each Run logs a checkpoint before its first outcome. A missing Run empties the whole chain, and with it
   * the verdict; the early stop does not notice one beyond the three outcomes it has read.
   */
  lemma EarlyStopIsSafe(runs: map<string, Run>, run: string)
    ensures var part, whole := History(runs, run, {}, 0, true), History(runs, run, {}, 0, false);
            var p, w := part.GetOr([]), whole.GetOr([]);
            && (whole.Some? && !Fragile(Read(p).items, Own(p)) ==>
                  Verdict(Read(p).items, run) == Verdict(Read(w).items, run))
            && (AllAnchored(runs) ==> !Fragile(Read(p).items, Own(p)))
            && (whole.None? ==> Verdict(Read(w).items, run).None?)
            && (whole.None? && part.Some? ==> CountOutcomes(p) >= FAILURE_WINDOW)
            && (whole.Some? ==> part.Some?)
  {
    var earlier := StopsAfterThree(runs, run, {}, 0);
    var part, whole := History(runs, run, {}, 0, true), History(runs, run, {}, 0, false);
    var p := part.GetOr([]);
    if whole.Some? {
      if earlier == [] {
        assert earlier + p == p;
      } else {
        EarlierHistoryIsIrrelevant(p, run);
        assert !Fragile(Read(p).items, Own(p)) ==> SameVerdict(earlier, p, run);
      }
    }
    if AllAnchored(runs) {
      WalkIsAnchored(runs, run, {}, 0);
      AnchoredIsOwn(p);
    }
  }

  lemma ReadThree(r: Reading, e: Event)
    requires IsOutcome(e)
    ensures var item := ItemOf(e, r.checkpoint);
            ReadFrom(r, [e, e, e]) == Reading(r.checkpoint, r.items + [item, item, item], true)
  {
    var item := ItemOf(e, r.checkpoint);
    ReadAppend(r, [], e);
    ReadAppend(r, [e], e);
    ReadAppend(r, [e, e], e);
    assert [] + [e] == [e] && [e] + [e] == [e, e] && [e, e] + [e] == [e, e, e];
    assert ((r.items + [item]) + [item]) + [item] == r.items + [item, item, item];
  }

  lemma ReadAppend(r: Reading, log: seq<Event>, e: Event)
    ensures ReadFrom(r, log + [e]) == Step(ReadFrom(r, log), e)
  {
    assert (log + [e])[..|log|] == log;
  }

  /** Three equal failures are no candidate by themselves, and one after a checkpoint. */
  lemma ThreeAfter(a: string, state: string, e: Event, run: string)
    requires IsOutcome(e) && SignatureOf(e.fact) != ""
    ensures var c := Event(false, a, Checkpoint(state, true));
            Verdict(Read([e, e, e]).items, run).None? && Verdict(Read([c] + [e, e, e]).items, run).Some?
  {
    var c := Event(false, a, Checkpoint(state, true));
    ReadAppend(BLANK, [], c);
    assert [] + [c] == [c];
    assert Read([c]) == Reading(Some(state), [], false);
    ReadThree(BLANK, e);
    ReadThree(Read([c]), e);
    ReadJoins(BLANK, [c], [e, e, e]);
    CandidateIff(Read([e, e, e]).items, run);
    var items := Read([c] + [e, e, e]).items;
    assert LastThreeFail(items, SignatureOf(e.fact), state);
    CandidateIff(items, run);
  }

  lemma WalkOfTwo(runs: map<string, Run>, a: string, b: string)
    requires a != "" && b != "" && a != b && a in runs && b in runs
    requires runs[a].continuationOf == "" && runs[b].continuationOf == a
    requires CountOutcomes(runs[b].events) >= FAILURE_WINDOW
    ensures History(runs, b, {}, 0, true) == Some(runs[b].events)
    ensures History(runs, b, {}, 0, false) == Some(runs[a].events + runs[b].events)
  {
    var count := CountOutcomes(runs[b].events);
    var both := count + CountOutcomes(runs[a].events);
    assert History(runs, "", {b} + {a}, both, false) == Some([]);
    assert [] + runs[a].events == runs[a].events;
    assert History(runs, a, {b}, count, false) == Some(runs[a].events);
    assert {} + {b} == {b};
  }

  /**
   * A Run that continues one with a checkpoint and logs none of its own before three equal failures: the walk
   * stops at it and finds no candidate, and the whole chain holds one.
   */
  lemma UnanchoredRunDiffers(a: string, b: string, state: string, e: Event)
    requires a != "" && b != "" && a != b && IsOutcome(e) && SignatureOf(e.fact) != ""
    ensures var runs := map[a := Run("", [Event(false, a, Checkpoint(state, true))]), b := Run(a, [e, e, e])];
            var part, whole := History(runs, b, {}, 0, true), History(runs, b, {}, 0, false);
            && part.Some? && whole.Some?
            && Verdict(Read(part.value).items, b).None? && Verdict(Read(whole.value).items, b).Some?
  {
    var c := Event(false, a, Checkpoint(state, true));
    var runs := map[a := Run("", [c]), b := Run(a, [e, e, e])];
    CountsItems([e, e, e]);
    ReadThree(BLANK, e);
    WalkOfTwo(runs, a, b);
    ThreeAfter(a, state, e, b);
  }
}
