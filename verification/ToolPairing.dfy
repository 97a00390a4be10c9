/** Each projected assistant message with tool calls is followed by exactly their results. */
module ToolPairing {
  import opened Common
  import opened Conversation

  // ---------------------------------------------------------------- the shape

  predicate AllResults(blocks: seq<Block>) {
    forall b :: b in blocks ==> b.ToolResult?
  }

  /** Results for distinct calls, and for exactly the calls in `ids`. */
  ghost predicate ResultsFor(blocks: seq<Block>, ids: set<string>) {
    && AllResults(blocks)
    && (forall i, j :: 0 <= i < j < |blocks| ==> blocks[i].callId != blocks[j].callId)
    && (forall id :: id in ids <==> exists i :: 0 <= i < |blocks| && blocks[i].callId == id)
  }

  /** A user message holding one result for each call in `ids`, and nothing else. */
  ghost predicate Answers(m: Message, ids: set<string>) {
    m.role == User && m.content.Blocks? && ResultsFor(m.content.blocks, ids)
  }

  ghost predicate PairedAt(messages: seq<Message>, i: nat)
    requires i < |messages|
  {
    CallIds(messages[i]) != {} ==>
      i + 1 < |messages| && Answers(messages[i + 1], CallIds(messages[i]))
  }

  ghost predicate Paired(messages: seq<Message>) {
    forall i :: 0 <= i < |messages| ==> PairedAt(messages, i)
  }

  // ---------------------------------------------------------------- quiet logs

  /** No message and no response arrives while calls are pending. */
  ghost predicate Quiet(log: seq<Event>) {
    log == [] ||
    var before, e := log[..|log| - 1], log[|log| - 1];
    Quiet(before) && (MessageOf(e).Some? ==> Read(before, None).pending == {})
  }

  lemma {:induction false} PendingIgnoresPreview(log: seq<Event>, preview: Option<Preview>)
    ensures Read(log, preview).pending == Read(log, None).pending
  {
    if log != [] {
      PendingIgnoresPreview(log[..|log| - 1], preview);
    }
  }

  /** All calls but those of the last message have their results; that one has some of them. */
  ghost predicate PairedSoFar(r: Reading) {
    if r.pending == {} then r.results == [] && Paired(r.messages)
    else
      && r.messages != []
      && var n := |r.messages| - 1;
      && Paired(r.messages[..n])
      && exists done :: Halves(r, done, CallIds(r.messages[n]))
  }

  ghost predicate Halves(r: Reading, done: set<string>, ids: set<string>) {
    done !! r.pending && done + r.pending == ids && ResultsFor(r.results, done)
  }

  lemma OneMoreResult(results: seq<Block>, done: set<string>, b: Block)
    requires ResultsFor(results, done) && b.ToolResult? && b.callId !in done
    ensures ResultsFor(results + [b], done + {b.callId})
  {
    var all := results + [b];
    forall id | id in done + {b.callId}
      ensures exists i :: 0 <= i < |all| && all[i].callId == id
    {
      if id == b.callId {
        assert all[|results|].callId == id;
      } else {
        var i :| 0 <= i < |results| && results[i].callId == id;
        assert all[i].callId == id;
      }
    }
    forall i, j | 0 <= i < j < |all| ensures all[i].callId != all[j].callId {
      assert results[i].callId in done;
    }
  }

  lemma AppendMessage(messages: seq<Message>, m: Message)
    requires Paired(messages)
    ensures Paired((messages + [m])[..|messages|])
    ensures CallIds(m) == {} ==> Paired(messages + [m])
  {
    var all := messages + [m];
    assert all[..|messages|] == messages;
    forall i | 0 <= i < |all| && CallIds(m) == {} ensures PairedAt(all, i) {
      assert i < |messages| ==> PairedAt(messages, i);
    }
  }

  /** The message with the last result completes the pair. */
  lemma CompletePair(messages: seq<Message>, results: Message)
    requires messages != [] && Paired(messages[..|messages| - 1])
    requires Answers(results, CallIds(messages[|messages| - 1]))
    ensures Paired(messages + [results])
  {
    var n, all := |messages| - 1, messages + [results];
    forall i | 0 <= i < |all| ensures PairedAt(all, i) {
      if i < n {
        assert PairedAt(messages[..n], i);
      }
    }
  }

  lemma SayKeepsPairs(r: Reading, m: Message)
    requires PairedSoFar(r) && r.pending == {}
    ensures PairedSoFar(Say(r, m))
  {
    AppendMessage(r.messages, m);
    var next := Say(r, m);
    if next.pending != {} {
      assert Halves(next, {}, CallIds(next.messages[|r.messages|]));
    }
  }

  lemma AnswerKeepsPairs(r: Reading, id: string, b: Block)
    requires PairedSoFar(r) && b.ToolResult? && b.callId == id
    ensures PairedSoFar(Answer(r, id, b))
  {
    if id in r.pending {
      var last := r.messages[|r.messages| - 1];
      var done :| Halves(r, done, CallIds(last));
      OneMoreResult(r.results, done, b);
      var next := Answer(r, id, b);
      if r.pending == {id} {
        assert done + {id} == CallIds(last);
        CompletePair(r.messages, Message(User, Blocks(r.results + [b])));
      } else {
        assert r.pending == (r.pending - {id}) + {id};
        assert done + {id} + (r.pending - {id}) == CallIds(last);
        assert Halves(next, done + {id}, CallIds(last));
      }
    }
  }

  lemma {:induction false} QuietReads(log: seq<Event>, preview: Option<Preview>)
    requires Quiet(log)
    ensures PairedSoFar(Read(log, preview))
  {
    if log != [] {
      var before, e := log[..|log| - 1], log[|log| - 1];
      QuietReads(before, preview);
      PendingIgnoresPreview(before, preview);
      if MessageOf(e).Some? {
        SayKeepsPairs(Read(before, preview), MessageOf(e).value);
      } else if !e.partial && e.fact.ToolEnded? {
        AnswerKeepsPairs(Read(before, preview), e.fact.callId, ResultOf(e, preview));
      }
    }
  }

  /**
   * Whatever a quiet log projects to is paired: an assistant message with calls is immediately followed by
   * one user message that holds exactly one result for each of them.
   */
  lemma ProjectionIsPaired(log: seq<Event>, preview: Option<Preview>)
    requires Quiet(log) && Project(log, preview).Ok?
    ensures Paired(Project(log, preview).value)
  {
    QuietReads(log, preview);
  }

  // ---------------------------------------------------------------- no other results

  predicate HasResults(m: Message) {
    m.content.Blocks? && exists b :: b in m.content.blocks && b.ToolResult?
  }

  /** Messages that are spoken, or come from the model, carry no results of their own. */
  ghost predicate ResultsFromTools(log: seq<Event>) {
    forall e :: e in log && MessageOf(e).Some? ==> !HasResults(MessageOf(e).value)
  }

  /** Every message with results answers the message before it. */
  ghost predicate Belong(messages: seq<Message>) {
    forall i :: 0 <= i < |messages| && HasResults(messages[i]) ==>
      i > 0 && CallIds(messages[i - 1]) != {} && Answers(messages[i], CallIds(messages[i - 1]))
  }

  lemma AnswerBelongs(r: Reading, id: string, b: Block)
    requires PairedSoFar(r) && Belong(r.messages) && b.ToolResult? && b.callId == id
    ensures Belong(Answer(r, id, b).messages)
  {
    if r.pending == {id} {
      var n := |r.messages| - 1;
      var done :| Halves(r, done, CallIds(r.messages[n]));
      OneMoreResult(r.results, done, b);
      assert id in CallIds(r.messages[n]);
      assert done + {id} == CallIds(r.messages[n]);
    }
  }

  /** In a quiet log there are no results but those that answer the calls right before them. */
  lemma {:induction false} NoOtherResults(log: seq<Event>, preview: Option<Preview>)
    requires Quiet(log) && ResultsFromTools(log)
    ensures Belong(Read(log, preview).messages)
  {
    if log != [] {
      var before, e := log[..|log| - 1], log[|log| - 1];
      assert log == before + [e];
      NoOtherResults(before, preview);
      QuietReads(before, preview);
      if MessageOf(e).Some? {
        assert e in log;
      } else if !e.partial && e.fact.ToolEnded? {
        AnswerBelongs(Read(before, preview), e.fact.callId, ResultOf(e, preview));
      }
    }
  }

  // ---------------------------------------------------------------- exactly the quiet logs

  /** A message with calls that is already followed by something else than exactly their results. */
  ghost predicate Broken(messages: seq<Message>) {
    exists i :: 0 <= i < |messages| - 1 && !PairedAt(messages, i)
  }

  lemma StaysBroken(messages: seq<Message>, m: Message)
    requires Broken(messages)
    ensures Broken(messages + [m])
  {
    var i :| 0 <= i < |messages| - 1 && !PairedAt(messages, i);
    assert !PairedAt(messages + [m], i);
  }

  /** A message without results cannot answer a call. */
  lemma NoResultsNoAnswer(m: Message, ids: set<string>)
    requires !HasResults(m) && ids != {}
    ensures !Answers(m, ids)
  {
    if m.content.Blocks? && m.content.blocks != [] {
      assert m.content.blocks[0] in m.content.blocks;
    }
  }

  /** A message between a call and its result stands where the results should be. */
  lemma InterruptionBreaks(r: Reading, m: Message)
    requires PairedSoFar(r) && r.pending != {} && !HasResults(m)
    ensures Broken(r.messages + [m])
  {
    var n := |r.messages| - 1;
    var done :| Halves(r, done, CallIds(r.messages[n]));
    assert CallIds(r.messages[n]) != {};
    NoResultsNoAnswer(m, CallIds(r.messages[n]));
    assert !PairedAt(r.messages + [m], n);
  }

  lemma {:induction false} NoiseBreaks(log: seq<Event>, preview: Option<Preview>)
    requires ResultsFromTools(log) && !Quiet(log)
    ensures Broken(Read(log, preview).messages)
  {
    var before, e := log[..|log| - 1], log[|log| - 1];
    assert log == before + [e];
    var r := Read(before, preview);
    if Quiet(before) {
      QuietReads(before, preview);
      PendingIgnoresPreview(before, preview);
      assert e in log;
      InterruptionBreaks(r, MessageOf(e).value);
    } else {
      NoiseBreaks(before, preview);
      if Read(log, preview).messages != r.messages {
        StaysBroken(r.messages, Read(log, preview).messages[|r.messages|]);
      }
    }
  }

  /**
   * Where results come from tools only, a complete history is paired exactly when its log is quiet: when no
   * message and no response ever arrives while calls are pending.
   */
  lemma PairedIffQuiet(log: seq<Event>, preview: Option<Preview>)
    requires ResultsFromTools(log) && Project(log, preview).Ok?
    ensures Paired(Project(log, preview).value) <==> Quiet(log)
  {
    if Quiet(log) {
      ProjectionIsPaired(log, preview);
    } else {
      NoiseBreaks(log, preview);
    }
  }

  // ---------------------------------------------------------------- quiet logs after recovery

  lemma {:induction false} StaysQuiet(log: seq<Event>, facts: seq<Event>)
    requires Quiet(log) && forall e :: e in facts ==> MessageOf(e).None?
    ensures Quiet(log + facts)
    decreases |facts|
  {
    if facts == [] {
      assert log + facts == log;
    } else {
      var n := |facts| - 1;
      StaysQuiet(log, facts[..n]);
      assert (log + facts)[..|log + facts| - 1] == log + facts[..n];
      assert facts[n] in facts;
    }
  }

  lemma {:induction false} AbandonsSayNothing(order: seq<string>, names: map<string, string>, content: Output)
    requires forall id :: id in order ==> id in names
    ensures forall e :: e in AbandonFacts(order, names, content) ==> MessageOf(e).None?
  {
    if order != [] {
      AbandonsSayNothing(order[..|order| - 1], names, content);
    }
  }

  /** A quiet history that was cut off while calls were open is paired once recovery has closed it. */
  lemma RecoveredHistoryIsPaired(log: seq<Event>, sorted: seq<string>, content: Output, preview: Option<Preview>)
    requires Quiet(log) && CallsFromModel(log)
    ensures ValidOpen(Recover(log))
    ensures var r := Project(log + RecoveryFacts(Recover(log), sorted, content), preview);
            r.Ok? && Paired(r.value)
  {
    RecoveryClosesHistory(log, sorted, content, preview);
    var o := Recover(log);
    AbandonsSayNothing(o.order, o.names, content);
    StaysQuiet(log, RecoveryFacts(o, sorted, content));
    ProjectionIsPaired(log + RecoveryFacts(o, sorted, content), preview);
  }

  /** A message that comes while a call is open breaks the pairing: its result lands further down. */
  lemma NoisyLogIsUnpaired(id: string, name: string, input: Arguments, words: string, content: Output)
    ensures var log := [
              Event(false, Response([ToolUse(id, name, input)])),
              Event(false, Spoken(false, Some(Message(User, Text(words))))),
              AbandonFact(id, name, content)];
            Project(log, None).Ok? && !Paired(Project(log, None).value)
  {
    var block := ToolUse(id, name, input);
    var a := Event(false, Response([block]));
    var b := Event(false, Spoken(false, Some(Message(User, Text(words)))));
    var c := AbandonFact(id, name, content);
    ReadAppend([], a, None);
    ReadAppend([a], b, None);
    ReadAppend([a, b], c, None);
    assert [] + [a] == [a] && [a] + [b] == [a, b] && [a, b] + [c] == [a, b, c];
    assert ToolIds([block]) == {id} by {
      assert block in [block];
    }
    var messages := Project([a, b, c], None).value;
    assert !PairedAt(messages, 0);
  }
}
