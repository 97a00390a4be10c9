/** The message history read from the session log, and the facts that close an interrupted one. */
module Conversation {
  import opened Common

  // ---------------------------------------------------------------- messages and facts

  datatype Role = User | Assistant

  /** Arguments of a tool call: a plan with its todo entries, or anything else. */
  datatype Arguments = Plan(todos: seq<string>, others: string) | Arguments(text: string)

  datatype Output = Plain(text: string) | Structured(id: nat)

  datatype Block =
    | ToolUse(id: string, name: string, input: Arguments)
    | ToolResult(callId: string, content: Output, isError: bool)
    | OtherBlock(text: string)

  datatype Content = Text(text: string) | Blocks(blocks: seq<Block>)

  datatype Message = Message(role: Role, content: Content)

  datatype Outcome = Completed | Abandoned

  /** Facts of the session log; a response stores an assistant message made of blocks. */
  datatype Fact =
    | Spoken(imported: bool, message: Option<Message>)
    | Response(blocks: seq<Block>)
    | ToolEnded(outcome: Outcome, callId: string, name: string, content: Option<Output>, isError: Option<bool>)
    | ApprovalRequired(approval: string)
    | ApprovalResolved(approval: string)
    | OtherFact

  datatype Event = Event(partial: bool, fact: Fact)

  function ToolIds(blocks: seq<Block>): set<string> {
    set b | b in blocks && b.ToolUse? :: b.id
  }

  function CallIds(m: Message): set<string> {
    if m.role == Assistant && m.content.Blocks? then ToolIds(m.content.blocks) else {}
  }

  /** The message an event adds to the history, if it adds one. */
  function MessageOf(e: Event): Option<Message> {
    if e.partial then None
    else
      match e.fact
      case Spoken(_, message) => message
      case Response(blocks) => Some(Message(Assistant, Blocks(blocks)))
      case _ => None
  }

  // ---------------------------------------------------------------- the projection

  /** Messages so far, calls without a result yet, and the results gathered for them. */
  datatype Reading = Reading(messages: seq<Message>, pending: set<string>, results: seq<Block>)

  const BLANK := Reading([], {}, [])

  type Preview = Event -> Output

  /** The stored content, or what the caller's preview makes of a completed call. */
  function ResultOf(e: Event, preview: Option<Preview>): Block
    requires e.fact.ToolEnded?
  {
    ToolResult(
      e.fact.callId,
      if preview.Some? && e.fact.outcome == Completed then preview.value(e)
      else e.fact.content.GetOr(Plain("Tool abandoned after interruption")),
      e.fact.isError.GetOr(true))
  }

  function Say(r: Reading, m: Message): Reading {
    Reading(r.messages + [m],
            if m.role == Assistant && m.content.Blocks? then ToolIds(m.content.blocks) else r.pending,
            r.results)
  }

  /** Keep one more result; the last one that is missing sends them all as one user message. */
  function Answer(r: Reading, id: string, result: Block): Reading {
    if id !in r.pending then r
    else if r.pending == {id} then Reading(r.messages + [Message(User, Blocks(r.results + [result]))], {}, [])
    else Reading(r.messages, r.pending - {id}, r.results + [result])
  }

  function Step(r: Reading, e: Event, preview: Option<Preview>): Reading {
    if MessageOf(e).Some? then Say(r, MessageOf(e).value)
    else if !e.partial && e.fact.ToolEnded? then Answer(r, e.fact.callId, ResultOf(e, preview))
    else r
  }

  function Read(log: seq<Event>, preview: Option<Preview>): Reading {
    if log == [] then BLANK else Step(Read(log[..|log| - 1], preview), log[|log| - 1], preview)
  }

  function Project(log: seq<Event>, preview: Option<Preview>): Result<seq<Message>> {
    if Read(log, preview).pending != {} then
      Err("Incomplete tool history; Continue must resolve pending calls")
    else Ok(Read(log, preview).messages)
  }

  lemma ReadAppend(log: seq<Event>, e: Event, preview: Option<Preview>)
    ensures Read(log + [e], preview) == Step(Read(log, preview), e, preview)
  {
    assert (log + [e])[..|log|] == log;
  }

  /** The projection loop. */
  method ProjectMessages(log: seq<Event>, preview: Option<Preview>) returns (r: Result<seq<Message>>)
    ensures r == Project(log, preview)
  {
    var messages: seq<Message> := [];
    var pending: set<string> := {};
    var results: seq<Block> := [];
    for i := 0 to |log|
      invariant Read(log[..i], preview) == Reading(messages, pending, results)
    {
      assert log[..i + 1] == log[..i] + [log[i]];
      ReadAppend(log[..i], log[i], preview);
      if log[i].partial {
        continue;
      }
      match log[i].fact {
        case Spoken(_, message) =>
          if message.Some? {
            messages := messages + [message.value];
            if message.value.role == Assistant && message.value.content.Blocks? {
              pending := set b | b in message.value.content.blocks && b.ToolUse? :: b.id;
            }
          }
        case Response(blocks) =>
          messages := messages + [Message(Assistant, Blocks(blocks))];
          pending := set b | b in blocks && b.ToolUse? :: b.id;
        case ToolEnded(outcome, callId, _, content, isError) =>
          if callId in pending {
            var shown := if preview.Some? && outcome == Completed then preview.value(log[i])
                         else content.GetOr(Plain("Tool abandoned after interruption"));
            results := results + [ToolResult(callId, shown, isError.GetOr(true))];
            assert pending == {callId} <==> pending - {callId} == {};
            pending := pending - {callId};
            if pending == {} {
              messages := messages + [Message(User, Blocks(results))];
              results := [];
            }
          }
        case _ =>
      }
    }
    assert log[..|log|] == log;
    if pending != {} {
      return Err("Incomplete tool history; Continue must resolve pending calls");
    }
    r := Ok(messages);
  }

  // ---------------------------------------------------------------- where results come from

  /** The result is the tool's own: its call, its error flag, and its stored or previewed content. */
  ghost predicate Reports(e: Event, preview: Option<Preview>, b: Block) {
    && !e.partial && e.fact.ToolEnded? && b.ToolResult? && b.callId == e.fact.callId
    && b.isError == (e.fact.isError != Some(false))
    && b.content == if preview.Some? && e.fact.outcome == Completed then preview.value(e)
                    else if e.fact.content.Some? then e.fact.content.value
                    else Plain("Tool abandoned after interruption")
  }

  ghost predicate FromTool(log: seq<Event>, preview: Option<Preview>, b: Block) {
    exists e :: e in log && Reports(e, preview, b)
  }

  /** The event states the message: as it was spoken, or as the blocks of a response. */
  predicate Says(e: Event, m: Message) {
    && !e.partial
    && match e.fact
       case Spoken(_, message) => message == Some(m)
       case Response(blocks) => m.role == Assistant && m.content == Blocks(blocks)
       case _ => false
  }

  lemma {:induction false} MessagesStay(log: seq<Event>, i: nat, preview: Option<Preview>)
    requires i <= |log|
    ensures Read(log[..i], preview).messages <= Read(log, preview).messages
  {
    if i == |log| {
      assert log[..i] == log;
    } else {
      assert log[..|log| - 1][..i] == log[..i];
      MessagesStay(log[..|log| - 1], i, preview);
    }
  }

  /** A stated message comes right after all that was projected before it, and stays there. */
  lemma SaidInPlace(log: seq<Event>, i: nat, m: Message, preview: Option<Preview>)
    requires i < |log| && Says(log[i], m)
    ensures var place := |Read(log[..i], preview).messages|;
            place < |Read(log, preview).messages| && Read(log, preview).messages[place] == m
  {
    assert log[..i + 1] == log[..i] + [log[i]];
    ReadAppend(log[..i], log[i], preview);
    MessagesStay(log, i + 1, preview);
  }

  /** A message of the log itself, or one made of results of its tools. */
  ghost predicate FromLog(log: seq<Event>, preview: Option<Preview>, m: Message) {
    || (exists e :: e in log && Says(e, m))
    || (m.role == User && m.content.Blocks? && m.content.blocks != []
        && forall b :: b in m.content.blocks ==> FromTool(log, preview, b))
  }

  ghost predicate AllFromLog(log: seq<Event>, preview: Option<Preview>, r: Reading) {
    && (forall m :: m in r.messages ==> FromLog(log, preview, m))
    && forall b :: b in r.results ==> FromTool(log, preview, b)
  }

  lemma FromLonger(log: seq<Event>, e: Event, preview: Option<Preview>, r: Reading)
    requires AllFromLog(log, preview, r)
    ensures AllFromLog(log + [e], preview, r)
  {
    forall b | FromTool(log, preview, b) ensures FromTool(log + [e], preview, b) {
      var x :| x in log && Reports(x, preview, b);
      assert x in log + [e];
    }
    forall m | m in r.messages ensures FromLog(log + [e], preview, m) {
      assert FromLog(log, preview, m);
      if x :| x in log && Says(x, m) {
        assert x in log + [e];
      }
    }
  }

  lemma StepFromLog(log: seq<Event>, e: Event, preview: Option<Preview>, r: Reading)
    requires AllFromLog(log, preview, r) && e in log
    ensures AllFromLog(log, preview, Step(r, e, preview))
  {
    if MessageOf(e).None? && !e.partial && e.fact.ToolEnded? {
      var result := ResultOf(e, preview);
      assert Reports(e, preview, result);
      assert FromTool(log, preview, result);
      var all := r.results + [result];
      assert all[|r.results|] == result;
      assert forall b :: b in all ==> b in r.results || b == result;
    }
  }

  /** Every projected message is one of the log, or carries the results of its tools, each as its tool gave it. */
  lemma {:induction false} MessagesComeFromLog(log: seq<Event>, preview: Option<Preview>)
    ensures AllFromLog(log, preview, Read(log, preview))
  {
    if log != [] {
      var n := |log| - 1;
      MessagesComeFromLog(log[..n], preview);
      FromLonger(log[..n], log[n], preview, Read(log[..n], preview));
      assert log == log[..n] + [log[n]];
      StepFromLog(log, log[n], preview, Read(log[..n], preview));
    }
  }

  // ---------------------------------------------------------------- recovery

  /** Calls without an outcome, in the order a dictionary keeps them, and open approvals. */
  datatype Open = Open(order: seq<string>, names: map<string, string>, approvals: set<string>)

  const NOTHING_OPEN := Open([], map[], {})

  ghost predicate ValidOpen(o: Open) {
    Distinct(o.order) && forall id :: id in o.order <==> id in o.names
  }

  /** Assigning a key that is present keeps its place. */
  function Call(o: Open, id: string, name: string): Open {
    o.(order := if id in o.names then o.order else o.order + [id], names := o.names[id := name])
  }

  function CallAll(o: Open, blocks: seq<Block>): Open {
    if blocks == [] then o
    else
      var before, b := CallAll(o, blocks[..|blocks| - 1]), blocks[|blocks| - 1];
      if b.ToolUse? then Call(before, b.id, b.name) else before
  }

  function Without(order: seq<string>, id: string): seq<string> {
    if order == [] then []
    else
      Without(order[..|order| - 1], id)
      + if order[|order| - 1] == id then [] else [order[|order| - 1]]
  }

  function Close(o: Open, id: string): Open {
    o.(order := Without(o.order, id), names := o.names - {id})
  }

  function Track(o: Open, e: Event): Open {
    if e.partial then o
    else
      match e.fact
      case Response(blocks) => CallAll(o, blocks)
      case ToolEnded(_, id, _, _, _) => Close(o, id)
      case ApprovalRequired(a) => o.(approvals := o.approvals + {a})
      case ApprovalResolved(a) => o.(approvals := o.approvals - {a})
      case _ => o
  }

  function Recover(log: seq<Event>): Open {
    if log == [] then NOTHING_OPEN else Track(Recover(log[..|log| - 1]), log[|log| - 1])
  }

  lemma RecoverAppend(log: seq<Event>, e: Event)
    ensures Recover(log + [e]) == Track(Recover(log), e)
  {
    assert (log + [e])[..|log|] == log;
  }

  function AbandonFact(id: string, name: string, content: Output): Event {
    Event(false, ToolEnded(Abandoned, id, name, Some(content), Some(true)))
  }

  function AbandonFacts(order: seq<string>, names: map<string, string>, content: Output): seq<Event>
    requires forall id :: id in order ==> id in names
  {
    if order == [] then []
    else
      AbandonFacts(order[..|order| - 1], names, content)
      + [AbandonFact(order[|order| - 1], names[order[|order| - 1]], content)]
  }

  function ResolveFacts(approvals: seq<string>): seq<Event> {
    seq(|approvals|, i requires 0 <= i < |approvals| => Event(false, ApprovalResolved(approvals[i])))
  }

  /** The open approvals in some order; the program sorts them. */
  ghost predicate Lists(sorted: seq<string>, approvals: set<string>) {
    forall a :: a in sorted <==> a in approvals
  }

  function RecoveryFacts(o: Open, sorted: seq<string>, content: Output): seq<Event>
    requires ValidOpen(o)
  {
    AbandonFacts(o.order, o.names, content) + ResolveFacts(sorted)
  }

  lemma {:induction false} WithoutMembers(order: seq<string>, id: string)
    requires Distinct(order)
    ensures Distinct(Without(order, id))
    ensures forall x :: x in Without(order, id) <==> x in order && x != id
  {
    if order != [] {
      var n := |order| - 1;
      WithoutMembers(order[..n], id);
      assert order == order[..n] + [order[n]];
      var kept := Without(order[..n], id);
      assert order[n] !in order[..n];
      assert forall i :: 0 <= i < |kept| ==> kept[i] in kept;
    }
  }

  lemma {:induction false} CallAllValid(o: Open, blocks: seq<Block>)
    requires ValidOpen(o)
    ensures ValidOpen(CallAll(o, blocks))
    ensures forall id :: id in CallAll(o, blocks).order <==> id in o.order || id in ToolIds(blocks)
  {
    if blocks != [] {
      var n := |blocks| - 1;
      CallAllValid(o, blocks[..n]);
      assert blocks == blocks[..n] + [blocks[n]];
      assert ToolIds(blocks) == ToolIds(blocks[..n]) + if blocks[n].ToolUse? then {blocks[n].id} else {};
    }
  }

  lemma TrackValid(o: Open, e: Event)
    requires ValidOpen(o)
    ensures ValidOpen(Track(o, e))
  {
    if !e.partial {
      match e.fact {
        case Response(blocks) => CallAllValid(o, blocks);
        case ToolEnded(_, id, _, _, _) => WithoutMembers(o.order, id);
        case _ =>
      }
    }
  }

  lemma {:induction false} RecoverValid(log: seq<Event>)
    ensures ValidOpen(Recover(log))
  {
    if log != [] {
      RecoverValid(log[..|log| - 1]);
      TrackValid(Recover(log[..|log| - 1]), log[|log| - 1]);
    }
  }

  predicate Names(b: Block, id: string) {
    b.ToolUse? && b.id == id
  }

  predicate Calls(e: Event, id: string) {
    !e.partial && e.fact.Response? && exists b :: b in e.fact.blocks && Names(b, id)
  }

  predicate EndsCall(e: Event, id: string) {
    !e.partial && e.fact.ToolEnded? && e.fact.callId == id
  }

  /** A response makes the call, and nothing ends it from there to the end of the log. */
  ghost predicate OpenSince(log: seq<Event>, id: string, i: int) {
    0 <= i < |log| && Calls(log[i], id) && forall j :: i < j < |log| ==> !EndsCall(log[j], id)
  }

  predicate Asks(e: Event, approval: string) {
    !e.partial && e.fact == ApprovalRequired(approval)
  }

  predicate Decides(e: Event, approval: string) {
    !e.partial && e.fact == ApprovalResolved(approval)
  }

  ghost predicate UndecidedSince(log: seq<Event>, approval: string, i: int) {
    0 <= i < |log| && Asks(log[i], approval) && forall j :: i < j < |log| ==> !Decides(log[j], approval)
  }

  /** Recovery finds a call exactly when no outcome follows its latest response. */
  lemma {:induction false} OpenCallIff(log: seq<Event>, id: string)
    ensures id in Recover(log).order <==> exists i :: OpenSince(log, id, i)
  {
    if log != [] {
      var n := |log| - 1;
      var e := log[n];
      OpenCallIff(log[..n], id);
      RecoverValid(log[..n]);
      if i :| OpenSince(log[..n], id, i) && !EndsCall(e, id) {
        assert OpenSince(log, id, i);
      }
      if i :| OpenSince(log, id, i) && i < n {
        assert OpenSince(log[..n], id, i) && !EndsCall(log[n], id);
      }
      assert Calls(e, id) ==> OpenSince(log, id, n);
      if !e.partial && e.fact.Response? {
        CallAllValid(Recover(log[..n]), e.fact.blocks);
      } else if !e.partial && e.fact.ToolEnded? {
        WithoutMembers(Recover(log[..n]).order, e.fact.callId);
      }
    }
  }

  lemma {:induction false} OpenApprovalIff(log: seq<Event>, approval: string)
    ensures approval in Recover(log).approvals <==> exists i :: UndecidedSince(log, approval, i)
  {
    if log != [] {
      var n := |log| - 1;
      var e := log[n];
      OpenApprovalIff(log[..n], approval);
      if i :| UndecidedSince(log[..n], approval, i) && !Decides(e, approval) {
        assert UndecidedSince(log, approval, i);
      }
      if i :| UndecidedSince(log, approval, i) && i < n {
        assert UndecidedSince(log[..n], approval, i) && !Decides(log[n], approval);
      }
      assert Asks(e, approval) ==> UndecidedSince(log, approval, n);
      if !e.partial && e.fact.Response? {
        CallAllKeepsApprovals(Recover(log[..n]), e.fact.blocks);
      }
    }
  }

  lemma {:induction false} CallAllKeepsApprovals(o: Open, blocks: seq<Block>)
    ensures CallAll(o, blocks).approvals == o.approvals
  {
    if blocks != [] {
      CallAllKeepsApprovals(o, blocks[..|blocks| - 1]);
    }
  }

  /** The recovery loop over the log; the caller sorts the approvals. */
  method ReadRecovery(log: seq<Event>) returns (o: Open)
    ensures o == Recover(log) && ValidOpen(o)
  {
    var order: seq<string> := [];
    var names: map<string, string> := map[];
    var approvals: set<string> := {};
    for i := 0 to |log|
      invariant Recover(log[..i]) == Open(order, names, approvals)
    {
      assert log[..i + 1] == log[..i] + [log[i]];
      RecoverAppend(log[..i], log[i]);
      if log[i].partial {
        continue;
      }
      match log[i].fact {
        case Response(blocks) =>
          ghost var start := Open(order, names, approvals);
          for j := 0 to |blocks|
            invariant Open(order, names, approvals) == CallAll(start, blocks[..j])
          {
            assert blocks[..j + 1][..j] == blocks[..j];
            if blocks[j].ToolUse? {
              order := if blocks[j].id in names then order else order + [blocks[j].id];
              names := names[blocks[j].id := blocks[j].name];
            }
          }
          assert blocks[..|blocks|] == blocks;
        case ToolEnded(_, id, _, _, _) =>
          order := Without(order, id);
          names := names - {id};
        case ApprovalRequired(a) => approvals := approvals + {a};
        case ApprovalResolved(a) => approvals := approvals - {a};
        case _ =>
      }
    }
    assert log[..|log|] == log;
    o := Open(order, names, approvals);
    RecoverValid(log);
  }

  // ---------------------------------------------------------------- recovery closes history

  /** Tool calls enter the history through model responses only. */
  ghost predicate CallsFromModel(log: seq<Event>) {
    forall e :: e in log && !e.partial && e.fact.Spoken? && e.fact.message.Some? ==>
      CallIds(e.fact.message.value) == {}
  }

  /** What the projection waits for, recovery has seen: also when ids are used again later. */
  lemma {:induction false} PendingIsOpen(log: seq<Event>, preview: Option<Preview>)
    requires CallsFromModel(log)
    ensures forall id :: id in Read(log, preview).pending ==> id in Recover(log).order
  {
    if log != [] {
      var before, e := log[..|log| - 1], log[|log| - 1];
      assert log == before + [e];
      PendingIsOpen(before, preview);
      RecoverValid(before);
      if !e.partial {
        match e.fact {
          case Response(blocks) => CallAllValid(Recover(before), blocks);
          case ToolEnded(_, id, _, _, _) => WithoutMembers(Recover(before).order, id);
          case Spoken(_, message) => assert e in log;
          case _ =>
        }
      }
    }
  }

  /** The results that abandoned calls add, in order. */
  function AbandonResults(order: seq<string>, pending: set<string>, content: Output): seq<Block> {
    if order == [] then []
    else
      AbandonResults(order[..|order| - 1], pending, content)
      + if order[|order| - 1] in pending then [ToolResult(order[|order| - 1], content, true)] else []
  }

  /** The reading after abandoning calls that cover part or all of what is pending. */
  function Abandon(r: Reading, order: seq<string>, content: Output): Reading {
    var rest := r.pending - (set id | id in order);
    var results := r.results + AbandonResults(order, r.pending, content);
    if r.pending == {} then r
    else if rest != {} then Reading(r.messages, rest, results)
    else Reading(r.messages + [Message(User, Blocks(results))], {}, [])
  }

  lemma RestStep(pending: set<string>, order: seq<string>)
    requires order != [] && Distinct(order)
    ensures var n := |order| - 1;
            var rest := pending - (set id | id in order[..n]);
            && (order[n] in rest <==> order[n] in pending)
            && pending - (set id | id in order) == rest - {order[n]}
            && (rest == {order[n]} <==> order[n] in rest && rest - {order[n]} == {})
  {
    var n := |order| - 1;
    assert order == order[..n] + [order[n]];
    var before, after := set id | id in order[..n], set id | id in order;
    assert after == before + {order[n]};
    assert order[n] !in before;
    var rest := pending - before;
    assert order[n] in rest ==> rest == (rest - {order[n]}) + {order[n]};
  }

  lemma AbandonStep(r: Reading, order: seq<string>, content: Output)
    requires order != [] && Distinct(order)
    ensures var n := |order| - 1;
            Abandon(r, order, content)
            == Answer(Abandon(r, order[..n], content), order[n], ToolResult(order[n], content, true))
  {
    var n := |order| - 1;
    RestStep(r.pending, order);
    var kept, result := AbandonResults(order[..n], r.pending, content), ToolResult(order[n], content, true);
    if order[n] in r.pending {
      assert r.results + (kept + [result]) == (r.results + kept) + [result];
    } else {
      assert AbandonResults(order, r.pending, content) == kept;
    }
  }

  /** Abandoning calls gives each pending one exactly one result and passes over the others. */
  lemma {:induction false} AbandonAll(
    log: seq<Event>, order: seq<string>, names: map<string, string>, content: Output, preview: Option<Preview>)
    requires Distinct(order) && forall id :: id in order ==> id in names
    ensures Read(log + AbandonFacts(order, names, content), preview)
         == Abandon(Read(log, preview), order, content)
  {
    if order == [] {
      assert log + AbandonFacts(order, names, content) == log;
      var pending := Read(log, preview).pending;
      assert pending - (set id | id in order) == pending;
    } else {
      var n := |order| - 1;
      var facts, last := AbandonFacts(order[..n], names, content), AbandonFact(order[n], names[order[n]], content);
      AbandonAll(log, order[..n], names, content, preview);
      Associate(log, facts, [last]);
      ReadAppend(log + facts, last, preview);
      AbandonStep(Read(log, preview), order, content);
    }
  }

  lemma {:induction false} ReadPastApprovals(log: seq<Event>, approvals: seq<string>, preview: Option<Preview>)
    ensures Read(log + ResolveFacts(approvals), preview) == Read(log, preview)
    decreases |approvals|
  {
    if approvals == [] {
      assert log + ResolveFacts(approvals) == log;
    } else {
      var n := |approvals| - 1;
      ReadPastApprovals(log, approvals[..n], preview);
      assert log + ResolveFacts(approvals)
          == (log + ResolveFacts(approvals[..n])) + [Event(false, ApprovalResolved(approvals[n]))];
      ReadAppend(log + ResolveFacts(approvals[..n]), Event(false, ApprovalResolved(approvals[n])), preview);
    }
  }

  lemma ReadRecovered(log: seq<Event>, sorted: seq<string>, content: Output, preview: Option<Preview>)
    requires ValidOpen(Recover(log))
    ensures Read(log + RecoveryFacts(Recover(log), sorted, content), preview)
         == Abandon(Read(log, preview), Recover(log).order, content)
  {
    var o := Recover(log);
    var facts := AbandonFacts(o.order, o.names, content);
    AbandonAll(log, o.order, o.names, content, preview);
    ReadPastApprovals(log + facts, sorted, preview);
    Associate(log, facts, ResolveFacts(sorted));
  }

  /** Recovery makes the projection succeed exactly when it has seen every call still pending. */
  lemma RecoverySucceedsIff(log: seq<Event>, sorted: seq<string>, content: Output, preview: Option<Preview>)
    requires ValidOpen(Recover(log))
    ensures Project(log + RecoveryFacts(Recover(log), sorted, content), preview).Ok?
       <==> forall id :: id in Read(log, preview).pending ==> id in Recover(log).order
  {
    ReadRecovered(log, sorted, content, preview);
    AbandonCloses(Read(log, preview), Recover(log).order, content);
  }

  lemma AbandonCloses(r: Reading, order: seq<string>, content: Output)
    ensures Abandon(r, order, content).pending == {} <==> forall id :: id in r.pending ==> id in order
    ensures Abandon(r, order, content).pending == {} ==>
              Abandon(r, order, content).messages
              == r.messages + ClosingMessages(r, order, content)
  {
    var rest := r.pending - (set id | id in order);
    if rest == {} {
      forall id | id in r.pending ensures id in order {
        assert id !in rest;
      }
    } else {
      var id :| id in rest;
    }
    if r.pending == {} {
      assert r.messages + ClosingMessages(r, order, content) == r.messages;
    }
  }

  /** One message with the kept results and one error result for each call still open. */
  function ClosingMessages(r: Reading, order: seq<string>, content: Output): seq<Message> {
    if r.pending == {} then []
    else [Message(User, Blocks(r.results + AbandonResults(order, r.pending, content)))]
  }

  /**
   * Recovery closes every history, however it was interrupted: the projection then succeeds, and its
   * messages are those of the log followed, when calls were open, by one message with their results.
   */
  lemma RecoveryClosesHistory(log: seq<Event>, sorted: seq<string>, content: Output, preview: Option<Preview>)
    requires CallsFromModel(log)
    ensures ValidOpen(Recover(log))
    ensures var r := Read(log, preview);
            Project(log + RecoveryFacts(Recover(log), sorted, content), preview)
            == Ok(r.messages + ClosingMessages(r, Recover(log).order, content))
  {
    RecoverValid(log);
    ReadRecovered(log, sorted, content, preview);
    PendingIsOpen(log, preview);
    AbandonCloses(Read(log, preview), Recover(log).order, content);
  }

  /** An imported assistant message with an open call is out of recovery's sight. */
  lemma ImportedCallStaysOpen(id: string, name: string, input: Arguments, content: Output, preview: Option<Preview>)
    ensures var log := [Event(false, Spoken(true, Some(Message(Assistant, Blocks([ToolUse(id, name, input)])))))];
            ValidOpen(Recover(log))
            && Project(log + RecoveryFacts(Recover(log), [], content), preview).Err?
  {
    var block := ToolUse(id, name, input);
    var e := Event(false, Spoken(true, Some(Message(Assistant, Blocks([block])))));
    RecoverAppend([], e);
    ReadAppend([], e, preview);
    assert [] + [e] == [e];
    assert block in [block];
    assert id in Read([e], preview).pending;
    RecoverySucceedsIff([e], [], content, preview);
  }

  function CloseEach(o: Open, ids: seq<string>): Open {
    if ids == [] then o else Close(CloseEach(o, ids[..|ids| - 1]), ids[|ids| - 1])
  }

  lemma {:induction false} AbandonsClose(log: seq<Event>, ids: seq<string>, names: map<string, string>, content: Output)
    requires forall id :: id in ids ==> id in names
    ensures Recover(log + AbandonFacts(ids, names, content)) == CloseEach(Recover(log), ids)
  {
    if ids == [] {
      assert log + AbandonFacts(ids, names, content) == log;
    } else {
      var n := |ids| - 1;
      var facts, last := AbandonFacts(ids[..n], names, content), AbandonFact(ids[n], names[ids[n]], content);
      AbandonsClose(log, ids[..n], names, content);
      Associate(log, facts, [last]);
      RecoverAppend(log + facts, last);
    }
  }

  lemma {:induction false} ClosedAreGone(o: Open, ids: seq<string>)
    requires ValidOpen(o)
    ensures ValidOpen(CloseEach(o, ids)) && CloseEach(o, ids).approvals == o.approvals
    ensures forall x :: x in CloseEach(o, ids).order ==> x in o.order && x !in ids
  {
    if ids != [] {
      var n := |ids| - 1;
      ClosedAreGone(o, ids[..n]);
      CloseOne(CloseEach(o, ids[..n]), ids[n]);
      assert ids == ids[..n] + [ids[n]];
    }
  }

  lemma CloseOne(o: Open, id: string)
    requires ValidOpen(o)
    ensures ValidOpen(Close(o, id)) && Close(o, id).approvals == o.approvals
    ensures forall x :: x in Close(o, id).order <==> x in o.order && x != id
  {
    WithoutMembers(o.order, id);
  }

  lemma {:induction false} ResolveAll(log: seq<Event>, approvals: seq<string>)
    ensures var o := Recover(log + ResolveFacts(approvals));
            && o.order == Recover(log).order && o.names == Recover(log).names
            && o.approvals == Recover(log).approvals - (set a | a in approvals)
    decreases |approvals|
  {
    if approvals == [] {
      assert log + ResolveFacts(approvals) == log;
      assert Recover(log).approvals - (set a | a in approvals) == Recover(log).approvals;
    } else {
      var n := |approvals| - 1;
      var last := Event(false, ApprovalResolved(approvals[n]));
      ResolveAll(log, approvals[..n]);
      assert log + ResolveFacts(approvals) == (log + ResolveFacts(approvals[..n])) + [last];
      RecoverAppend(log + ResolveFacts(approvals[..n]), last);
      assert approvals == approvals[..n] + [approvals[n]];
      assert (set a | a in approvals) == (set a | a in approvals[..n]) + {approvals[n]};
    }
  }

  /** Nothing is open after recovery, so a second recovery adds no facts. */
  lemma RecoveryIsFinal(log: seq<Event>, sorted: seq<string>, content: Output)
    requires Lists(sorted, Recover(log).approvals)
    ensures ValidOpen(Recover(log))
    ensures Recover(log + RecoveryFacts(Recover(log), sorted, content)) == NOTHING_OPEN
  {
    RecoverValid(log);
    var o := Recover(log);
    var facts := AbandonFacts(o.order, o.names, content);
    AbandonsClose(log, o.order, o.names, content);
    ClosedAreGone(o, o.order);
    ResolveAll(log + facts, sorted);
    Associate(log, facts, ResolveFacts(sorted));
    var after := Recover(log + RecoveryFacts(o, sorted, content));
    EmptyOrMember(after.order);
    assert after.names == map[];
    assert after.approvals == {};
  }
}
