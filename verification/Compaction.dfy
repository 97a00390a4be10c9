/** Fitting a request into its budget: plan elision and folding of older tool results. */
module Compaction {
  import opened Common
  import opened Conversation
  import opened ToolPairing

  // ---------------------------------------------------------------- what compaction keeps

  /** Calls keep their id and name, results their call and error flag; the rest stays as it is. */
  predicate SameBlock(a: Block, b: Block) {
    match a
    case ToolUse(id, name, _) => b.ToolUse? && b.id == id && b.name == name
    case ToolResult(callId, _, isError) => b.ToolResult? && b.callId == callId && b.isError == isError
    case OtherBlock(_) => a == b
  }

  ghost predicate SameBlocks(a: seq<Block>, b: seq<Block>) {
    |a| == |b| && forall i :: 0 <= i < |a| ==> SameBlock(a[i], b[i])
  }

  ghost predicate SameMessage(a: Message, b: Message) {
    && a.role == b.role
    && (a.content.Text? ==> b == a)
    && (a.content.Blocks? ==> b.content.Blocks? && SameBlocks(a.content.blocks, b.content.blocks))
  }

  ghost predicate SameShape(a: seq<Message>, b: seq<Message>) {
    |a| == |b| && forall i :: 0 <= i < |a| ==> SameMessage(a[i], b[i])
  }

  lemma SameCallIds(a: Message, b: Message)
    requires SameMessage(a, b)
    ensures CallIds(a) == CallIds(b)
  {
    if a.role == Assistant && a.content.Blocks? {
      var xs, ys := a.content.blocks, b.content.blocks;
      forall id | id in ToolIds(xs) ensures id in ToolIds(ys) {
        var i :| 0 <= i < |xs| && xs[i].ToolUse? && xs[i].id == id;
        assert SameBlock(xs[i], ys[i]) && ys[i] in ys;
      }
      forall id | id in ToolIds(ys) ensures id in ToolIds(xs) {
        var i :| 0 <= i < |ys| && ys[i].ToolUse? && ys[i].id == id;
        assert SameBlock(xs[i], ys[i]) && xs[i] in xs;
      }
    }
  }

  lemma SameAnswers(a: Message, b: Message, ids: set<string>)
    requires SameMessage(a, b) && Answers(a, ids)
    ensures Answers(b, ids)
  {
    var xs, ys := a.content.blocks, b.content.blocks;
    forall i | 0 <= i < |ys| ensures ys[i].ToolResult? && ys[i].callId == xs[i].callId {
      assert SameBlock(xs[i], ys[i]) && xs[i] in xs;
    }
    forall id | id in ids ensures exists i :: 0 <= i < |ys| && ys[i].callId == id {
      var i :| 0 <= i < |xs| && xs[i].callId == id;
      assert ys[i].callId == id;
    }
  }

  /** Messages of the same shape are paired alike. */
  lemma ShapeKeepsPairing(a: seq<Message>, b: seq<Message>)
    requires SameShape(a, b) && Paired(a)
    ensures Paired(b)
  {
    forall i | 0 <= i < |b| ensures PairedAt(b, i) {
      assert PairedAt(a, i) && SameMessage(a[i], b[i]);
      SameCallIds(a[i], b[i]);
      if CallIds(a[i]) != {} {
        assert SameMessage(a[i + 1], b[i + 1]);
        SameAnswers(a[i + 1], b[i + 1], CallIds(a[i]));
      }
    }
  }

  // ---------------------------------------------------------------- plan elision

  const NO_TODOS := Plan([], "")

  predicate Elidable(b: Block) {
    b.ToolUse? && b.name == "todo_write" && b.input.Plan? && b.input.todos != []
  }

  function ElideBlock(b: Block): Block {
    if Elidable(b) then b.(input := NO_TODOS) else b
  }

  function ElideMessage(m: Message): Message {
    if m.role == Assistant && m.content.Blocks? then
      var blocks := m.content.blocks;
      Message(m.role, Blocks(seq(|blocks|, i requires 0 <= i < |blocks| => ElideBlock(blocks[i]))))
    else m
  }

  function Elide(messages: seq<Message>): seq<Message> {
    seq(|messages|, i requires 0 <= i < |messages| => ElideMessage(messages[i]))
  }

  /** Elided plan updates, and the characters that leaves out, with arguments measured by `length`. */
  function CutFrom(blocks: seq<Block>, length: Arguments -> nat): (nat, nat) {
    if blocks == [] then (0, 0)
    else
      var (updates, omitted), b := CutFrom(blocks[..|blocks| - 1], length), blocks[|blocks| - 1];
      if Elidable(b) then (updates + 1, omitted + Max(0, length(b.input) - length(NO_TODOS)))
      else (updates, omitted)
  }

  function Cut(messages: seq<Message>, length: Arguments -> nat): (nat, nat) {
    if messages == [] then (0, 0)
    else
      var (updates, omitted), m := Cut(messages[..|messages| - 1], length), messages[|messages| - 1];
      if m.role == Assistant && m.content.Blocks? then
        var (more, chars) := CutFrom(m.content.blocks, length);
        (updates + more, omitted + chars)
      else (updates, omitted)
  }

  method ElideBlocks(blocks: seq<Block>, length: Arguments -> nat)
    returns (elided: seq<Block>, updates: nat, omitted: nat)
    ensures |elided| == |blocks| && forall i :: 0 <= i < |blocks| ==> elided[i] == ElideBlock(blocks[i])
    ensures (updates, omitted) == CutFrom(blocks, length)
    ensures updates == 0 ==> elided == blocks
  {
    elided, updates, omitted := blocks, 0, 0;
    for i := 0 to |blocks|
      invariant |elided| == |blocks|
      invariant forall j :: 0 <= j < i ==> elided[j] == ElideBlock(blocks[j])
      invariant forall j :: i <= j < |blocks| ==> elided[j] == blocks[j]
      invariant (updates, omitted) == CutFrom(blocks[..i], length)
      invariant updates == 0 ==> elided == blocks
    {
      assert blocks[..i + 1][..i] == blocks[..i];
      if !blocks[i].ToolUse? || blocks[i].name != "todo_write" {
        continue;
      }
      var arguments := blocks[i].input;
      if !arguments.Plan? || arguments.todos == [] {
        continue;
      }
      omitted := omitted + Max(0, length(arguments) - length(NO_TODOS));
      elided := elided[i := blocks[i].(input := NO_TODOS)];
      updates := updates + 1;
    }
    assert blocks[..|blocks|] == blocks;
  }

  /** Remove repeated plan arguments; without any, the messages are returned as they came. */
  method ElideTaskPlanUpdates(messages: seq<Message>, length: Arguments -> nat)
    returns (working: seq<Message>, info: Option<(nat, nat)>)
    ensures working == Elide(messages)
    ensures info == if Cut(messages, length).0 == 0 then None else Some(Cut(messages, length))
    ensures info.None? ==> working == messages
  {
    working := messages;
    var updates, omitted := 0, 0;
    for i := 0 to |messages|
      invariant |working| == |messages|
      invariant forall j :: 0 <= j < i ==> working[j] == ElideMessage(messages[j])
      invariant forall j :: i <= j < |messages| ==> working[j] == messages[j]
      invariant (updates, omitted) == Cut(messages[..i], length)
      invariant updates == 0 ==> working == messages
    {
      assert messages[..i + 1][..i] == messages[..i];
      var m := messages[i];
      if m.role != Assistant || !m.content.Blocks? {
        continue;
      }
      var blocks, more, chars := ElideBlocks(m.content.blocks, length);
      assert Blocks(blocks) == ElideMessage(m).content;
      if more > 0 {
        working := working[i := Message(m.role, Blocks(blocks))];
      }
      updates, omitted := updates + more, omitted + chars;
    }
    assert messages[..|messages|] == messages;
    info := if updates == 0 then None else Some((updates, omitted));
  }

  /** Eliding keeps every message, role, block and id, and with them the pairing. */
  lemma ElideKeepsPairing(messages: seq<Message>)
    ensures SameShape(messages, Elide(messages))
    ensures Paired(messages) ==> Paired(Elide(messages))
  {
    forall i | 0 <= i < |messages| ensures SameMessage(messages[i], Elide(messages)[i]) {
    }
    if Paired(messages) {
      ShapeKeepsPairing(messages, Elide(messages));
    }
  }

  /** A call that writes a plan which still lists something to do. */
  predicate WritesPlan(b: Block) {
    b.ToolUse? && b.name == "todo_write" && b.input.Plan? && b.input.todos != []
  }

  /** Exactly the plan updates of the assistant change, to an empty plan, and eliding again changes nothing. */
  lemma ElideOnlyPlans(messages: seq<Message>)
    ensures forall i :: 0 <= i < |messages| && messages[i].content.Blocks? ==>
              var xs, ys := messages[i].content.blocks, Elide(messages)[i].content.blocks;
              forall p :: 0 <= p < |xs| ==>
                if messages[i].role == Assistant && WritesPlan(xs[p])
                then ys[p] == ToolUse(xs[p].id, "todo_write", Plan([], "")) else ys[p] == xs[p]
    ensures Elide(Elide(messages)) == Elide(messages)
  {
    var once := Elide(messages);
    forall i | 0 <= i < |messages| ensures ElideMessage(once[i]) == once[i] {
      if messages[i].role == Assistant && messages[i].content.Blocks? {
        assert ElideMessage(once[i]).content.blocks == once[i].content.blocks;
      }
    }
  }

  /** The blocks that differ, and by how many characters their arguments got shorter. */
  function ShorterBy(before: seq<Block>, after: seq<Block>, length: Arguments -> nat): (nat, nat)
    requires |before| == |after|
  {
    if before == [] then (0, 0)
    else
      var n := |before| - 1;
      var (changed, removed) := ShorterBy(before[..n], after[..n], length);
      if before[n] != after[n] && before[n].ToolUse? && after[n].ToolUse? then
        (changed + 1, removed + Max(0, length(before[n].input) - length(after[n].input)))
      else (changed, removed)
  }

  function AllShorterBy(before: seq<Message>, after: seq<Message>, length: Arguments -> nat): (nat, nat)
    requires |before| == |after|
    requires forall i :: 0 <= i < |before| ==> SameShapeOf(before[i], after[i])
  {
    if before == [] then (0, 0)
    else
      var n := |before| - 1;
      var (changed, removed) := AllShorterBy(before[..n], after[..n], length);
      assert SameShapeOf(before[n], after[n]);
      if before[n].content.Blocks? then
        var (more, chars) := ShorterBy(before[n].content.blocks, after[n].content.blocks, length);
        (changed + more, removed + chars)
      else (changed, removed)
  }

  predicate SameShapeOf(a: Message, b: Message) {
    (a.content.Blocks? <==> b.content.Blocks?)
    && (a.content.Blocks? ==> |a.content.blocks| == |b.content.blocks|)
  }

  lemma {:induction false} BlocksShorter(blocks: seq<Block>, elided: seq<Block>, length: Arguments -> nat)
    requires |elided| == |blocks| && forall i :: 0 <= i < |blocks| ==> elided[i] == ElideBlock(blocks[i])
    ensures CutFrom(blocks, length) == ShorterBy(blocks, elided, length)
  {
    if blocks != [] {
      BlocksShorter(blocks[..|blocks| - 1], elided[..|blocks| - 1], length);
    }
  }

  lemma {:induction false} SameBlocksShorter(blocks: seq<Block>, length: Arguments -> nat)
    ensures ShorterBy(blocks, blocks, length) == (0, 0)
  {
    if blocks != [] {
      SameBlocksShorter(blocks[..|blocks| - 1], length);
    }
  }

  /** The reported count and characters are those that eliding takes away, and no plan is left in a call. */
  lemma {:induction false} ElisionReport(messages: seq<Message>, length: Arguments -> nat)
    ensures forall i :: 0 <= i < |messages| ==> SameShapeOf(messages[i], Elide(messages)[i])
    ensures Cut(messages, length) == AllShorterBy(messages, Elide(messages), length)
    ensures forall i :: 0 <= i < |messages| && messages[i].role == Assistant && messages[i].content.Blocks? ==>
              forall b :: b in Elide(messages)[i].content.blocks ==>
                b.ToolUse? && b.name == "todo_write" && b.input.Plan? ==> b.input.todos == []
  {
    if messages != [] {
      var n := |messages| - 1;
      var m, e := messages[n], ElideMessage(messages[n]);
      ElisionReport(messages[..n], length);
      assert Elide(messages)[..n] == Elide(messages[..n]);
      if m.content.Blocks? {
        if m.role == Assistant {
          BlocksShorter(m.content.blocks, e.content.blocks, length);
        } else {
          SameBlocksShorter(m.content.blocks, length);
        }
      }
    }
  }

  // ---------------------------------------------------------------- folding

  const KEEP_RECENT_TOOL_RESULTS := 3

  function Placeholder(name: string, omitted: nat): string {
    "[" + name + " output folded to fit the context budget: " + Decimal(omitted) + " characters omitted]"
  }

  function NameOf(names: map<string, string>, callId: string): string {
    if callId in names then names[callId] else "tool"
  }

  function Folded(b: Block, names: map<string, string>): string
    requires b.ToolResult? && b.content.Plain?
  {
    Placeholder(NameOf(names, b.callId), |b.content.text|)
  }

  /** A text result that its placeholder would shorten. */
  predicate Foldable(b: Block, names: map<string, string>) {
    b.ToolResult? && b.content.Plain? && |Folded(b, names)| < |b.content.text|
  }

  function FoldBlock(b: Block, names: map<string, string>): Block {
    if Foldable(b, names) then b.(content := Plain(Folded(b, names))) else b
  }

  /** The messages that carry tool results, in order. */
  function Groups(messages: seq<Message>, n: nat): seq<nat>
    requires n <= |messages|
  {
    if n == 0 then []
    else Groups(messages, n - 1) + if HasResults(messages[n - 1]) then [n - 1] else []
  }

  function OlderGroups(messages: seq<Message>): seq<nat> {
    var groups := Groups(messages, |messages|);
    groups[..Max(0, |groups| - KEEP_RECENT_TOOL_RESULTS)]
  }

  /** A block, by the message it is in and its place there. */
  datatype Spot = Spot(message: nat, block: nat)

  function SpotsIn(blocks: seq<Block>, names: map<string, string>, message: nat, n: nat): seq<Spot>
    requires n <= |blocks|
  {
    if n == 0 then []
    else
      SpotsIn(blocks, names, message, n - 1)
      + if Foldable(blocks[n - 1], names) then [Spot(message, n - 1)] else []
  }

  predicate AreGroups(messages: seq<Message>, groups: seq<nat>) {
    forall i :: 0 <= i < |groups| ==> groups[i] < |messages| && messages[groups[i]].content.Blocks?
  }

  /** Foldable blocks of the given groups, in document order. */
  function Spots(messages: seq<Message>, groups: seq<nat>, names: map<string, string>): seq<Spot>
    requires AreGroups(messages, groups)
  {
    if groups == [] then []
    else
      var g := groups[|groups| - 1];
      Spots(messages, groups[..|groups| - 1], names)
      + SpotsIn(messages[g].content.blocks, names, g, |messages[g].content.blocks|)
  }

  function FoldIn(m: Message, i: nat, spots: seq<Spot>, names: map<string, string>): Message {
    if m.content.Blocks? then
      var xs := m.content.blocks;
      m.(content := Blocks(seq(|xs|, p requires 0 <= p < |xs| =>
        if Spot(i, p) in spots then FoldBlock(xs[p], names) else xs[p])))
    else m
  }

  /** The messages with exactly the blocks at `spots` folded. */
  function FoldAt(messages: seq<Message>, spots: seq<Spot>, names: map<string, string>): seq<Message> {
    seq(|messages|, i requires 0 <= i < |messages| => FoldIn(messages[i], i, spots, names))
  }

  predicate IsSpot(messages: seq<Message>, names: map<string, string>, s: Spot) {
    && s.message < |messages| && messages[s.message].content.Blocks?
    && s.block < |messages[s.message].content.blocks|
    && Foldable(messages[s.message].content.blocks[s.block], names)
  }

  function BlockAt(messages: seq<Message>, names: map<string, string>, s: Spot): Block
    requires IsSpot(messages, names, s)
  {
    messages[s.message].content.blocks[s.block]
  }

  /** Characters saved by folding a block. */
  function Saving(b: Block, names: map<string, string>): nat {
    if Foldable(b, names) then |b.content.text| - |Folded(b, names)| else 0
  }

  function Savings(messages: seq<Message>, spots: seq<Spot>, names: map<string, string>): nat
    requires forall s :: s in spots ==> IsSpot(messages, names, s)
  {
    if spots == [] then 0
    else
      Savings(messages, spots[..|spots| - 1], names)
      + Saving(BlockAt(messages, names, spots[|spots| - 1]), names)
  }

  function CallsAt(messages: seq<Message>, spots: seq<Spot>, names: map<string, string>): seq<string>
    requires forall s :: s in spots ==> IsSpot(messages, names, s)
  {
    if spots == [] then []
    else
      CallsAt(messages, spots[..|spots| - 1], names) + [BlockAt(messages, names, spots[|spots| - 1]).callId]
  }

  // ---------------------------------------------------------------- where folding looks

  ghost predicate Before(a: Spot, b: Spot) {
    a.message < b.message || (a.message == b.message && a.block < b.block)
  }

  ghost predicate InOrder(spots: seq<Spot>) {
    forall i, j :: 0 <= i < j < |spots| ==> Before(spots[i], spots[j])
  }

  lemma {:induction false} GroupsExact(messages: seq<Message>, n: nat)
    requires n <= |messages|
    ensures forall g: nat :: g in Groups(messages, n) <==> g < n && HasResults(messages[g])
    ensures forall i, j :: 0 <= i < j < |Groups(messages, n)| ==> Groups(messages, n)[i] < Groups(messages, n)[j]
  {
    if n > 0 {
      GroupsExact(messages, n - 1);
      var before := Groups(messages, n - 1);
      assert forall i :: 0 <= i < |before| ==> before[i] in before;
    }
  }

  lemma OrderJoins(a: seq<Spot>, b: seq<Spot>)
    requires InOrder(a) && InOrder(b)
    requires forall x, y :: x in a && y in b ==> Before(x, y)
    ensures InOrder(a + b)
  {
    var all := a + b;
    forall i, j | 0 <= i < j < |all| ensures Before(all[i], all[j]) {
      if i < |a| <= j {
        assert all[i] in a && all[j] in b;
      }
    }
  }

  lemma {:induction false} SpotsInExact(blocks: seq<Block>, names: map<string, string>, g: nat, n: nat)
    requires n <= |blocks|
    ensures forall s :: s in SpotsIn(blocks, names, g, n) <==>
              s.message == g && s.block < n && Foldable(blocks[s.block], names)
    ensures InOrder(SpotsIn(blocks, names, g, n))
  {
    hide Foldable, InOrder;
    if n == 0 {
      NoSpots();
    } else {
      SpotsInExact(blocks, names, g, n - 1);
      OneSpot(Spot(g, n - 1));
      if Foldable(blocks[n - 1], names) {
        OrderJoins(SpotsIn(blocks, names, g, n - 1), [Spot(g, n - 1)]);
      } else {
        assert SpotsIn(blocks, names, g, n) == SpotsIn(blocks, names, g, n - 1);
      }
    }
  }

  lemma NoSpots()
    ensures InOrder([])
  {
  }

  lemma OneSpot(s: Spot)
    ensures InOrder([s])
  {
  }

  /** The spots are all foldable blocks of the groups, in document order. */
  lemma {:induction false} SpotsExact(messages: seq<Message>, groups: seq<nat>, names: map<string, string>)
    requires AreGroups(messages, groups)
    requires forall i, j :: 0 <= i < j < |groups| ==> groups[i] < groups[j]
    ensures forall s :: s in Spots(messages, groups, names) <==> s.message in groups && IsSpot(messages, names, s)
    ensures InOrder(Spots(messages, groups, names))
  {
    if groups != [] {
      var n := |groups| - 1;
      var g := groups[n];
      var blocks := messages[g].content.blocks;
      SpotsExact(messages, groups[..n], names);
      SpotsInExact(blocks, names, g, |blocks|);
      assert groups == groups[..n] + [g];
      OrderJoins(Spots(messages, groups[..n], names), SpotsIn(blocks, names, g, |blocks|));
    }
  }

  lemma OlderGroupsExact(messages: seq<Message>)
    ensures AreGroups(messages, OlderGroups(messages))
    ensures var older := OlderGroups(messages);
            && (forall i :: 0 <= i < |older| ==> HasResults(messages[older[i]]))
            && (forall i, j :: 0 <= i < j < |older| ==> older[i] < older[j])
  {
    GroupsExact(messages, |messages|);
    var older := OlderGroups(messages);
    forall i | 0 <= i < |older| ensures older[i] < |messages| && HasResults(messages[older[i]]) {
      assert older[i] in Groups(messages, |messages|);
    }
  }

  /** Everything that may be folded: the foldable blocks outside the last three groups. */
  function FoldableSpots(messages: seq<Message>, names: map<string, string>): (spots: seq<Spot>)
    ensures forall s :: s in spots ==> IsSpot(messages, names, s)
  {
    OlderGroupsExact(messages);
    SpotsExact(messages, OlderGroups(messages), names);
    Spots(messages, OlderGroups(messages), names)
  }

  // ---------------------------------------------------------------- the folding loop

  /** The list so far: exactly the blocks at `done` are folded, and the report says so. */
  ghost predicate Written(
    messages: seq<Message>, names: map<string, string>, done: seq<Spot>,
    working: seq<Message>, folded: seq<string>, omitted: nat)
  {
    && (forall s :: s in done ==> IsSpot(messages, names, s))
    && working == FoldAt(messages, done, names)
    && folded == CallsAt(messages, done, names)
    && omitted == Savings(messages, done, names)
  }

  /** No fold among `done` but perhaps the last has brought the request within its budget. */
  ghost predicate TooBig(
    messages: seq<Message>, names: map<string, string>, budget: int, size: seq<Message> -> nat,
    spots: seq<Spot>, n: int)
  {
    forall j :: 1 <= j <= n && j <= |spots| ==> size(FoldAt(messages, spots[..j], names)) > budget
  }

  lemma FoldOneMore(messages: seq<Message>, names: map<string, string>, done: seq<Spot>, s: Spot)
    requires IsSpot(messages, names, s) && s !in done
    ensures var before := FoldAt(messages, done, names);
            && before[s.message].content.Blocks?
            && |before[s.message].content.blocks| == |messages[s.message].content.blocks|
            && before[s.message].content.blocks[s.block] == BlockAt(messages, names, s)
            && FoldAt(messages, done + [s], names)
               == before[s.message := before[s.message].(content := Blocks(
                    before[s.message].content.blocks[s.block := FoldBlock(BlockAt(messages, names, s), names)]))]
  {
    var before, after := FoldAt(messages, done, names), FoldAt(messages, done + [s], names);
    var xs := before[s.message].content.blocks;
    forall i | 0 <= i < |messages| && i != s.message ensures after[i] == before[i] {
      if messages[i].content.Blocks? {
        assert after[i].content.blocks == before[i].content.blocks;
      }
    }
    assert after[s.message].content.blocks
        == xs[s.block := FoldBlock(BlockAt(messages, names, s), names)];
  }

  lemma ReportOneMore(messages: seq<Message>, names: map<string, string>, done: seq<Spot>, s: Spot)
    requires forall x :: x in done + [s] ==> IsSpot(messages, names, x)
    ensures CallsAt(messages, done + [s], names)
         == CallsAt(messages, done, names) + [BlockAt(messages, names, s).callId]
    ensures Savings(messages, done + [s], names)
         == Savings(messages, done, names) + Saving(BlockAt(messages, names, s), names)
  {
    assert (done + [s])[..|done|] == done;
  }

  lemma TooBigOneMore(
    messages: seq<Message>, names: map<string, string>, budget: int, size: seq<Message> -> nat,
    done: seq<Spot>, s: Spot)
    requires TooBig(messages, names, budget, size, done, |done|)
    ensures TooBig(messages, names, budget, size, done + [s], |done|)
    ensures size(FoldAt(messages, done + [s], names)) > budget ==>
              TooBig(messages, names, budget, size, done + [s], |done| + 1)
  {
    var all := done + [s];
    forall j | 1 <= j <= |done| ensures size(FoldAt(messages, all[..j], names)) > budget {
      assert all[..j] == done[..j];
    }
    assert all[..|all|] == all;
  }

  /** Folding one more block keeps the list and the report in step. */
  lemma WrittenOneMore(
    messages: seq<Message>, names: map<string, string>, done: seq<Spot>, s: Spot,
    working: seq<Message>, folded: seq<string>, omitted: nat)
    requires Written(messages, names, done, working, folded, omitted)
    requires IsSpot(messages, names, s) && s !in done
    ensures working[s.message].content.Blocks? && s.block < |working[s.message].content.blocks|
    ensures var b := BlockAt(messages, names, s);
            var m := Message(messages[s.message].role,
                             Blocks(working[s.message].content.blocks[s.block := FoldBlock(b, names)]));
            Written(messages, names, done + [s], working[s.message := m],
                    folded + [b.callId], omitted + Saving(b, names))
  {
    FoldOneMore(messages, names, done, s);
    ReportOneMore(messages, names, done, s);
  }

  lemma NextSpot(messages: seq<Message>, done: seq<Spot>, names: map<string, string>, g: nat, p: nat)
    requires g < |messages| && messages[g].content.Blocks? && p < |messages[g].content.blocks|
    requires forall s :: s in done ==> s.message != g
    ensures var blocks := messages[g].content.blocks;
            var all := done + SpotsIn(blocks, names, g, p);
            && Spot(g, p) !in all
            && done + SpotsIn(blocks, names, g, p + 1)
               == if IsSpot(messages, names, Spot(g, p)) then all + [Spot(g, p)] else all
  {
    hide Foldable;
    var blocks := messages[g].content.blocks;
    SpotsInExact(blocks, names, g, p);
    Associate(done, SpotsIn(blocks, names, g, p), [Spot(g, p)]);
  }

  /** A list in step with its report that either has just come to fit or is still too big. */
  ghost predicate Standing(
    messages: seq<Message>, names: map<string, string>, budget: int, size: seq<Message> -> nat,
    all: seq<Spot>, working: seq<Message>, folded: seq<string>, omitted: nat, fits: bool)
  {
    && Written(messages, names, all, working, folded, omitted)
    && (fits ==> size(working) <= budget)
    && TooBig(messages, names, budget, size, all, if fits then |all| - 1 else |all|)
  }

  /** Fold one block, unless its placeholder would not be shorter, and measure the request. */
  method FoldOne(
    messages: seq<Message>, s: Spot, names: map<string, string>, budget: int, size: seq<Message> -> nat,
    working: seq<Message>, folded: seq<string>, omitted: nat, ghost all: seq<Spot>)
    returns (working': seq<Message>, folded': seq<string>, omitted': nat, fits: bool)
    requires s.message < |messages| && messages[s.message].content.Blocks?
    requires s.block < |messages[s.message].content.blocks| && s !in all
    requires Standing(messages, names, budget, size, all, working, folded, omitted, false)
    ensures Standing(messages, names, budget, size,
                     if IsSpot(messages, names, s) then all + [s] else all, working', folded', omitted', fits)
    ensures fits ==> IsSpot(messages, names, s)
  {
    working', folded', omitted', fits := working, folded, omitted, false;
    var block := messages[s.message].content.blocks[s.block];
    if !block.ToolResult? || !block.content.Plain? {
      return;
    }
    var text := block.content.text;
    var placeholder := Placeholder(NameOf(names, block.callId), |text|);
    if |placeholder| >= |text| {
      return;
    }
    WrittenOneMore(messages, names, all, s, working', folded', omitted');
    TooBigOneMore(messages, names, budget, size, all, s);
    var blocks := working'[s.message].content.blocks[s.block := block.(content := Plain(placeholder))];
    working' := working'[s.message := Message(messages[s.message].role, Blocks(blocks))];
    folded' := folded' + [block.callId];
    omitted' := omitted' + (|text| - |placeholder|);
    fits := size(working') <= budget;
  }

  /** The blocks of one group, folded one after another until the request fits. */
  method FoldGroup(
    messages: seq<Message>, g: nat, names: map<string, string>, budget: int, size: seq<Message> -> nat,
    working: seq<Message>, folded: seq<string>, omitted: nat, ghost done: seq<Spot>)
    returns (working': seq<Message>, folded': seq<string>, omitted': nat, fits: bool, ghost n: nat)
    requires g < |messages| && messages[g].content.Blocks? && forall s :: s in done ==> s.message != g
    requires Standing(messages, names, budget, size, done, working, folded, omitted, false)
    ensures n <= |messages[g].content.blocks| && (!fits ==> n == |messages[g].content.blocks|)
    ensures var all := done + SpotsIn(messages[g].content.blocks, names, g, n);
            && Standing(messages, names, budget, size, all, working', folded', omitted', fits)
            && (fits ==> all != [])
  {
    working', folded', omitted', fits, n := working, folded, omitted, false, 0;
    var original := messages[g].content.blocks;
    ghost var all := done;
    assert done + SpotsIn(original, names, g, 0) == done;
    hide Standing, SpotsIn, IsSpot;
    for p := 0 to |original|
      invariant n == p && all == done + SpotsIn(original, names, g, p)
      invariant Standing(messages, names, budget, size, all, working', folded', omitted', false)
    {
      NextSpot(messages, done, names, g, p);
      n := p + 1;
      working', folded', omitted', fits :=
        FoldOne(messages, Spot(g, p), names, budget, size, working', folded', omitted', all);
      all := done + SpotsIn(original, names, g, n);
      if fits {
        return;
      }
    }
  }

  lemma {:induction false} SpotsInPrefix(blocks: seq<Block>, names: map<string, string>, g: nat, m: nat, n: nat)
    requires m <= n <= |blocks|
    ensures SpotsIn(blocks, names, g, m) <= SpotsIn(blocks, names, g, n)
    decreases n
  {
    if m < n {
      SpotsInPrefix(blocks, names, g, m, n - 1);
    }
  }

  /** The spots up to block `n` of group number `i` begin the list of all spots. */
  lemma {:induction false} SpotsPrefix(
    messages: seq<Message>, groups: seq<nat>, names: map<string, string>, i: nat, n: nat)
    requires AreGroups(messages, groups)
    requires i < |groups|
    requires n <= |messages[groups[i]].content.blocks|
    ensures var all := Spots(messages, groups[..i], names)
                       + SpotsIn(messages[groups[i]].content.blocks, names, groups[i], n);
            && all <= Spots(messages, groups, names)
            && (n == |messages[groups[i]].content.blocks| ==> all == Spots(messages, groups[..i + 1], names))
    decreases |groups|
  {
    var last := |groups| - 1;
    assert groups[..i + 1][..i] == groups[..i];
    if i == last {
      SpotsInPrefix(messages[groups[i]].content.blocks, names, groups[i], n, |messages[groups[i]].content.blocks|);
    } else {
      assert groups[..last][..i] == groups[..i];
      SpotsPrefix(messages, groups[..last], names, i, n);
    }
  }

  lemma FoldNone(messages: seq<Message>, names: map<string, string>)
    ensures FoldAt(messages, [], names) == messages
  {
    forall i | 0 <= i < |messages| ensures FoldIn(messages[i], i, [], names) == messages[i] {
      if messages[i].content.Blocks? {
        assert FoldIn(messages[i], i, [], names).content.blocks == messages[i].content.blocks;
      }
    }
  }

  lemma SpotsOfEarlierGroups(messages: seq<Message>, groups: seq<nat>, names: map<string, string>, i: nat)
    requires AreGroups(messages, groups)
    requires forall j, k :: 0 <= j < k < |groups| ==> groups[j] < groups[k]
    requires i < |groups|
    ensures forall s :: s in Spots(messages, groups[..i], names) ==> s.message != groups[i]
  {
    SpotsExact(messages, groups[..i], names);
  }

  /** `k` folds, the fewest that make the request fit if any do, and the report of them. */
  ghost predicate FewestFolds(
    messages: seq<Message>, names: map<string, string>, budget: int, size: seq<Message> -> nat,
    k: nat, working: seq<Message>, info: Option<(seq<string>, nat)>)
  {
    var spots := FoldableSpots(messages, names);
    && k <= |spots| && (k == 0 <==> spots == [])
    && working == FoldAt(messages, spots[..k], names)
    && (k < |spots| ==> size(working) <= budget)
    && TooBig(messages, names, budget, size, spots, k - 1)
    && info == if k == 0 then None
               else Some((CallsAt(messages, spots[..k], names), Savings(messages, spots[..k], names)))
  }

  lemma FitsHere(
    messages: seq<Message>, names: map<string, string>, budget: int, size: seq<Message> -> nat,
    all: seq<Spot>, working: seq<Message>, folded: seq<string>, omitted: nat)
    requires all != [] && all <= FoldableSpots(messages, names)
    requires Standing(messages, names, budget, size, all, working, folded, omitted, true)
    ensures FewestFolds(messages, names, budget, size, |all|, working, Some((folded, omitted)))
  {
    var spots := FoldableSpots(messages, names);
    assert spots[..|all|] == all;
    forall j | 1 <= j < |all| ensures size(FoldAt(messages, spots[..j], names)) > budget {
      assert spots[..j] == all[..j];
    }
  }

  lemma AllFolded(
    messages: seq<Message>, names: map<string, string>, budget: int, size: seq<Message> -> nat,
    working: seq<Message>, folded: seq<string>, omitted: nat)
    requires Standing(messages, names, budget, size, FoldableSpots(messages, names), working, folded, omitted, false)
    ensures FewestFolds(messages, names, budget, size, |folded|, working,
                        if folded == [] then None else Some((folded, omitted)))
    ensures folded == [] ==> working == messages
  {
    var spots := FoldableSpots(messages, names);
    CallsCount(messages, spots, names);
    FoldNone(messages, names);
    assert spots[..|spots|] == spots;
  }

  /**
   * Fold the shortest run of spots, in document order, that makes the request fit, or all of them; `k` is
   * their number. With nothing to fold the messages are returned as they came.
   */
  method FoldToolResults(
    messages: seq<Message>, budget: int, names: map<string, string>, size: seq<Message> -> nat)
    returns (working: seq<Message>, info: Option<(seq<string>, nat)>, ghost k: nat)
    ensures FewestFolds(messages, names, budget, size, k, working, info)
    ensures info.None? ==> working == messages
  {
    OlderGroupsExact(messages);
    FoldNone(messages, names);
    var groups := OlderGroups(messages);
    var folded: seq<string> := [];
    var omitted: nat := 0;
    working := messages;
    assert Standing(messages, names, budget, size, Spots(messages, groups[..0], names),
                    working, folded, omitted, false);
    hide Standing, Spots, SpotsIn, FewestFolds;
    for i := 0 to |groups|
      invariant Standing(messages, names, budget, size, Spots(messages, groups[..i], names),
                         working, folded, omitted, false)
    {
      ghost var done, n := Spots(messages, groups[..i], names), 0;
      SpotsOfEarlierGroups(messages, groups, names, i);
      var fits;
      working, folded, omitted, fits, n :=
        FoldGroup(messages, groups[i], names, budget, size, working, folded, omitted, done);
      ghost var all := done + SpotsIn(messages[groups[i]].content.blocks, names, groups[i], n);
      SpotsPrefix(messages, groups, names, i, n);
      if fits {
        k := |all|;
        FitsHere(messages, names, budget, size, all, working, folded, omitted);
        info := Some((folded, omitted));
        return;
      }
    }
    assert groups[..|groups|] == groups;
    k := |folded|;
    AllFolded(messages, names, budget, size, working, folded, omitted);
    info := if folded == [] then None else Some((folded, omitted));
  }

  lemma {:induction false} CallsCount(messages: seq<Message>, spots: seq<Spot>, names: map<string, string>)
    requires forall s :: s in spots ==> IsSpot(messages, names, s)
    ensures |CallsAt(messages, spots, names)| == |spots|
  {
    if spots != [] {
      CallsCount(messages, spots[..|spots| - 1], names);
    }
  }

  // ---------------------------------------------------------------- what folding changes

  /** Folding keeps every message, role, block and id, and with them the pairing. */
  lemma FoldKeepsPairing(messages: seq<Message>, spots: seq<Spot>, names: map<string, string>)
    ensures SameShape(messages, FoldAt(messages, spots, names))
    ensures Paired(messages) ==> Paired(FoldAt(messages, spots, names))
  {
    forall i | 0 <= i < |messages| ensures SameMessage(messages[i], FoldAt(messages, spots, names)[i]) {
    }
    if Paired(messages) {
      ShapeKeepsPairing(messages, FoldAt(messages, spots, names));
    }
  }

  /** Only text results change, each to a strictly shorter text, and only at the spots. */
  lemma FoldOnlyShortens(messages: seq<Message>, spots: seq<Spot>, names: map<string, string>, s: Spot)
    requires s.message < |messages| && messages[s.message].content.Blocks?
    requires s.block < |messages[s.message].content.blocks|
    ensures var x, y := messages[s.message].content.blocks[s.block],
                        FoldAt(messages, spots, names)[s.message].content.blocks[s.block];
            && (s !in spots ==> y == x)
            && (y != x ==>
                  && x.ToolResult? && x.content.Plain? && y.ToolResult? && y.content.Plain?
                  && |y.content.text| < |x.content.text|)
  {
  }

  /** The newest three messages with results, and messages without any, stay verbatim. */
  lemma RecentResultsVerbatim(messages: seq<Message>, names: map<string, string>, k: nat, i: nat)
    requires k <= |FoldableSpots(messages, names)| && i < |messages|
    requires i !in OlderGroups(messages)
    ensures FoldAt(messages, FoldableSpots(messages, names)[..k], names)[i] == messages[i]
  {
    OlderGroupsExact(messages);
    SpotsExact(messages, OlderGroups(messages), names);
    var spots := FoldableSpots(messages, names);
    assert forall s :: s in spots[..k] ==> s in spots;
    if messages[i].content.Blocks? {
      assert FoldIn(messages[i], i, spots[..k], names).content.blocks == messages[i].content.blocks;
    }
  }

  /** Older are all messages with results but the newest three. */
  lemma NewestAreProtected(messages: seq<Message>, j: nat)
    requires j < |Groups(messages, |messages|)|
    ensures Groups(messages, |messages|)[j] in OlderGroups(messages) <==> j + 3 < |Groups(messages, |messages|)|
  {
    GroupsExact(messages, |messages|);
    var older := OlderGroups(messages);
    if j < |older| {
      assert older[j] == Groups(messages, |messages|)[j];
    }
  }

  /** Characters in the text results of a list of blocks, and of a list of messages. */
  function TextIn(blocks: seq<Block>): nat {
    if blocks == [] then 0
    else
      var b := blocks[|blocks| - 1];
      TextIn(blocks[..|blocks| - 1]) + if b.ToolResult? && b.content.Plain? then |b.content.text| else 0
  }

  function TextOf(messages: seq<Message>): nat {
    if messages == [] then 0
    else
      var m := messages[|messages| - 1];
      TextOf(messages[..|messages| - 1]) + if m.content.Blocks? then TextIn(m.content.blocks) else 0
  }

  lemma {:induction false} TextInUpdate(blocks: seq<Block>, p: nat, names: map<string, string>)
    requires p < |blocks|
    ensures TextIn(blocks[p := FoldBlock(blocks[p], names)]) + Saving(blocks[p], names) == TextIn(blocks)
  {
    var n := |blocks| - 1;
    var after := blocks[p := FoldBlock(blocks[p], names)];
    if p == n {
      assert after[..n] == blocks[..n];
    } else {
      TextInUpdate(blocks[..n], p, names);
      assert after[..n] == blocks[..n][p := FoldBlock(blocks[p], names)];
    }
  }

  lemma {:induction false} TextOfUpdate(messages: seq<Message>, i: nat, m: Message)
    requires i < |messages| && messages[i].content.Blocks? && m.content.Blocks?
    ensures TextOf(messages[i := m]) + TextIn(messages[i].content.blocks)
         == TextOf(messages) + TextIn(m.content.blocks)
  {
    var n := |messages| - 1;
    if i == n {
      assert messages[i := m][..n] == messages[..n];
    } else {
      TextOfUpdate(messages[..n], i, m);
      assert messages[i := m][..n] == messages[..n][i := m];
    }
  }

  /** The reported characters are exactly those that folding removed. */
  lemma {:induction false} OmittedIsExact(messages: seq<Message>, spots: seq<Spot>, names: map<string, string>)
    requires InOrder(spots) && forall s :: s in spots ==> IsSpot(messages, names, s)
    ensures TextOf(FoldAt(messages, spots, names)) + Savings(messages, spots, names) == TextOf(messages)
  {
    if spots == [] {
      FoldNone(messages, names);
    } else {
      var n := |spots| - 1;
      var s := spots[n];
      OmittedIsExact(messages, spots[..n], names);
      assert spots == spots[..n] + [s];
      FoldOneMore(messages, names, spots[..n], s);
      var before := FoldAt(messages, spots[..n], names);
      var blocks, b := before[s.message].content.blocks, BlockAt(messages, names, s);
      TextInUpdate(blocks, s.block, names);
      TextOfUpdate(before, s.message,
                   before[s.message].(content := Blocks(blocks[s.block := FoldBlock(b, names)])));
    }
  }

  /** What the loop reports: its own folds, in order, and the characters they removed. */
  lemma FoldReport(messages: seq<Message>, names: map<string, string>, k: nat)
    requires k <= |FoldableSpots(messages, names)|
    ensures var spots := FoldableSpots(messages, names)[..k];
            && InOrder(spots) && |CallsAt(messages, spots, names)| == k
            && TextOf(FoldAt(messages, spots, names)) + Savings(messages, spots, names) == TextOf(messages)
  {
    var spots := FoldableSpots(messages, names);
    OlderGroupsExact(messages);
    SpotsExact(messages, OlderGroups(messages), names);
    CallsCount(messages, spots[..k], names);
    OmittedIsExact(messages, spots[..k], names);
  }
}
