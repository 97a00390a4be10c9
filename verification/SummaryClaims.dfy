/** Claims for optional summaries: one writer decides from the log whether another request may be made. */
module SummaryClaims {
  import opened Common
  import Conversation
  import Compaction

  const MIN_INTERVAL := 60_000_000    // one minute, in microseconds
  const MIN_NEW_CHARACTERS := 4000

  datatype Owner = Owner(session: string, provider: string, model: string)

  datatype Claim = Claim(owner: Owner, coveredSeq: int, prefixHash: string, attemptedAt: int)

  /** The serialized length of the history of a session between two positions of its log. */
  type Measure = (string, int, int) -> nat

  function ClaimsOf(log: seq<Claim>, owner: Owner): seq<Claim> {
    if log == [] then []
    else
      var c := log[|log| - 1];
      ClaimsOf(log[..|log| - 1], owner) + if c.owner == owner then [c] else []
  }

  /** Why a claim is refused, if it is. */
  function Refusal(log: seq<Claim>, c: Claim, added: Measure): Option<string> {
    var claims := ClaimsOf(log, c.owner);
    if exists d :: d in claims && d.prefixHash == c.prefixHash then Some("same_completed_prefix")
    else if claims == [] then None
    else
      var previous := claims[|claims| - 1];
      if c.coveredSeq <= previous.coveredSeq then Some("newer_completed_prefix_already_claimed")
      else if c.attemptedAt - previous.attemptedAt < MIN_INTERVAL then Some("summary_cooldown")
      else if added(c.owner.session, previous.coveredSeq, c.coveredSeq) < MIN_NEW_CHARACTERS then
        Some("insufficient_completed_content")
      else None
  }

  function Exec(log: seq<Claim>, c: Claim, added: Measure): seq<Claim> {
    if Refusal(log, c, added).None? then log + [c] else log
  }

  function Run(attempts: seq<Claim>, added: Measure): seq<Claim> {
    if attempts == [] then []
    else Exec(Run(attempts[..|attempts| - 1], added), attempts[|attempts| - 1], added)
  }

  // ---------------------------------------------------------------- what every log keeps

  predicate Follows(a: Claim, b: Claim, added: Measure) {
    && a.coveredSeq < b.coveredSeq
    && b.attemptedAt - a.attemptedAt >= MIN_INTERVAL
    && added(b.owner.session, a.coveredSeq, b.coveredSeq) >= MIN_NEW_CHARACTERS
  }

  /** Each claim covers more than the one before, a minute later at least, with enough new characters. */
  ghost predicate Spaced(claims: seq<Claim>, added: Measure) {
    && (forall i :: 0 < i < |claims| ==> Follows(claims[i - 1], claims[i], added))
    && (forall i, j :: 0 <= i < j < |claims| ==> claims[i].prefixHash != claims[j].prefixHash)
  }

  /**
   * A claim is made if and only if its owner has not claimed the same prefix, and it is the first or comes a minute
   * after the previous one, covers more, and adds 4,000 characters.
   */
  lemma ClaimedIff(log: seq<Claim>, c: Claim, added: Measure)
    ensures var claims := ClaimsOf(log, c.owner);
            Exec(log, c, added) == log + [c] <==>
              && (forall d :: d in claims ==> d.prefixHash != c.prefixHash)
              && (claims != [] ==>
                    var previous := claims[|claims| - 1];
                    && c.coveredSeq > previous.coveredSeq && c.attemptedAt >= previous.attemptedAt + 60_000_000
                    && added(c.owner.session, previous.coveredSeq, c.coveredSeq) >= 4_000)
  {
    assert log + [c] != log by {
      assert |log + [c]| != |log|;
    }
  }

  lemma {:induction false} OwnClaims(log: seq<Claim>, owner: Owner)
    ensures forall c :: c in ClaimsOf(log, owner) ==> c in log && c.owner == owner
  {
    if log != [] {
      OwnClaims(log[..|log| - 1], owner);
    }
  }

  lemma SpacedAppend(claims: seq<Claim>, c: Claim, added: Measure)
    requires Spaced(claims, added) && (claims != [] ==> Follows(claims[|claims| - 1], c, added))
    requires forall d :: d in claims ==> d.prefixHash != c.prefixHash
    ensures Spaced(claims + [c], added)
  {
  }

  lemma ExecKeepsSpaced(log: seq<Claim>, c: Claim, added: Measure, owner: Owner)
    requires Spaced(ClaimsOf(log, owner), added)
    ensures Spaced(ClaimsOf(Exec(log, c, added), owner), added)
  {
    if Refusal(log, c, added).None? {
      assert (log + [c])[..|log|] == log;
      if c.owner == owner {
        SpacedAppend(ClaimsOf(log, owner), c, added);
      }
    }
  }

  /** In every log the claims of one session, provider and model are spaced. */
  lemma {:induction false} ClaimsAreSpaced(attempts: seq<Claim>, added: Measure, owner: Owner)
    ensures Spaced(ClaimsOf(Run(attempts, added), owner), added)
  {
    if attempts != [] {
      var n := |attempts| - 1;
      ClaimsAreSpaced(attempts[..n], added, owner);
      ExecKeepsSpaced(Run(attempts[..n], added), attempts[n], added, owner);
    }
  }

  // ---------------------------------------------------------------- how many claims there can be

  /** The new characters of all claims but the first: the slices between them do not overlap. */
  function AddedInAll(claims: seq<Claim>, added: Measure): nat {
    if |claims| <= 1 then 0
    else
      var n := |claims| - 1;
      AddedInAll(claims[..n], added)
      + added(claims[n].owner.session, claims[n - 1].coveredSeq, claims[n].coveredSeq)
  }

  lemma SpacedPrefix(claims: seq<Claim>, added: Measure)
    requires Spaced(claims, added) && claims != []
    ensures Spaced(claims[..|claims| - 1], added)
  {
  }

  lemma {:induction false} SpacedBounds(claims: seq<Claim>, added: Measure, owner: Owner)
    requires Spaced(claims, added) && claims != [] && forall c :: c in claims ==> c.owner == owner
    ensures MIN_NEW_CHARACTERS * (|claims| - 1) <= AddedInAll(claims, added)
    ensures MIN_INTERVAL * (|claims| - 1) <= claims[|claims| - 1].attemptedAt - claims[0].attemptedAt
    ensures forall i :: 0 <= i < |claims| ==> claims[i].coveredSeq <= claims[|claims| - 1].coveredSeq
  {
    var n := |claims| - 1;
    if n > 0 {
      SpacedPrefix(claims, added);
      SpacedBounds(claims[..n], added, owner);
      assert Follows(claims[n - 1], claims[n], added);
    }
  }

  /** The length of a stretch is at least that of two adjoining parts of it. */
  predicate Adds(added: Measure, session: string, a: int, b: int, c: int) {
    added(session, a, b) + added(session, b, c) <= added(session, a, c)
  }

  /** Where the lengths of the claims' slices add up, all slices together are no longer than the whole stretch. */
  lemma {:induction false} SlicesAddUp(claims: seq<Claim>, added: Measure, owner: Owner)
    requires Spaced(claims, added) && claims != []
    requires forall c :: c in claims ==> c.owner == owner
    requires forall i :: 0 < i < |claims| ==>
               Adds(added, owner.session, claims[0].coveredSeq, claims[i - 1].coveredSeq, claims[i].coveredSeq)
    ensures claims[0].coveredSeq <= claims[|claims| - 1].coveredSeq
    ensures AddedInAll(claims, added)
         <= added(owner.session, claims[0].coveredSeq, claims[|claims| - 1].coveredSeq)
  {
    var n := |claims| - 1;
    if n > 0 {
      SpacedPrefix(claims, added);
      SlicesAddUp(claims[..n], added, owner);
      assert claims[n] in claims && Follows(claims[n - 1], claims[n], added);
      assert Adds(added, owner.session, claims[0].coveredSeq, claims[n - 1].coveredSeq, claims[n].coveredSeq);
    }
  }

  /**
   * However many requests are attempted, one owner's claims are bounded twice: by the characters added since
   * its first claim, and by the time since then.
   */
  lemma ClaimsAreBounded(attempts: seq<Claim>, added: Measure, owner: Owner)
    requires ClaimsOf(Run(attempts, added), owner) != []
    ensures var claims := ClaimsOf(Run(attempts, added), owner);
            var n := |claims|;
            && n <= 1 + AddedInAll(claims, added) / 4_000
            && 60_000_000 * (n - 1) <= claims[n - 1].attemptedAt - claims[0].attemptedAt
  {
    var claims := ClaimsOf(Run(attempts, added), owner);
    ClaimsAreSpaced(attempts, added, owner);
    OwnClaims(Run(attempts, added), owner);
    SpacedBounds(claims, added, owner);
  }

  // ---------------------------------------------------------------- the serialized history as the measure

  /** The lengths of the parts of a serialized message: its text, each of its blocks, and the rest. */
  datatype Sizes = Sizes(text: string -> nat, block: Conversation.Block -> nat, frame: Conversation.Role -> nat)

  /** The length of list items with a separator of two characters between them. */
  function Joined(sizes: seq<nat>): nat {
    if sizes == [] then 0
    else Joined(sizes[..|sizes| - 1]) + (if |sizes| > 1 then 2 else 0) + sizes[|sizes| - 1]
  }

  function BlockSizes(blocks: seq<Conversation.Block>, z: Sizes): seq<nat> {
    seq<nat>(|blocks|, i requires 0 <= i < |blocks| => z.block(blocks[i]))
  }

  function MessageSize(m: Conversation.Message, z: Sizes): nat {
    z.frame(m.role)
    + match m.content
      case Text(text) => z.text(text)
      case Blocks(blocks) => 2 + Joined(BlockSizes(blocks, z))
  }

  function MessageSizes(messages: seq<Conversation.Message>, z: Sizes): seq<nat> {
    seq<nat>(|messages|, i requires 0 <= i < |messages| => MessageSize(messages[i], z))
  }

  /** How a summary reads a session: previewed tool results, elided plans, serialized without its brackets. */
  datatype Reader = Reader(preview: Conversation.Preview, sizes: Sizes)

  function ReadMessages(log: seq<Conversation.Event>, how: Reader): seq<Conversation.Message> {
    Conversation.Read(log, Some(how.preview)).messages
  }

  function HistoryLength(log: seq<Conversation.Event>, how: Reader): nat {
    Joined(MessageSizes(Compaction.Elide(ReadMessages(log, how)), how.sizes))
  }

  predicate Projects(log: seq<Conversation.Event>, how: Reader) {
    Conversation.Project(log, Some(how.preview)).Ok?
  }

  lemma {:induction false} JoinedConcat(a: seq<nat>, b: seq<nat>)
    ensures Joined(a + b) == Joined(a) + (if a != [] && b != [] then 2 else 0) + Joined(b)
    decreases |b|
  {
    if b == [] {
      assert a + b == a;
    } else {
      var n := |b| - 1;
      JoinedConcat(a, b[..n]);
      assert (a + b)[..|a| + n] == a + b[..n];
    }
  }

  lemma {:induction false} JoinedMonotone(a: seq<nat>, b: seq<nat>)
    requires |a| == |b| && forall i :: 0 <= i < |a| ==> a[i] <= b[i]
    ensures Joined(a) <= Joined(b)
  {
    if a != [] {
      JoinedMonotone(a[..|a| - 1], b[..|b| - 1]);
    }
  }

  ghost predicate EndsWith<T>(long: seq<T>, short: seq<T>) {
    |short| <= |long| && long[|long| - |short|..] == short
  }

  /** The same message, or tool results after some that had been left over. */
  ghost predicate Extends(long: Conversation.Message, short: Conversation.Message) {
    || long == short
    || (long.role == short.role == Conversation.User && long.content.Blocks? && short.content.Blocks?
        && EndsWith(long.content.blocks, short.content.blocks))
  }

  /** A reading that goes on after `before` as `alone` does from the start, but for results left over. */
  ghost predicate Continues(
    r: Conversation.Reading, before: Conversation.Reading, alone: Conversation.Reading)
  {
    && r.pending == alone.pending && EndsWith(r.results, alone.results)
    && |r.messages| == |before.messages| + |alone.messages|
    && r.messages[..|before.messages|] == before.messages
    && forall i :: 0 <= i < |alone.messages| ==> Extends(r.messages[|before.messages| + i], alone.messages[i])
  }

  lemma EndsWithAppend<T>(long: seq<T>, short: seq<T>, x: T)
    requires EndsWith(long, short)
    ensures EndsWith(long + [x], short + [x])
  {
  }

  lemma StepContinues(
    r: Conversation.Reading, before: Conversation.Reading, alone: Conversation.Reading, e: Conversation.Event,
    preview: Option<Conversation.Preview>)
    requires Continues(r, before, alone)
    ensures Continues(Conversation.Step(r, e, preview), before, Conversation.Step(alone, e, preview))
  {
    if Conversation.MessageOf(e).None? && !e.partial && e.fact.ToolEnded? {
      EndsWithAppend(r.results, alone.results, Conversation.ResultOf(e, preview));
    }
  }

  /** After a log that leaves nothing open, reading goes on as if from the start. */
  lemma {:induction false} ReadContinues(
    x: seq<Conversation.Event>, y: seq<Conversation.Event>, preview: Option<Conversation.Preview>)
    requires Conversation.Read(x, preview).pending == {}
    ensures Continues(
              Conversation.Read(x + y, preview), Conversation.Read(x, preview), Conversation.Read(y, preview))
    decreases |y|
  {
    if y == [] {
      assert x + y == x;
    } else {
      var n := |y| - 1;
      ReadContinues(x, y[..n], preview);
      assert (x + y)[..|x| + n] == x + y[..n];
      StepContinues(
        Conversation.Read(x + y[..n], preview), Conversation.Read(x, preview), Conversation.Read(y[..n], preview),
        y[n], preview);
    }
  }

  lemma ExtendsIsLonger(long: Conversation.Message, short: Conversation.Message, z: Sizes)
    requires Extends(long, short)
    ensures MessageSize(Compaction.ElideMessage(short), z) <= MessageSize(Compaction.ElideMessage(long), z)
  {
    if long != short {
      var xs, ys := long.content.blocks, short.content.blocks;
      var n := |xs| - |ys|;
      assert BlockSizes(xs, z) == BlockSizes(xs[..n], z) + BlockSizes(ys, z);
      JoinedConcat(BlockSizes(xs[..n], z), BlockSizes(ys, z));
    }
  }

  lemma ContinuesIsLonger(
    r: Conversation.Reading, before: Conversation.Reading, alone: Conversation.Reading, z: Sizes)
    requires Continues(r, before, alone)
    ensures Joined(MessageSizes(Compaction.Elide(before.messages), z))
            + Joined(MessageSizes(Compaction.Elide(alone.messages), z))
         <= Joined(MessageSizes(Compaction.Elide(r.messages), z))
  {
    var n, tail := |before.messages|, r.messages[|before.messages|..];
    var a, b, c := MessageSizes(Compaction.Elide(before.messages), z),
                   MessageSizes(Compaction.Elide(tail), z),
                   MessageSizes(Compaction.Elide(alone.messages), z);
    forall i | 0 <= i < |c| ensures c[i] <= b[i] {
      assert tail[i] == r.messages[n + i];
      ExtendsIsLonger(r.messages[n + i], alone.messages[i], z);
    }
    JoinedMonotone(c, b);
    assert MessageSizes(Compaction.Elide(r.messages), z) == a + b;
    JoinedConcat(a, b);
  }

  /** Two adjoining parts of a log, the first of them closed, are together no longer than the whole. */
  lemma HistoryAdds(x: seq<Conversation.Event>, y: seq<Conversation.Event>, how: Reader)
    requires Projects(x, how)
    ensures HistoryLength(x, how) + HistoryLength(y, how) <= HistoryLength(x + y, how)
    ensures Projects(x + y, how) <==> Projects(y, how)
  {
    var preview := Some(how.preview);
    ReadContinues(x, y, preview);
    ContinuesIsLonger(
      Conversation.Read(x + y, preview), Conversation.Read(x, preview), Conversation.Read(y, preview), how.sizes);
  }

  /** The measure of the program: the serialized history between two positions of a session's log. */
  function Measured(logs: string -> seq<Conversation.Event>, how: Reader): Measure {
    (session, a, b) =>
      if 0 <= a <= b <= |logs(session)| then HistoryLength(logs(session)[a..b], how) else 0
  }

  /** A claim covers a stretch from the start of its session's log that has been read without an error. */
  predicate Closes(c: Claim, logs: string -> seq<Conversation.Event>, how: Reader) {
    0 <= c.coveredSeq <= |logs(c.owner.session)| && Projects(logs(c.owner.session)[..c.coveredSeq], how)
  }

  /** From one closed position on, any stretch that ends at another one is read without an error, and adds up. */
  lemma StretchesAdd(log: seq<Conversation.Event>, how: Reader, a: nat, b: nat, c: nat)
    requires a <= b <= c <= |log| && Projects(log[..a], how) && Projects(log[..b], how) && Projects(log[..c], how)
    ensures Projects(log[b..c], how)
    ensures HistoryLength(log[a..b], how) + HistoryLength(log[b..c], how) <= HistoryLength(log[a..c], how)
  {
    assert log[..b] == log[..a] + log[a..b] && log[..c] == log[..b] + log[b..c];
    HistoryAdds(log[..a], log[a..b], how);
    HistoryAdds(log[..b], log[b..c], how);
    assert log[a..c] == log[a..b] + log[b..c];
    HistoryAdds(log[a..b], log[b..c], how);
  }

  lemma {:induction false} ClaimsWereAttempted(attempts: seq<Claim>, added: Measure, owner: Owner)
    ensures forall c :: c in ClaimsOf(Run(attempts, added), owner) ==> c in attempts && c.owner == owner
  {
    OwnClaims(Run(attempts, added), owner);
    if attempts != [] {
      var n := |attempts| - 1;
      ClaimsWereAttempted(attempts[..n], added, owner);
      var log := Run(attempts[..n], added);
      assert (log + [attempts[n]])[..|log|] == log;
    }
  }

  lemma ClosedClaimsAdd(
    claims: seq<Claim>, logs: string -> seq<Conversation.Event>, how: Reader, owner: Owner, i: nat)
    requires Spaced(claims, Measured(logs, how)) && 0 < i < |claims|
    requires forall c :: c in claims ==> c.owner == owner && Closes(c, logs, how)
    requires forall j :: 0 <= j <= i ==> claims[0].coveredSeq <= claims[j].coveredSeq
    ensures Adds(
              Measured(logs, how), owner.session, claims[0].coveredSeq, claims[i - 1].coveredSeq,
              claims[i].coveredSeq)
  {
    assert claims[0] in claims && claims[i - 1] in claims && claims[i] in claims;
    assert Follows(claims[i - 1], claims[i], Measured(logs, how));
    StretchesAdd(
      logs(owner.session), how, claims[0].coveredSeq, claims[i - 1].coveredSeq, claims[i].coveredSeq);
  }

  lemma {:induction false} CoveredGrows(claims: seq<Claim>, added: Measure, j: nat)
    requires Spaced(claims, added) && j < |claims|
    ensures claims[0].coveredSeq <= claims[j].coveredSeq
  {
    if j > 0 {
      CoveredGrows(claims, added, j - 1);
      assert Follows(claims[j - 1], claims[j], added);
    }
  }

  /**
   * With the program's own measure, whatever is attempted: 4,000 characters for each claim after the first are
   * no more than the serialized history between the first and the last position that one owner has claimed.
   */
  lemma HistoryBoundsClaims(
    attempts: seq<Claim>, logs: string -> seq<Conversation.Event>, how: Reader, owner: Owner)
    requires forall c :: c in attempts ==> Closes(c, logs, how)
    requires ClaimsOf(Run(attempts, Measured(logs, how)), owner) != []
    ensures var claims := ClaimsOf(Run(attempts, Measured(logs, how)), owner);
            var a, b := claims[0].coveredSeq, claims[|claims| - 1].coveredSeq;
            && 0 <= a <= b <= |logs(owner.session)|
            && 4_000 * (|claims| - 1) <= HistoryLength(logs(owner.session)[a..b], how)
  {
    var added := Measured(logs, how);
    var claims := ClaimsOf(Run(attempts, added), owner);
    ClaimsAreSpaced(attempts, added, owner);
    ClaimsWereAttempted(attempts, added, owner);
    forall i | 0 < i < |claims|
      ensures Adds(added, owner.session, claims[0].coveredSeq, claims[i - 1].coveredSeq, claims[i].coveredSeq)
    {
      forall j | 0 <= j <= i ensures claims[0].coveredSeq <= claims[j].coveredSeq {
        CoveredGrows(claims, added, j);
      }
      ClosedClaimsAdd(claims, logs, how, owner, i);
    }
    SlicesAddUp(claims, added, owner);
    SpacedBounds(claims, added, owner);
    assert claims[0] in claims && claims[|claims| - 1] in claims;
  }

  // ---------------------------------------------------------------- the operation

  /** The events between two positions; there are none unless both are in the log and in order. */
  function Slice(history: seq<Conversation.Event>, a: int, b: int): seq<Conversation.Event> {
    if 0 <= a <= b <= |history| then history[a..b] else []
  }

  /** What an attempt gives: a refusal, a claim, or the error of reading what has been added. */
  function Attempt(log: seq<Claim>, c: Claim, history: seq<Conversation.Event>, how: Reader): Result<Option<string>> {
    var claims := ClaimsOf(log, c.owner);
    if exists d :: d in claims && d.prefixHash == c.prefixHash then Ok(Some("same_completed_prefix"))
    else if claims == [] then Ok(None)
    else
      var previous := claims[|claims| - 1];
      if c.coveredSeq <= previous.coveredSeq then Ok(Some("newer_completed_prefix_already_claimed"))
      else if c.attemptedAt - previous.attemptedAt < MIN_INTERVAL then Ok(Some("summary_cooldown"))
      else
        var added := Slice(history, previous.coveredSeq, c.coveredSeq);
        var _ :- Conversation.Project(added, Some(how.preview));
        Ok(if HistoryLength(added, how) < MIN_NEW_CHARACTERS then Some("insufficient_completed_content") else None)
  }

  method JoinedLength(messages: seq<Conversation.Message>, z: Sizes) returns (length: nat)
    ensures length == Joined(MessageSizes(messages, z))
  {
    length := 0;
    for i := 0 to |messages|
      invariant length == Joined(MessageSizes(messages[..i], z))
    {
      assert MessageSizes(messages[..i + 1], z)[..i] == MessageSizes(messages[..i], z);
      length := length + (if i > 0 then 2 else 0) + MessageSize(messages[i], z);
    }
    assert messages[..|messages|] == messages;
  }

  /** Read a part of a session as a summary would and measure it. */
  method ReadLength(log: seq<Conversation.Event>, how: Reader) returns (length: Result<nat>)
    ensures length == match Conversation.Project(log, Some(how.preview))
                      case Ok(_) => Ok(HistoryLength(log, how))
                      case Err(e) => Err(e)
  {
    var messages := Conversation.ProjectMessages(log, Some(how.preview));
    if messages.Err? {
      return Err(messages.error);
    }
    var elided, _ := Compaction.ElideTaskPlanUpdates(messages.value, _ => 0);
    var n := JoinedLength(elided, how.sizes);
    length := Ok(n);
  }

  method ReadClaims(log: seq<Claim>, owner: Owner) returns (claims: seq<Claim>)
    ensures claims == ClaimsOf(log, owner)
  {
    claims := [];
    for i := 0 to |log|
      invariant claims == ClaimsOf(log[..i], owner)
    {
      assert log[..i + 1][..i] == log[..i];
      if log[i].owner == owner {
        claims := claims + [log[i]];
      }
    }
    assert log[..|log|] == log;
  }

  class SummaryLog {
    var log: seq<Claim>

    constructor ()
      ensures log == []
    {
      log := [];
    }

    /** Claim before the request is made; a refused claim leaves the log alone. */
    method ClaimSummary(c: Claim, history: seq<Conversation.Event>, how: Reader)
      returns (refusal: Result<Option<string>>)
      modifies this`log
      ensures refusal == Attempt(old(log), c, history, how)
      ensures log == if refusal == Ok(None) then old(log) + [c] else old(log)
    {
      hide ClaimsOf, HistoryLength;
      var claims := ReadClaims(log, c.owner);
      if exists d :: d in claims && d.prefixHash == c.prefixHash {
        return Ok(Some("same_completed_prefix"));
      }
      if claims != [] {
        var previous := claims[|claims| - 1];
        if c.coveredSeq <= previous.coveredSeq {
          return Ok(Some("newer_completed_prefix_already_claimed"));
        }
        if c.attemptedAt - previous.attemptedAt < MIN_INTERVAL {
          return Ok(Some("summary_cooldown"));
        }
        var added := ReadLength(Slice(history, previous.coveredSeq, c.coveredSeq), how);
        if added.Err? {
          return Err(added.error);
        }
        if added.value < MIN_NEW_CHARACTERS {
          return Ok(Some("insufficient_completed_content"));
        }
      }
      log := log + [c];
      refusal := Ok(None);
    }
  }

  /** What has been added since a closed position is always readable, so an attempt is what `Exec` makes of it. */
  lemma AttemptIsExec(log: seq<Claim>, c: Claim, logs: string -> seq<Conversation.Event>, how: Reader)
    requires Closes(c, logs, how) && forall d :: d in log ==> Closes(d, logs, how)
    ensures Attempt(log, c, logs(c.owner.session), how) == Ok(Refusal(log, c, Measured(logs, how)))
    ensures Exec(log, c, Measured(logs, how))
         == if Attempt(log, c, logs(c.owner.session), how) == Ok(None) then log + [c] else log
  {
    var claims, history := ClaimsOf(log, c.owner), logs(c.owner.session);
    OwnClaims(log, c.owner);
    if claims != [] {
      var previous := claims[|claims| - 1];
      assert previous in claims;
      if previous.coveredSeq < c.coveredSeq {
        StretchesAdd(history, how, previous.coveredSeq, previous.coveredSeq, c.coveredSeq);
      }
    }
  }
}
