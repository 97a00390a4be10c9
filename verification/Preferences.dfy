/** Saved preferences: records, suggestions and settings folded from the log, and the decisions over them. */
module Preferences {
  import opened Common

  datatype Scope = Global | Project

  datatype Origin = Manual | Explicit | Suggested

  /** The user messages a preference was read from. */
  datatype Source = Source(origin: Origin, session: Option<string>, events: seq<string>)

  datatype RecordStatus = Active | Paused | Revoked

  datatype SuggestionStatus = Pending | Accepted | Dismissed

  datatype Topic = Topic(scope: Scope, project: Option<string>, key: string)

  datatype Record = Record(
    id: string, revision: nat, topic: Topic, content: string, status: RecordStatus, source: Source)

  datatype Suggestion = Suggestion(
    id: string, revision: nat, topic: Topic, content: string, status: SuggestionStatus, source: Source)

  datatype Settings = Settings(enabled: bool, revision: nat)

  /** A digest of topic and content; digests are taken to be injective. */
  datatype Fingerprint = Fingerprint(topic: Topic, content: string)

  datatype Event =
    | RecordFact(record: Record)
    | SuggestionFact(suggestion: Suggestion)
    | SettingsFact(settings: Settings)
    | ObservedFact(event: string, session: string, fingerprint: Fingerprint)

  datatype State = State(records: map<string, Record>, suggestions: map<string, Suggestion>, settings: Settings)

  const FRESH := State(map[], map[], Settings(true, 0))

  function Apply(s: State, e: Event): State {
    match e
    case RecordFact(r) => s.(records := s.records[r.id := r])
    case SuggestionFact(g) => s.(suggestions := s.suggestions[g.id := g])
    case SettingsFact(x) => s.(settings := x)
    case ObservedFact(_, _, _) => s
  }

  function Fold(log: seq<Event>): State {
    if log == [] then FRESH else Apply(Fold(log[..|log| - 1]), log[|log| - 1])
  }

  lemma FoldAppend(log: seq<Event>, e: Event)
    ensures Fold(log + [e]) == Apply(Fold(log), e)
  {
    assert (log + [e])[..|log|] == log;
  }

  /** The folding loop. */
  method ReadState(log: seq<Event>) returns (s: State)
    ensures s == Fold(log)
  {
    var records: map<string, Record> := map[];
    var suggestions: map<string, Suggestion> := map[];
    var settings := Settings(true, 0);
    for i := 0 to |log|
      invariant Fold(log[..i]) == State(records, suggestions, settings)
    {
      assert log[..i + 1][..i] == log[..i];
      match log[i] {
        case RecordFact(r) => records := records[r.id := r];
        case SuggestionFact(g) => suggestions := suggestions[g.id := g];
        case SettingsFact(x) => settings := x;
        case ObservedFact(_, _, _) =>
      }
    }
    assert log[..|log|] == log;
    s := State(records, suggestions, settings);
  }

  // ---------------------------------------------------------------- checks

  /** Content rules, known projects and verified sources are answers from the rest of the program. */
  datatype Rules = Rules(
    check: (string, string) -> Result<string>, known: string -> bool, verified: Source -> bool)

  function ScopeProblem(rules: Rules, topic: Topic): Option<string> {
    match topic.scope
    case Global => if topic.project.Some? then Some("Global preferences cannot have a project_id") else None
    case Project =>
      if topic.project.None? || topic.project.value == "" then
        Some("Project scope requires an existing project_id")
      else if !rules.known(topic.project.value) then Some("Project not found")
      else None
  }

  function NewRecord(rules: Rules, id: string, topic: Topic, content: string, source: Source): Result<Record> {
    match ScopeProblem(rules, topic)
    case Some(e) => Err(e)
    case None =>
      var value :- rules.check(topic.key, content);
      Ok(Record(id, 1, topic, value, Active, source))
  }

  /** Another record that is not revoked has the topic. */
  predicate Conflicts(s: State, r: Record) {
    exists id :: id in s.records && id != r.id && s.records[id].status != Revoked && s.records[id].topic == r.topic
  }

  const CONFLICT := "Preference conflict: review the existing topic before replacing it"

  // ---------------------------------------------------------------- decisions

  function DecideCreate(s: State, rules: Rules, id: string, topic: Topic, content: string): Result<seq<Event>> {
    var r :- NewRecord(rules, id, topic, content, Source(Manual, None, []));
    if Conflicts(s, r) then Err(CONFLICT) else Ok([RecordFact(r)])
  }

  function DecideSettings(s: State, expected: nat, enabled: bool): Result<seq<Event>> {
    if s.settings.revision != expected then Err("Preference revision conflict")
    else Ok([SettingsFact(Settings(enabled, s.settings.revision + 1))])
  }

  /** Update or delete: compare the revision, then write the next one. */
  function DecideEdit(
    s: State, rules: Rules, target: string, expected: nat, content: Option<string>,
    status: Option<RecordStatus>, delete: bool): Result<seq<Event>>
  {
    if target !in s.records then Err("Preference not found")
    else
      var prior := s.records[target];
      if prior.revision != expected then Err("Preference revision conflict")
      else if prior.status == Revoked then Err("Revoked preference cannot be revived")
      else
        var next := prior.(revision := prior.revision + 1,
                           status := if delete then Revoked else status.GetOr(prior.status));
        if content.None? then Ok([RecordFact(next)])
        else
          var value :- rules.check(prior.topic.key, content.value);
          Ok([RecordFact(next.(content := value, source := Source(Manual, None, [])))])
  }

  function DecideResolve(
    s: State, rules: Rules, target: string, expected: nat, accept: bool, id: string): Result<seq<Event>>
  {
    if target !in s.suggestions then Err("Suggestion not found")
    else
      var prior := s.suggestions[target];
      if prior.revision != expected || prior.status != Pending then Err("Suggestion revision conflict")
      else
        var next := prior.(revision := prior.revision + 1, status := if accept then Accepted else Dismissed);
        if !accept then Ok([SuggestionFact(next)])
        else
          var saved :- AcceptedRecord(s, rules, prior, id);
          Ok([RecordFact(saved), SuggestionFact(next)])
  }

  /** The record that an accepted suggestion becomes. */
  function AcceptedRecord(s: State, rules: Rules, g: Suggestion, id: string): Result<Record> {
    if !rules.verified(g.source) then Err("Suggestion source verification failed")
    else
      var saved :- NewRecord(rules, id, g.topic, g.content, g.source);
      if Conflicts(s, saved) then Err(CONFLICT) else Ok(saved)
  }

  /** A user message that states a preference. */
  datatype Statement = Statement(event: string, session: string, isExplicit: bool, topic: Topic, content: string)

  function SourceOf(e: Event): seq<string> {
    match e
    case RecordFact(r) => r.source.events
    case SuggestionFact(g) => g.source.events
    case _ => []
  }

  predicate Seen(log: seq<Event>, event: string) {
    || (exists e :: e in log && e.ObservedFact? && e.event == event)
    || Bound(log, event)
  }

  /** The message is already the source of some record or suggestion, past or present. */
  predicate Bound(log: seq<Event>, event: string) {
    exists e :: e in log && event in SourceOf(e)
  }

  /** Observations of the same preference in the same session whose message is not bound yet. */
  function Eligible(log: seq<Event>, blocked: seq<Event>, session: string, f: Fingerprint): seq<Event> {
    if log == [] then []
    else
      var e := log[|log| - 1];
      Eligible(log[..|log| - 1], blocked, session, f)
      + if e.ObservedFact? && e.session == session && e.fingerprint == f && !Bound(blocked, e.event) then [e] else []
  }

  /** What one statement adds: at most its observation and a record or suggestion with the given identity. */
  function DecideObserve(log: seq<Event>, rules: Rules, m: Statement, id: string): seq<Event> {
    match NewRecord(rules, id, m.topic, m.content,
                    Source(if m.isExplicit then Explicit else Suggested, Some(m.session), [m.event]))
    case Err(_) => []
    case Ok(r) =>
      var s := Fold(log);
      if Seen(log, m.event) || (!m.isExplicit && !s.settings.enabled) then []
      else
        var seen := ObservedFact(m.event, m.session, Fingerprint(m.topic, r.content));
        if Conflicts(s, r) then [seen]
        else if m.isExplicit then [seen, RecordFact(r)]
        else
          var eligible := Eligible(log, log, m.session, seen.fingerprint);
          if eligible == [] then [seen]
          else
            assert eligible[|eligible| - 1].ObservedFact? by {
              EligibleExact(log, log, m.session, seen.fingerprint);
            }
            [seen, SuggestionFact(Suggestion(
              id, 1, m.topic, r.content, Pending,
              r.source.(events := [eligible[|eligible| - 1].event, m.event])))]
  }

  lemma {:induction false} EligibleExact(log: seq<Event>, blocked: seq<Event>, session: string, f: Fingerprint)
    ensures forall e :: e in Eligible(log, blocked, session, f) <==>
              e in log && e.ObservedFact? && e.session == session && e.fingerprint == f && !Bound(blocked, e.event)
    ensures var all := Eligible(log, blocked, session, f);
            forall i :: 0 <= i < |all| ==> all[i] in all
  {
    if log != [] {
      var n := |log| - 1;
      EligibleExact(log[..n], blocked, session, f);
      assert log == log[..n] + [log[n]];
    }
  }

  // ---------------------------------------------------------------- the operations

  class PreferenceMemory {
    const rules: Rules
    var log: seq<Event>

    constructor (rules: Rules, log: seq<Event>)
      ensures this.rules == rules && this.log == log
    {
      this.rules := rules;
      this.log := log;
    }

    static method FindConflict(s: State, r: Record) returns (found: bool)
      ensures found == Conflicts(s, r)
    {
      var rest := s.records.Keys;
      while rest != {}
        invariant rest <= s.records.Keys
        invariant forall id :: id in s.records && id !in rest ==>
          !(id != r.id && s.records[id].status != Revoked && s.records[id].topic == r.topic)
        decreases |rest|
      {
        var id :| id in rest;
        if id != r.id && s.records[id].status != Revoked && s.records[id].topic == r.topic {
          return true;
        }
        rest := rest - {id};
      }
      found := false;
    }

    method Create(id: string, topic: Topic, content: string) returns (r: Result<Record>)
      modifies this`log
      ensures match DecideCreate(Fold(old(log)), rules, id, topic, content)
              case Err(e) => r == Err(e) && log == old(log)
              case Ok(facts) =>
                log == old(log) + facts && r.Ok? && Fold(log).records == Fold(old(log)).records[id := r.value]
      ensures r.Ok? ==>
        && rules.check(topic.key, content) == Ok(r.value.content) && ScopeProblem(rules, topic).None?
        && r.value == Record(id, 1, topic, r.value.content, Active, Source(Manual, None, []))
        && !Conflicts(Fold(old(log)), r.value)
    {
      var made := NewRecord(rules, id, topic, content, Source(Manual, None, []));
      if made.Err? {
        return Err(made.error);
      }
      var state := ReadState(log);
      var conflict := FindConflict(state, made.value);
      if conflict {
        return Err(CONFLICT);
      }
      FoldAppend(log, RecordFact(made.value));
      log := log + [RecordFact(made.value)];
      r := made;
    }

    method ChangeSettings(expected: nat, enabled: bool) returns (r: Result<Settings>)
      modifies this`log
      ensures match DecideSettings(Fold(old(log)), expected, enabled)
              case Err(e) => r == Err(e) && log == old(log)
              case Ok(facts) => log == old(log) + facts && r == Ok(Fold(log).settings)
      ensures r.Ok? <==> Fold(old(log)).settings.revision == expected
      ensures r.Ok? ==> Fold(log).settings == Settings(enabled, expected + 1)
    {
      var state := ReadState(log);
      if state.settings.revision != expected {
        return Err("Preference revision conflict");
      }
      var next := Settings(enabled, state.settings.revision + 1);
      FoldAppend(log, SettingsFact(next));
      log := log + [SettingsFact(next)];
      r := Ok(next);
    }

    method Edit(target: string, expected: nat, content: Option<string>, status: Option<RecordStatus>, delete: bool)
      returns (r: Result<Record>)
      modifies this`log
      ensures match DecideEdit(Fold(old(log)), rules, target, expected, content, status, delete)
              case Err(e) => r == Err(e) && log == old(log)
              case Ok(facts) =>
                log == old(log) + facts && r.Ok? && Fold(log).records == Fold(old(log)).records[target := r.value]
      ensures r.Ok? ==>
        && target in Fold(old(log)).records
        && var prior := Fold(old(log)).records[target];
        && prior.revision == expected && prior.status != Revoked
        && r.value.id == prior.id && r.value.topic == prior.topic && r.value.revision == expected + 1
        && r.value.status == (if delete then Revoked else status.GetOr(prior.status))
        && (content.None? ==> r.value.content == prior.content && r.value.source == prior.source)
        && (content.Some? ==> rules.check(prior.topic.key, content.value) == Ok(r.value.content)
                              && r.value.source.events == [])
    {
      var state := ReadState(log);
      if target !in state.records {
        return Err("Preference not found");
      }
      var previous := state.records[target];
      if previous.revision != expected {
        return Err("Preference revision conflict");
      }
      if previous.status == Revoked {
        return Err("Revoked preference cannot be revived");
      }
      var updated := previous.(revision := previous.revision + 1);
      if content.Some? {
        var value := rules.check(previous.topic.key, content.value);
        if value.Err? {
          return Err(value.error);
        }
        updated := updated.(content := value.value, source := Source(Manual, None, []));
      }
      updated := updated.(status := if delete then Revoked else status.GetOr(previous.status));
      KeptUnderId(log, target);
      FoldAppend(log, RecordFact(updated));
      log := log + [RecordFact(updated)];
      r := Ok(updated);
    }

    /** The checks of an accepted suggestion, and its record. */
    method Accept(state: State, g: Suggestion, id: string) returns (r: Result<Record>)
      ensures r == AcceptedRecord(state, rules, g, id)
    {
      if !rules.verified(g.source) {
        return Err("Suggestion source verification failed");
      }
      var saved := NewRecord(rules, id, g.topic, g.content, g.source);
      if saved.Err? {
        return Err(saved.error);
      }
      var conflict := FindConflict(state, saved.value);
      if conflict {
        return Err(CONFLICT);
      }
      r := saved;
    }

    method Resolve(target: string, expected: nat, accept: bool, id: string) returns (r: Result<Suggestion>)
      modifies this`log
      ensures match DecideResolve(Fold(old(log)), rules, target, expected, accept, id)
              case Err(e) => r == Err(e) && log == old(log)
              case Ok(facts) =>
                log == old(log) + facts && r.Ok?
                && Fold(log).suggestions == Fold(old(log)).suggestions[target := r.value]
    {
      hide AcceptedRecord;
      var state := ReadState(log);
      if target !in state.suggestions {
        return Err("Suggestion not found");
      }
      var previous := state.suggestions[target];
      if previous.revision != expected || previous.status != Pending {
        return Err("Suggestion revision conflict");
      }
      var updated := previous.(revision := previous.revision + 1,
                               status := if accept then Accepted else Dismissed);
      var additions := [];
      if accept {
        var saved := Accept(state, previous, id);
        if saved.Err? {
          return Err(saved.error);
        }
        FoldAppend(log, RecordFact(saved.value));
        additions := [RecordFact(saved.value)];
      }
      KeptUnderId(log, target);
      FoldAppend(log + additions, SuggestionFact(updated));
      Associate(log, additions, [SuggestionFact(updated)]);
      log := log + (additions + [SuggestionFact(updated)]);
      r := Ok(updated);
    }

    method Observe(m: Statement, id: string) returns (facts: seq<Event>)
      modifies this`log
      ensures facts == DecideObserve(old(log), rules, m, id) && log == old(log) + facts
    {
      facts := [];
      var kind := if m.isExplicit then Explicit else Suggested;
      var made := NewRecord(rules, id, m.topic, m.content, Source(kind, Some(m.session), [m.event]));
      if made.Err? {
        return;
      }
      var state := ReadState(log);
      var known := Seen(log, m.event);
      if known || (!m.isExplicit && !state.settings.enabled) {
        return;
      }
      var seen := ObservedFact(m.event, m.session, Fingerprint(m.topic, made.value.content));
      facts := [seen];
      var conflict := FindConflict(state, made.value);
      if !conflict && m.isExplicit {
        facts := [seen, RecordFact(made.value)];
      } else if !conflict {
        var last := LastEligible(log, m.session, seen.fingerprint);
        if last.Some? {
          var source := made.value.source.(events := [last.value, m.event]);
          facts := [seen, SuggestionFact(
                      Suggestion(id, 1, m.topic, made.value.content, Pending, source))];
        }
      }
      log := log + facts;
    }

    /** The latest message of the session that says the same and is not bound yet. */
    static method LastEligible(log: seq<Event>, session: string, f: Fingerprint) returns (last: Option<string>)
      ensures var all := Eligible(log, log, session, f);
              if all == [] then last == None
              else all[|all| - 1].ObservedFact? && last == Some(all[|all| - 1].event)
    {
      EligibleExact(log, log, session, f);
      last := None;
      for i := 0 to |log|
        invariant var all := Eligible(log[..i], log, session, f);
                  if all == [] then last == None
                  else all[|all| - 1].ObservedFact? && last == Some(all[|all| - 1].event)
      {
        assert log[..i + 1][..i] == log[..i];
        var e := log[i];
        if e.ObservedFact? && e.session == session && e.fingerprint == f && !Bound(log, e.event) {
          last := Some(e.event);
        }
      }
      assert log[..|log|] == log;
    }
  }

  /** A resolved suggestion was pending at that revision; accepting it saves a record of its own topic and source. */
  lemma ResolveEffect(log: seq<Event>, rules: Rules, target: string, expected: nat, accept: bool, id: string)
    requires DecideResolve(Fold(log), rules, target, expected, accept, id).Ok?
    ensures var facts := DecideResolve(Fold(log), rules, target, expected, accept, id).value;
            var s, t := Fold(log), Fold(log + facts);
            && target in s.suggestions
            && var prior := s.suggestions[target];
            && prior.id == target && prior.revision == expected && prior.status == Pending
            && t.suggestions == s.suggestions[
                 target := prior.(revision := expected + 1, status := if accept then Accepted else Dismissed)]
            && (!accept ==> t.records == s.records)
            && (accept ==>
                  && rules.verified(prior.source) && id in t.records && t.records == s.records[id := t.records[id]]
                  && rules.check(prior.topic.key, prior.content) == Ok(t.records[id].content)
                  && t.records[id] == Record(id, 1, prior.topic, t.records[id].content, Active, prior.source)
                  && !Conflicts(s, t.records[id]))
  {
    var facts := DecideResolve(Fold(log), rules, target, expected, accept, id).value;
    KeptUnderId(log, target);
    FoldAppend(log, facts[0]);
    if accept {
      FoldAppend(log + [facts[0]], facts[1]);
      assert log + facts == (log + [facts[0]]) + [facts[1]];
    } else {
      assert log + facts == log + [facts[0]];
    }
  }

  lemma {:induction false} KeptUnderId(log: seq<Event>, id: string)
    ensures id in Fold(log).records ==> Fold(log).records[id].id == id
    ensures id in Fold(log).suggestions ==> Fold(log).suggestions[id].id == id
  {
    if log != [] {
      KeptUnderId(log[..|log| - 1], id);
    }
  }

  // ---------------------------------------------------------------- when each operation is accepted

  /** A global topic names no project, and a project's topic a known one. */
  predicate TopicAllowed(rules: Rules, topic: Topic) {
    if topic.scope == Global then topic.project.None?
    else topic.project.Some? && topic.project.value != "" && rules.known(topic.project.value)
  }

  /** No other record that is still in use has the topic. */
  predicate TopicFree(s: State, id: string, topic: Topic) {
    forall k :: k in s.records && k != id && s.records[k].topic == topic ==> s.records[k].status == Revoked
  }

  lemma CreateIff(s: State, rules: Rules, id: string, topic: Topic, content: string)
    ensures DecideCreate(s, rules, id, topic, content).Ok? <==>
              TopicAllowed(rules, topic) && rules.check(topic.key, content).Ok? && TopicFree(s, id, topic)
  {
  }

  lemma EditIff(
    s: State, rules: Rules, target: string, expected: nat, content: Option<string>,
    status: Option<RecordStatus>, delete: bool)
    ensures DecideEdit(s, rules, target, expected, content, status, delete).Ok? <==>
              && target in s.records && s.records[target].revision == expected
              && s.records[target].status in {Active, Paused}
              && (content.Some? ==> rules.check(s.records[target].topic.key, content.value).Ok?)
  {
  }

  lemma ResolveIff(s: State, rules: Rules, target: string, expected: nat, accept: bool, id: string)
    ensures DecideResolve(s, rules, target, expected, accept, id).Ok? <==>
              && target in s.suggestions
              && var g := s.suggestions[target];
              && g.revision == expected && g.status == Pending
              && (accept ==>
                    && rules.verified(g.source) && TopicAllowed(rules, g.topic)
                    && rules.check(g.topic.key, g.content).Ok? && TopicFree(s, id, g.topic))
  {
  }

  /** The latest observation of the same preference in the same session whose message nothing is bound to. */
  ghost predicate LatestUnbound(log: seq<Event>, session: string, f: Fingerprint, i: int) {
    && 0 <= i < |log| && IsUnbound(log, log[i], session, f)
    && forall j :: i < j < |log| ==> !IsUnbound(log, log[j], session, f)
  }

  predicate IsUnbound(log: seq<Event>, e: Event, session: string, f: Fingerprint) {
    e.ObservedFact? && e.session == session && e.fingerprint == f && !Bound(log, e.event)
  }

  lemma {:induction false} LastOfEligible(log: seq<Event>, blocked: seq<Event>, session: string, f: Fingerprint)
    returns (i: int)
    ensures var all := Eligible(log, blocked, session, f);
            if all == [] then i == -1 && forall j :: 0 <= j < |log| ==> !IsUnbound(blocked, log[j], session, f)
            else
              && 0 <= i < |log| && log[i] == all[|all| - 1] && IsUnbound(blocked, log[i], session, f)
              && forall j :: i < j < |log| ==> !IsUnbound(blocked, log[j], session, f)
  {
    i := -1;
    if log != [] {
      var n := |log| - 1;
      i := LastOfEligible(log[..n], blocked, session, f);
      if IsUnbound(blocked, log[n], session, f) {
        i := n;
      }
    }
  }

  /**
   * A statement is observed if its topic and content are allowed, it is new, and either explicit or made while the
   * switch is on. If its topic is free, an explicit one becomes a record, and any other one a suggestion as soon as
   * an earlier message of the session that says the same is not bound: the latest of those.
   */
  lemma ObserveExact(log: seq<Event>, rules: Rules, m: Statement, id: string) returns (i: int)
    ensures var facts, value := DecideObserve(log, rules, m, id), rules.check(m.topic.key, m.content);
            var accepted := TopicAllowed(rules, m.topic) && value.Ok? && !Seen(log, m.event)
                            && (m.isExplicit || Fold(log).settings.enabled);
            && (facts != [] <==> accepted)
            && (accepted ==>
                  var f := Fingerprint(m.topic, value.value);
                  && facts[0] == ObservedFact(m.event, m.session, f)
                  && (|facts| == 2 <==>
                        TopicFree(Fold(log), id, m.topic) && (m.isExplicit || LatestUnbound(log, m.session, f, i)))
                  && (|facts| == 2 && m.isExplicit ==>
                        facts[1] == RecordFact(Record(id, 1, m.topic, value.value, Active,
                                                      Source(Explicit, Some(m.session), [m.event]))))
                  && (|facts| == 2 && !m.isExplicit ==>
                        LatestUnbound(log, m.session, f, i)
                        && facts[1] == SuggestionFact(
                             Suggestion(id, 1, m.topic, value.value, Pending,
                                        Source(Suggested, Some(m.session), [log[i].event, m.event]))))
                  && (LatestUnbound(log, m.session, f, i) <==> exists j :: LatestUnbound(log, m.session, f, j)))
  {
    i := -1;
    if rules.check(m.topic.key, m.content).Ok? {
      i := LastOfEligible(log, log, m.session, Fingerprint(m.topic, rules.check(m.topic.key, m.content).value));
    }
  }
}
