/** What every log written by the preference operations keeps. */
module PreferenceLog {
  import opened Common
  import opened Preferences

  // ---------------------------------------------------------------- runs

  datatype Command =
    | Create(id: string, topic: Topic, content: string)
    | ChangeSettings(expected: nat, enabled: bool)
    | Edit(target: string, expected: nat, change: Option<string>, status: Option<RecordStatus>, delete: bool)
    | Resolve(target: string, expected: nat, accept: bool, id: string)
    | Observe(statement: Statement, id: string)

  function Decide(log: seq<Event>, rules: Rules, c: Command): Result<seq<Event>> {
    match c
    case Create(id, topic, content) => DecideCreate(Fold(log), rules, id, topic, content)
    case ChangeSettings(expected, enabled) => DecideSettings(Fold(log), expected, enabled)
    case Edit(target, expected, content, status, delete) =>
      DecideEdit(Fold(log), rules, target, expected, content, status, delete)
    case Resolve(target, expected, accept, id) => DecideResolve(Fold(log), rules, target, expected, accept, id)
    case Observe(statement, id) => Ok(DecideObserve(log, rules, statement, id))
  }

  function Exec(log: seq<Event>, rules: Rules, c: Command): seq<Event> {
    match Decide(log, rules, c)
    case Ok(facts) => log + facts
    case Err(_) => log
  }

  /** Identities are new where they are handed out. */
  ghost predicate Legal(log: seq<Event>, c: Command) {
    match c
    case Create(id, _, _) => Unused(log, id)
    case Resolve(_, _, _, id) => Unused(log, id)
    case Observe(_, id) => Unused(log, id)
    case _ => true
  }

  predicate Unused(log: seq<Event>, id: string) {
    id !in Fold(log).records && id !in Fold(log).suggestions
  }

  function Run(rules: Rules, cs: seq<Command>): seq<Event> {
    if cs == [] then [] else Exec(Run(rules, cs[..|cs| - 1]), rules, cs[|cs| - 1])
  }

  ghost predicate AllLegal(rules: Rules, cs: seq<Command>) {
    cs == [] || (AllLegal(rules, cs[..|cs| - 1]) && Legal(Run(rules, cs[..|cs| - 1]), cs[|cs| - 1]))
  }

  // ---------------------------------------------------------------- the invariant

  /** The versions of one record, in log order. */
  function History(log: seq<Event>, id: string): seq<Record> {
    if log == [] then []
    else
      var e := log[|log| - 1];
      History(log[..|log| - 1], id) + if e.RecordFact? && e.record.id == id then [e.record] else []
  }

  /** Revisions 1, 2, 3, ... of one topic, with nothing after a revocation. */
  ghost predicate Chain(h: seq<Record>) {
    && (forall i :: 0 <= i < |h| ==> h[i].revision == i + 1 && h[i].topic == h[0].topic)
    && (forall i :: 0 <= i < |h| - 1 ==> h[i].status != Revoked)
  }

  ghost predicate Chained(log: seq<Event>) {
    forall id :: Chain(History(log, id))
  }

  ghost predicate OnePerTopic(s: State) {
    forall a, b ::
      (a in s.records && b in s.records && s.records[a].status != Revoked && s.records[b].status != Revoked
       && s.records[a].topic == s.records[b].topic) ==> a == b
  }

  predicate Observed(log: seq<Event>, event: string, session: string, f: Fingerprint) {
    ObservedFact(event, session, f) in log
  }

  /** The suggestion names two different messages of one session that both state it. */
  ghost predicate Sourced(log: seq<Event>, g: Suggestion) {
    && |g.source.events| == 2 && g.source.events[0] != g.source.events[1]
    && g.source.session.Some?
    && (forall x :: x in g.source.events ==>
          Observed(log, x, g.source.session.value, Fingerprint(g.topic, g.content)))
  }

  ghost predicate AllSourced(log: seq<Event>) {
    forall g :: SuggestionFact(g) in log ==> Sourced(log, g)
  }

  ghost predicate Apart(g: Suggestion, h: Suggestion) {
    g.id != h.id ==> forall x :: x in g.source.events ==> x !in h.source.events
  }

  ghost predicate AllApart(log: seq<Event>) {
    forall g, h :: SuggestionFact(g) in log && SuggestionFact(h) in log ==> Apart(g, h)
  }

  ghost predicate Inv(log: seq<Event>) {
    Chained(log) && OnePerTopic(Fold(log)) && AllSourced(log) && AllApart(log)
  }

  // ---------------------------------------------------------------- histories and the fold

  lemma HistoryAppend(log: seq<Event>, e: Event, id: string)
    ensures History(log + [e], id)
         == History(log, id) + if e.RecordFact? && e.record.id == id then [e.record] else []
  {
    assert (log + [e])[..|log|] == log;
  }

  /** The folded record is the last version in the log. */
  lemma {:induction false} FoldIsLatest(log: seq<Event>, id: string)
    ensures id in Fold(log).records <==> History(log, id) != []
    ensures id in Fold(log).records ==> Fold(log).records[id] == History(log, id)[|History(log, id)| - 1]
  {
    if log != [] {
      FoldIsLatest(log[..|log| - 1], id);
    }
  }

  lemma {:induction false} SuggestionsAreInLog(log: seq<Event>, id: string)
    requires id in Fold(log).suggestions
    ensures Fold(log).suggestions[id].id == id && SuggestionFact(Fold(log).suggestions[id]) in log
  {
    var before, e := log[..|log| - 1], log[|log| - 1];
    assert log == before + [e];
    if id in Fold(before).suggestions {
      SuggestionsAreInLog(before, id);
    }
  }

  // ---------------------------------------------------------------- facts that keep the invariant

  lemma SourcesStay(log: seq<Event>, e: Event)
    requires AllSourced(log) && AllApart(log) && !e.SuggestionFact?
    ensures AllSourced(log + [e]) && AllApart(log + [e])
  {
    forall g | SuggestionFact(g) in log + [e] ensures SuggestionFact(g) in log && Sourced(log + [e], g) {
    }
  }

  lemma HistoriesStay(log: seq<Event>, e: Event)
    requires Chained(log) && OnePerTopic(Fold(log)) && !e.RecordFact?
    ensures Chained(log + [e]) && OnePerTopic(Fold(log + [e]))
  {
    FoldAppend(log, e);
    forall id ensures Chain(History(log + [e], id)) {
      HistoryAppend(log, e, id);
    }
  }

  /** The next version of a record, or a new one, of a topic that no other record holds. */
  ghost predicate Follows(log: seq<Event>, r: Record) {
    && (r.id !in Fold(log).records ==> r.revision == 1 && !Conflicts(Fold(log), r))
    && (r.id in Fold(log).records ==>
          var last := Fold(log).records[r.id];
          last.status != Revoked && r.revision == last.revision + 1 && r.topic == last.topic)
  }

  lemma ChainGrows(log: seq<Event>, r: Record)
    requires Chained(log) && Follows(log, r)
    ensures Chain(History(log, r.id) + [r])
  {
    FoldIsLatest(log, r.id);
    assert Chain(History(log, r.id));
  }

  lemma RecordStaysUnique(log: seq<Event>, r: Record)
    requires OnePerTopic(Fold(log)) && Follows(log, r)
    ensures OnePerTopic(Apply(Fold(log), RecordFact(r)))
  {
    var s, t := Fold(log), Apply(Fold(log), RecordFact(r));
    assert r.id in s.records ==> s.records[r.id].topic == r.topic && s.records[r.id].status != Revoked;
    assert forall a :: a in t.records && a != r.id ==> a in s.records && s.records[a] == t.records[a];
  }

  lemma RecordKeeps(log: seq<Event>, r: Record)
    requires Inv(log) && Follows(log, r)
    ensures Inv(log + [RecordFact(r)])
  {
    var e := RecordFact(r);
    SourcesStay(log, e);
    FoldAppend(log, e);
    RecordStaysUnique(log, r);
    forall id ensures Chain(History(log + [e], id)) {
      HistoryAppend(log, e, id);
      ChainGrows(log, r);
      assert Chain(History(log, id));
    }
  }

  lemma SuggestionKeeps(log: seq<Event>, g: Suggestion)
    requires Inv(log) && Sourced(log, g)
    requires forall h :: SuggestionFact(h) in log ==> Apart(g, h)
    ensures Inv(log + [SuggestionFact(g)])
  {
    var all := log + [SuggestionFact(g)];
    HistoriesStay(log, SuggestionFact(g));
    forall h | SuggestionFact(h) in all ensures Sourced(all, h) {
      assert h == g || SuggestionFact(h) in log;
    }
    forall h, k | SuggestionFact(h) in all && SuggestionFact(k) in all ensures Apart(h, k) {
      assert h == g || SuggestionFact(h) in log;
      assert k == g || SuggestionFact(k) in log;
    }
  }

  lemma OtherKeeps(log: seq<Event>, e: Event)
    requires Inv(log) && (e.SettingsFact? || e.ObservedFact?)
    ensures Inv(log + [e])
  {
    SourcesStay(log, e);
    HistoriesStay(log, e);
  }

  // ---------------------------------------------------------------- commands keep the invariant

  lemma CreateKeeps(log: seq<Event>, rules: Rules, c: Command)
    requires Inv(log) && c.Create? && Legal(log, c) && Decide(log, rules, c).Ok?
    ensures Inv(Exec(log, rules, c))
  {
    RecordKeeps(log, Decide(log, rules, c).value[0].record);
  }

  lemma EditKeeps(log: seq<Event>, rules: Rules, c: Command)
    requires Inv(log) && c.Edit? && Decide(log, rules, c).Ok?
    ensures Inv(Exec(log, rules, c))
  {
    KeptUnderId(log, c.target);
    RecordKeeps(log, Decide(log, rules, c).value[0].record);
  }

  /** Resolving keeps the suggestion's own messages; an accepted one becomes a new record. */
  lemma ResolveKeeps(log: seq<Event>, rules: Rules, c: Command)
    requires Inv(log) && c.Resolve? && Legal(log, c) && Decide(log, rules, c).Ok?
    ensures Inv(Exec(log, rules, c))
  {
    var prior, facts := Fold(log).suggestions[c.target], Decide(log, rules, c).value;
    SuggestionsAreInLog(log, c.target);
    if c.accept {
      RecordKeeps(log, facts[0].record);
      SameSuggestion(log + [facts[0]], prior, facts[1].suggestion);
      SuggestionKeeps(log + [facts[0]], facts[1].suggestion);
      Associate(log, [facts[0]], [facts[1]]);
      assert facts == [facts[0]] + [facts[1]];
    } else {
      SameSuggestion(log, prior, facts[0].suggestion);
      SuggestionKeeps(log, facts[0].suggestion);
    }
  }

  lemma SameSuggestion(log: seq<Event>, prior: Suggestion, next: Suggestion)
    requires Inv(log) && SuggestionFact(prior) in log
    requires next.id == prior.id && next.source == prior.source
             && next.topic == prior.topic && next.content == prior.content
    ensures Sourced(log, next) && forall h :: SuggestionFact(h) in log ==> Apart(next, h)
  {
    assert Sourced(log, prior);
    forall h | SuggestionFact(h) in log ensures Apart(next, h) {
      assert Apart(prior, h);
    }
  }

  lemma ObserveKeeps(log: seq<Event>, rules: Rules, c: Command)
    requires Inv(log) && c.Observe? && Legal(log, c)
    ensures Inv(Exec(log, rules, c))
  {
    var facts := DecideObserve(log, rules, c.statement, c.id);
    if facts == [] {
      assert log + facts == log;
    } else {
      OtherKeeps(log, facts[0]);
      if |facts| == 1 {
        assert facts == [facts[0]];
      } else {
        assert facts == [facts[0]] + [facts[1]];
        Associate(log, [facts[0]], [facts[1]]);
        FoldAppend(log, facts[0]);
        if c.statement.isExplicit {
          RecordKeeps(log + [facts[0]], facts[1].record);
        } else {
          NewSuggestion(log, rules, c);
          SuggestionKeeps(log + [facts[0]], facts[1].suggestion);
        }
      }
    }
  }

  /** A new suggestion binds this message and an earlier one that nothing is bound to yet. */
  lemma NewSuggestion(log: seq<Event>, rules: Rules, c: Command)
    requires c.Observe? && !c.statement.isExplicit
    requires var facts := DecideObserve(log, rules, c.statement, c.id);
             |facts| == 2
    ensures var facts := DecideObserve(log, rules, c.statement, c.id);
            && facts[1].SuggestionFact? && Sourced(log + [facts[0]], facts[1].suggestion)
            && forall h :: SuggestionFact(h) in log + [facts[0]] ==> Apart(facts[1].suggestion, h)
  {
    var m, facts := c.statement, DecideObserve(log, rules, c.statement, c.id);
    var f := facts[0].fingerprint;
    var eligible := Eligible(log, log, m.session, f);
    EligibleExact(log, log, m.session, f);
    var last := eligible[|eligible| - 1];
    assert last in log && !Bound(log, last.event) && !Bound(log, m.event);
    assert last == ObservedFact(last.event, m.session, f);
    var g := facts[1].suggestion;
    assert g.source.events == [last.event, m.event];
    forall h | SuggestionFact(h) in log + [facts[0]] ensures Apart(g, h) {
      assert SuggestionFact(h) in log && SourceOf(SuggestionFact(h)) == h.source.events;
    }
  }

  lemma ExecKeeps(log: seq<Event>, rules: Rules, c: Command)
    requires Inv(log) && Legal(log, c)
    ensures Inv(Exec(log, rules, c))
  {
    if Decide(log, rules, c).Ok? {
      match c {
        case Create(_, _, _) => CreateKeeps(log, rules, c);
        case ChangeSettings(_, _) => OtherKeeps(log, Decide(log, rules, c).value[0]);
        case Edit(_, _, _, _, _) => EditKeeps(log, rules, c);
        case Resolve(_, _, _, _) => ResolveKeeps(log, rules, c);
        case Observe(_, _) => ObserveKeeps(log, rules, c);
      }
    }
  }

  /**
   * Every reachable log: one record that is not revoked per topic, revisions counted from 1 without a gap
   * and ended by a revocation, and suggestions bound to two messages each that no other one shares.
   */
  lemma {:induction false} LogsAreSound(rules: Rules, cs: seq<Command>)
    requires AllLegal(rules, cs)
    ensures Inv(Run(rules, cs))
  {
    if cs != [] {
      LogsAreSound(rules, cs[..|cs| - 1]);
      ExecKeeps(Run(rules, cs[..|cs| - 1]), rules, cs[|cs| - 1]);
    }
  }

  /** A log only grows, so a message that is bound or observed once never makes a preference again. */
  lemma SeenStaysSeen(log: seq<Event>, later: seq<Event>, rules: Rules, m: Statement, id: string)
    requires Seen(log, m.event)
    ensures DecideObserve(log + later, rules, m, id) == []
  {
    if e :| e in log && e.ObservedFact? && e.event == m.event {
      assert e in log + later;
    } else {
      var e :| e in log && m.event in SourceOf(e);
      assert e in log + later;
    }
  }
}
