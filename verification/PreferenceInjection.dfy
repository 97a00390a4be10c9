/** Which preferences a Run may use: its snapshot, and what each request still injects of it. */
module PreferenceInjection {
  import opened Common
  import opened Preferences
  import opened PreferenceLog

  // ---------------------------------------------------------------- orders

  /** Comparison of strings by code point. */
  predicate Upto(a: string, b: string) {
    a == "" || (b != "" && (a[0] < b[0] || (a[0] == b[0] && Upto(a[1..], b[1..]))))
  }

  lemma {:induction false} UptoTotal(a: string, b: string)
    ensures Upto(a, b) || Upto(b, a)
  {
    if a != "" && b != "" && a[0] == b[0] {
      UptoTotal(a[1..], b[1..]);
    }
  }

  lemma {:induction false} UptoTransitive(a: string, b: string, c: string)
    requires Upto(a, b) && Upto(b, c)
    ensures Upto(a, c)
  {
    if a != "" && a[0] == b[0] == c[0] {
      UptoTransitive(a[1..], b[1..], c[1..]);
    }
  }

  /** A group that comes first, and a key to order each group by. */
  datatype Rank = Rank(late: bool, key: string)

  predicate Ranked(a: Rank, b: Rank) {
    (!a.late && b.late) || (a.late == b.late && Upto(a.key, b.key))
  }

  ghost predicate Sorted(s: seq<Record>, rank: Record -> Rank) {
    forall i, j :: 0 <= i < j < |s| ==> Ranked(rank(s[i]), rank(s[j]))
  }

  lemma RankedTotal(a: Rank, b: Rank)
    ensures Ranked(a, b) || Ranked(b, a)
  {
    UptoTotal(a.key, b.key);
  }

  lemma RankedTransitive(a: Rank, b: Rank, c: Rank)
    requires Ranked(a, b) && Ranked(b, c)
    ensures Ranked(a, c)
  {
    if a.late == c.late {
      UptoTransitive(a.key, b.key, c.key);
    }
  }

  method InsertByRank(sorted: seq<Record>, x: Record, rank: Record -> Rank) returns (r: seq<Record>)
    requires Sorted(sorted, rank)
    ensures Sorted(r, rank) && |r| == |sorted| + 1
    ensures exists i :: 0 <= i <= |sorted| && r == sorted[..i] + [x] + sorted[i..]
  {
    var i := |sorted|;
    while i > 0 && !Ranked(rank(sorted[i - 1]), rank(x))
      invariant 0 <= i <= |sorted|
      invariant forall j :: i <= j < |sorted| ==> Ranked(rank(x), rank(sorted[j]))
    {
      i := i - 1;
      RankedTotal(rank(sorted[i]), rank(x));
    }
    r := sorted[..i] + [x] + sorted[i..];
    forall j | 0 <= j < i ensures Ranked(rank(sorted[j]), rank(x)) {
      if j < i - 1 {
        RankedTransitive(rank(sorted[j]), rank(sorted[i - 1]), rank(x));
      }
    }
  }

  /** The records in order of rank. */
  method SortByRank(records: seq<Record>, rank: Record -> Rank) returns (sorted: seq<Record>)
    ensures Sorted(sorted, rank) && |sorted| == |records|
    ensures forall x :: x in sorted <==> x in records
    ensures Distinct(records) ==> Distinct(sorted)
  {
    sorted := [];
    for i := 0 to |records|
      invariant Sorted(sorted, rank) && |sorted| == i
      invariant forall x :: x in sorted <==> x in records[..i]
      invariant Distinct(records) ==> Distinct(sorted)
    {
      assert records[..i + 1] == records[..i] + [records[i]];
      var before := sorted;
      sorted := InsertByRank(sorted, records[i], rank);
      InsertMembers(before, records[i], sorted);
      if Distinct(records) {
        assert records[i] !in records[..i];
      }
    }
    assert records[..|records|] == records;
  }

  lemma InsertMembers(before: seq<Record>, x: Record, after: seq<Record>)
    requires exists i :: 0 <= i <= |before| && after == before[..i] + [x] + before[i..]
    ensures forall y :: y in after <==> y in before || y == x
    ensures Distinct(before) && x !in before ==> Distinct(after)
  {
    var i :| 0 <= i <= |before| && after == before[..i] + [x] + before[i..];
    InsertAt(before, x, i, after);
  }

  lemma InsertAt(before: seq<Record>, x: Record, i: nat, after: seq<Record>)
    requires i <= |before| && after == before[..i] + [x] + before[i..]
    ensures forall y :: y in after <==> y in before || y == x
    ensures Distinct(before) && x !in before ==> Distinct(after)
  {
    forall y | y in before ensures y in after {
      var j :| 0 <= j < |before| && before[j] == y;
      assert after[if j < i then j else j + 1] == y;
    }
    assert after[i] == x;
    if Distinct(before) && x !in before {
      forall a, b | 0 <= a < b < |after| ensures after[a] != after[b] {
        if a == i {
          assert after[b] == before[b - 1];
        } else if b == i {
          assert after[a] == before[a];
        } else {
          assert after[a] == before[if a < i then a else a - 1];
          assert after[b] == before[if b < i then b else b - 1];
        }
      }
    }
  }

  // ---------------------------------------------------------------- the snapshot

  const MAX_SNAPSHOT := 12

  datatype Ref = Ref(id: string, revision: nat, topic: Topic)

  function RefOf(r: Record): Ref {
    Ref(r.id, r.revision, r.topic)
  }

  /** What a user wants left undone is kept before anything else. */
  predicate Negative(content: string) {
    "\U{4E0D}" <= content || "\U{4E0D}\U{8981}" <= content || "never" <= content || "don't" <= content
  }

  predicate Usable(s: State, project: Option<string>, r: Record) {
    && r.id in s.records && s.records[r.id] == r && r.status == Active
    && (r.topic.scope == Global || r.topic.project == project)
  }

  function GlobalFirst(r: Record): Rank {
    Rank(r.topic.scope != Global, r.topic.key)
  }

  function NegativeFirst(r: Record): Rank {
    Rank(!Negative(r.content), r.topic.key)
  }

  /** For each key one usable record, the project's own where there is one. */
  ghost predicate Chosen(s: State, project: Option<string>, selected: map<string, Record>) {
    && (forall k :: k in selected ==> Usable(s, project, selected[k]) && selected[k].topic.key == k)
    && (forall r :: Usable(s, project, r) ==>
          r.topic.key in selected
          && (r.topic.scope == Project ==> selected[r.topic.key].topic.scope == Project))
  }

  /** The first twelve of the chosen records: one for each key, and none of the others ranks before them. */
  ghost predicate SnapshotOf(s: State, project: Option<string>, chosen: seq<Record>) {
    && |chosen| <= 12 && Sorted(chosen, NegativeFirst)
    && (forall i, j :: 0 <= i < j < |chosen| ==> chosen[i].topic.key != chosen[j].topic.key)
    && (forall r :: r in chosen ==> Usable(s, project, r))
    && (forall r, g ::
          (r in chosen && Usable(s, project, g) && g.topic.key == r.topic.key && g.topic.scope == Project) ==>
            r.topic.scope == Project)
    && (forall g :: Usable(s, project, g) ==>
          || (exists r :: r in chosen && r.topic.key == g.topic.key)
          || (|chosen| == 12
              && exists x :: Usable(s, project, x) && x.topic.key == g.topic.key
                             && forall r :: r in chosen ==> Ranked(NegativeFirst(r), NegativeFirst(x))))
  }

  /** A content that opens with a word for "not", "never" or "don't". */
  predicate SaysNot(content: string) {
    content != "" && (content[0] == '\U{4E0D}' || (|content| >= 5 && content[..5] in ["never", "don't"]))
  }

  lemma NegativeIffSaysNot(content: string)
    ensures Negative(content) <==> SaysNot(content)
  {
    assert "\U{4E0D}" <= content <==> content != "" && content[0] == '\U{4E0D}';
    assert "\U{4E0D}\U{8981}" <= content ==> content[0] == '\U{4E0D}';
    assert "never" <= content <==> |content| >= 5 && content[..5] == "never";
    assert "don't" <= content <==> |content| >= 5 && content[..5] == "don't";
  }

  /** What is to be avoided comes first in a snapshot, and the records of each kind are in order of their keys. */
  lemma AvoidedFirst(s: State, project: Option<string>, chosen: seq<Record>, i: nat, j: nat)
    requires SnapshotOf(s, project, chosen) && i < j < |chosen|
    ensures var earlier, later := chosen[i].content, chosen[j].content;
            && (SaysNot(later) ==> SaysNot(earlier))
            && (SaysNot(later) == SaysNot(earlier) ==> Upto(chosen[i].topic.key, chosen[j].topic.key))
  {
    assert Ranked(NegativeFirst(chosen[i]), NegativeFirst(chosen[j]));
    NegativeIffSaysNot(chosen[i].content);
    NegativeIffSaysNot(chosen[j].content);
  }

  /** Each reference names a current record at its revision. */
  predicate Refer(s: State, refs: seq<Ref>) {
    forall i :: 0 <= i < |refs| ==> refs[i].id in s.records && refs[i] == RefOf(s.records[refs[i].id])
  }

  function RecordsOf(s: State, refs: seq<Ref>): seq<Record>
    requires Refer(s, refs)
  {
    seq(|refs|, i requires 0 <= i < |refs| => s.records[refs[i].id])
  }

  method ListRecords(s: State, project: Option<string>) returns (memories: seq<Record>)
    requires forall id :: id in s.records ==> s.records[id].id == id
    ensures forall r :: r in memories ==> r.id in s.records && s.records[r.id] == r
                                          && (r.topic.scope == Global || r.topic.project == project)
    ensures forall r :: Usable(s, project, r) ==> r in memories
  {
    memories := [];
    var rest := s.records.Keys;
    while rest != {}
      invariant rest <= s.records.Keys
      invariant forall r :: r in memories ==> r.id in s.records && s.records[r.id] == r
                                              && (r.topic.scope == Global || r.topic.project == project)
      invariant forall r :: Usable(s, project, r) && r.id !in rest ==> r in memories
      decreases |rest|
    {
      var id :| id in rest;
      var r := s.records[id];
      if (r.topic.scope == Global || r.topic.project == project) && r.status != Revoked {
        memories := memories + [r];
      }
      rest := rest - {id};
    }
  }

  /** Later records replace earlier ones of the same key, so the project's refine the global ones. */
  method Select(s: State, project: Option<string>, sorted: seq<Record>) returns (selected: map<string, Record>)
    requires Sorted(sorted, GlobalFirst)
    requires forall r :: r in sorted ==> r.id in s.records && s.records[r.id] == r
                                         && (r.topic.scope == Global || r.topic.project == project)
    requires forall r :: Usable(s, project, r) ==> r in sorted
    ensures Chosen(s, project, selected)
  {
    selected := map[];
    for i := 0 to |sorted|
      invariant forall k :: k in selected ==>
        Usable(s, project, selected[k]) && selected[k].topic.key == k && selected[k] in sorted[..i]
      invariant forall j :: 0 <= j < i && Usable(s, project, sorted[j]) ==>
        && sorted[j].topic.key in selected
        && (sorted[j].topic.scope == Project ==> selected[sorted[j].topic.key].topic.scope == Project)
    {
      var r := sorted[i];
      assert r in sorted;
      if r.status == Active {
        forall j | 0 <= j < i && sorted[j].topic.scope == Project ensures r.topic.scope == Project {
          assert Ranked(GlobalFirst(sorted[j]), GlobalFirst(r));
        }
        selected := selected[r.topic.key := r];
      }
    }
    forall r | Usable(s, project, r)
      ensures r.topic.key in selected
              && (r.topic.scope == Project ==> selected[r.topic.key].topic.scope == Project)
    {
      var j :| 0 <= j < |sorted| && sorted[j] == r;
    }
  }

  method ListChosen(selected: map<string, Record>) returns (values: seq<Record>)
    requires forall k :: k in selected ==> selected[k].topic.key == k
    ensures forall r :: r in values <==> r.topic.key in selected && selected[r.topic.key] == r
    ensures Distinct(values)
  {
    values := [];
    var rest := selected.Keys;
    while rest != {}
      invariant rest <= selected.Keys && Distinct(values)
      invariant forall r :: r in values <==>
        r.topic.key in selected && r.topic.key !in rest && selected[r.topic.key] == r
      decreases |rest|
    {
      var k :| k in rest;
      assert selected[k] !in values;
      values := values + [selected[k]];
      rest := rest - {k};
    }
  }

  method SelectFor(s: State, project: Option<string>) returns (selected: map<string, Record>)
    requires forall id :: id in s.records ==> s.records[id].id == id
    ensures Chosen(s, project, selected)
  {
    var memories := ListRecords(s, project);
    var sorted := SortByRank(memories, GlobalFirst);
    selected := Select(s, project, sorted);
  }

  method FirstChosen(s: State, project: Option<string>, selected: map<string, Record>) returns (first: seq<Record>)
    requires Chosen(s, project, selected)
    ensures SnapshotOf(s, project, first)
  {
    var values := ListChosen(selected);
    var ranked := SortByRank(values, NegativeFirst);
    first := ranked[..if |ranked| < MAX_SNAPSHOT then |ranked| else MAX_SNAPSHOT];
    FirstIsSnapshot(s, project, selected, ranked, first);
  }

  /** The references are a snapshot of the log's state, or none while the switch is off. */
  ghost predicate TakenAt(log: seq<Event>, project: Option<string>, refs: seq<Ref>) {
    if Fold(log).settings.enabled then
      Refer(Fold(log), refs) && SnapshotOf(Fold(log), project, RecordsOf(Fold(log), refs))
    else refs == []
  }

  /** Freeze the preferences a new Run may use. */
  method Snapshot(log: seq<Event>, project: Option<string>) returns (refs: seq<Ref>)
    ensures TakenAt(log, project, refs)
  {
    refs := [];
    var state := ReadState(log);
    if !state.settings.enabled {
      return;
    }
    KeptById(log);
    var selected := SelectFor(state, project);
    var first := FirstChosen(state, project, selected);
    refs := seq(|first|, i requires 0 <= i < |first| => RefOf(first[i]));
    ReferToChosen(state, project, first, refs);
  }

  lemma ReferToChosen(s: State, project: Option<string>, chosen: seq<Record>, refs: seq<Ref>)
    requires SnapshotOf(s, project, chosen) && |refs| == |chosen|
    requires forall i :: 0 <= i < |refs| ==> refs[i] == RefOf(chosen[i])
    ensures Refer(s, refs) && RecordsOf(s, refs) == chosen
  {
    forall i | 0 <= i < |refs| ensures chosen[i].id in s.records && s.records[chosen[i].id] == chosen[i] {
      assert chosen[i] in chosen;
    }
  }

  lemma KeptById(log: seq<Event>)
    ensures forall id :: id in Fold(log).records ==> Fold(log).records[id].id == id
  {
    forall id | id in Fold(log).records ensures Fold(log).records[id].id == id {
      KeptUnderId(log, id);
    }
  }

  lemma FirstIsSnapshot(
    s: State, project: Option<string>, selected: map<string, Record>, ranked: seq<Record>, first: seq<Record>)
    requires Chosen(s, project, selected) && Sorted(ranked, NegativeFirst) && Distinct(ranked)
    requires forall r :: r in ranked <==> r.topic.key in selected && selected[r.topic.key] == r
    requires first == ranked[..if |ranked| < MAX_SNAPSHOT then |ranked| else MAX_SNAPSHOT]
    ensures SnapshotOf(s, project, first)
  {
    forall i, j | 0 <= i < j < |first| ensures first[i].topic.key != first[j].topic.key {
      assert ranked[i] in ranked && ranked[j] in ranked;
    }
    forall r | r in first ensures r in ranked {
    }
    forall g | Usable(s, project, g) && !(exists r :: r in first && r.topic.key == g.topic.key)
      ensures |first| == MAX_SNAPSHOT
      ensures exists x :: Usable(s, project, x) && x.topic.key == g.topic.key
                          && forall r :: r in first ==> Ranked(NegativeFirst(r), NegativeFirst(x))
    {
      var x := selected[g.topic.key];
      assert x in ranked;
      var n :| 0 <= n < |ranked| && ranked[n] == x;
      forall j | 0 <= j < |first| ensures ranked[j].topic.key != g.topic.key {
        assert first[j] in first;
      }
      forall r | r in first ensures Ranked(NegativeFirst(r), NegativeFirst(x)) {
        var m :| 0 <= m < |first| && first[m] == r;
        assert ranked[m] == r;
      }
    }
  }

  // ---------------------------------------------------------------- injection

  datatype Injected = Injected(ref: Ref, key: string, content: string, scope: Scope)

  function AtRevision(h: seq<Record>, revision: nat): Option<Record> {
    if h == [] then None
    else
      var earlier := AtRevision(h[..|h| - 1], revision);
      if earlier.Some? then earlier
      else if h[|h| - 1].revision == revision then Some(h[|h| - 1]) else None
  }

  /** A version from the snapshotted one on that is not active: the preference is out for this Run. */
  predicate Stopped(h: seq<Record>, revision: nat) {
    exists r :: r in h && r.revision >= revision && r.status != Active
  }

  /** What a request injects for one reference, if anything. */
  function Inject(log: seq<Event>, ref: Ref): Option<Injected> {
    var s, h := Fold(log), History(log, ref.id);
    if ref.id !in s.records || s.records[ref.id].status != Active || Stopped(h, ref.revision) then None
    else
      match AtRevision(h, ref.revision)
      case Some(r) => Some(Injected(ref, r.topic.key, r.content, r.topic.scope))
      case None => None
  }

  function InjectAll(log: seq<Event>, refs: seq<Ref>, allowed: Option<set<string>>): seq<Injected> {
    if refs == [] then []
    else
      var ref := refs[|refs| - 1];
      InjectAll(log, refs[..|refs| - 1], allowed)
      + if allowed.Some? && ref.id !in allowed.value then []
        else match Inject(log, ref) case Some(x) => [x] case None => []
  }

  function Context(log: seq<Event>, refs: seq<Ref>, allowed: Option<set<string>>): seq<Injected> {
    if Fold(log).settings.enabled then InjectAll(log, refs, allowed) else []
  }

  predicate MayUse(allowed: Option<set<string>>, id: string) {
    allowed.None? || id in allowed.value
  }

  lemma InjectKeepsRef(log: seq<Event>, ref: Ref)
    ensures Inject(log, ref).Some? ==> Inject(log, ref).value.ref == ref
  {
  }

  lemma {:induction false} InjectedExact(
    log: seq<Event>, refs: seq<Ref>, allowed: Option<set<string>>, x: Injected)
    ensures x in InjectAll(log, refs, allowed) <==>
              x.ref in refs && MayUse(allowed, x.ref.id) && Inject(log, x.ref) == Some(x)
  {
    hide Inject;
    if refs != [] {
      var n := |refs| - 1;
      InjectedExact(log, refs[..n], allowed, x);
      InjectKeepsRef(log, refs[n]);
      assert refs == refs[..n] + [refs[n]];
    }
  }

  /** With the switch on, exactly what the allowed references of the snapshot give; nothing with it off. */
  ghost predicate ExactlyAllowed(
    log: seq<Event>, refs: seq<Ref>, allowed: Option<set<string>>, all: seq<Injected>)
  {
    forall x :: x in all <==>
      && Fold(log).settings.enabled && x.ref in refs && MayUse(allowed, x.ref.id)
      && Inject(log, x.ref) == Some(x)
  }

  lemma ContextExact(log: seq<Event>, refs: seq<Ref>, allowed: Option<set<string>>)
    ensures ExactlyAllowed(log, refs, allowed, Context(log, refs, allowed))
  {
    hide InjectAll, Inject;
    forall x ensures x in Context(log, refs, allowed) <==>
              && Fold(log).settings.enabled && x.ref in refs && MayUse(allowed, x.ref.id)
              && Inject(log, x.ref) == Some(x)
    {
      InjectedExact(log, refs, allowed, x);
    }
  }

  /** Each injected preference has its own place among the references, in their order. */
  ghost predicate InPlace(at: seq<nat>, refs: seq<Ref>, all: seq<Injected>) {
    && |at| == |all| && (forall i, j :: 0 <= i < j < |at| ==> at[i] < at[j])
    && forall i :: 0 <= i < |at| ==> at[i] < |refs| && refs[at[i]] == all[i].ref
  }

  lemma PlaceNext(at: seq<nat>, refs: seq<Ref>, all: seq<Injected>, x: Injected)
    requires refs != [] && InPlace(at, refs[..|refs| - 1], all)
    requires x.ref == refs[|refs| - 1]
    ensures InPlace(at + [|refs| - 1], refs, all + [x])
  {
  }

  lemma PlaceKept(at: seq<nat>, refs: seq<Ref>, all: seq<Injected>)
    requires refs != [] && InPlace(at, refs[..|refs| - 1], all)
    ensures InPlace(at, refs, all)
  {
  }

  lemma {:induction false} InjectedInOrder(log: seq<Event>, refs: seq<Ref>, allowed: Option<set<string>>)
    returns (at: seq<nat>)
    ensures InPlace(at, refs, InjectAll(log, refs, allowed))
  {
    hide Inject, InPlace;
    at := [];
    if refs == [] {
      NoPlaces(refs);
    } else {
      var n := |refs| - 1;
      InjectKeepsRef(log, refs[n]);
      at := InjectedInOrder(log, refs[..n], allowed);
      var all := InjectAll(log, refs[..n], allowed);
      PlaceKept(at, refs, all);
      if MayUse(allowed, refs[n].id) && Inject(log, refs[n]).Some? {
        PlaceNext(at, refs, all, Inject(log, refs[n]).value);
        at := at + [n];
      } else {
        assert InjectAll(log, refs, allowed) == all + [] == all;
      }
    }
  }

  lemma NoPlaces(refs: seq<Ref>)
    ensures InPlace([], refs, [])
  {
  }

  method ReadVersions(log: seq<Event>, id: string) returns (h: seq<Record>)
    ensures h == History(log, id)
  {
    h := [];
    for i := 0 to |log|
      invariant h == History(log[..i], id)
    {
      assert log[..i + 1][..i] == log[..i];
      if log[i].RecordFact? && log[i].record.id == id {
        h := h + [log[i].record];
      }
    }
    assert log[..|log|] == log;
  }

  method FindRevision(h: seq<Record>, revision: nat) returns (r: Option<Record>)
    ensures r == AtRevision(h, revision)
  {
    r := None;
    for i := 0 to |h|
      invariant r == AtRevision(h[..i], revision)
    {
      assert h[..i + 1][..i] == h[..i];
      if r.None? && h[i].revision == revision {
        r := Some(h[i]);
      }
    }
    assert h[..|h|] == h;
  }

  method ReadInjection(log: seq<Event>, state: State, ref: Ref) returns (x: Option<Injected>)
    requires state == Fold(log)
    ensures x == Inject(log, ref)
  {
    var versions := ReadVersions(log, ref.id);
    if ref.id !in state.records || state.records[ref.id].status != Active || Stopped(versions, ref.revision) {
      return None;
    }
    var original := FindRevision(versions, ref.revision);
    if original.None? {
      return None;
    }
    x := Some(Injected(ref, original.value.topic.key, original.value.content, original.value.topic.scope));
  }

  /** The loop over the snapshot. */
  method ReadContext(log: seq<Event>, refs: seq<Ref>, allowed: Option<set<string>>) returns (r: seq<Injected>)
    ensures r == Context(log, refs, allowed)
    ensures ExactlyAllowed(log, refs, allowed, r)
  {
    hide ExactlyAllowed, Inject;
    ContextExact(log, refs, allowed);
    var state := ReadState(log);
    if !state.settings.enabled {
      return [];
    }
    r := [];
    for i := 0 to |refs|
      invariant r == InjectAll(log, refs[..i], allowed)
    {
      assert refs[..i + 1][..i] == refs[..i];
      var ref := refs[i];
      if allowed.Some? && ref.id !in allowed.value {
        continue;
      }
      var x := ReadInjection(log, state, ref);
      if x.Some? {
        r := r + [x.value];
      }
    }
    assert refs[..|refs|] == refs;
  }

  // ---------------------------------------------------------------- injection only shrinks

  lemma {:induction false} HistoryGrows(log: seq<Event>, later: seq<Event>, id: string)
    ensures History(log, id) <= History(log + later, id)
    decreases |later|
  {
    if later == [] {
      assert log + later == log;
    } else {
      var n := |later| - 1;
      HistoryGrows(log, later[..n], id);
      Associate(log, later[..n], [later[n]]);
      assert later == later[..n] + [later[n]];
      HistoryAppend(log + later[..n], later[n], id);
    }
  }

  lemma {:induction false} FirstStaysFirst(h: seq<Record>, h': seq<Record>, revision: nat)
    requires h <= h' && AtRevision(h, revision).Some?
    ensures AtRevision(h', revision) == AtRevision(h, revision)
    decreases |h'|
  {
    if |h| < |h'| {
      FirstStaysFirst(h, h'[..|h'| - 1], revision);
    } else {
      assert h == h';
    }
  }

  /** In a chain the version with a given revision stands at that place. */
  lemma {:induction false} ChainHasRevision(h: seq<Record>, revision: nat)
    requires Chain(h) && 1 <= revision <= |h|
    ensures AtRevision(h, revision) == Some(h[revision - 1])
    decreases |h|
  {
    var n := |h| - 1;
    assert Chain(h[..n]);
    if revision <= n {
      ChainHasRevision(h[..n], revision);
    } else {
      NoSuchRevision(h[..n], revision);
    }
  }

  lemma {:induction false} NoSuchRevision(h: seq<Record>, revision: nat)
    requires forall i :: 0 <= i < |h| ==> h[i].revision != revision
    ensures AtRevision(h, revision) == None
  {
    if h != [] {
      NoSuchRevision(h[..|h| - 1], revision);
    }
  }

  /** The log holds the version a reference names; a snapshot refers to current versions. */
  ghost predicate Known(log: seq<Event>, ref: Ref) {
    1 <= ref.revision <= |History(log, ref.id)|
  }

  lemma HistoryIsChain(log: seq<Event>, id: string)
    requires Chained(log)
    ensures Chain(History(log, id))
  {
  }

  lemma SnapshotIsKnown(log: seq<Event>, project: Option<string>, r: Record)
    requires Chained(log) && Usable(Fold(log), project, r)
    ensures Known(log, RefOf(r))
    ensures Inject(log, RefOf(r)) == Some(Injected(RefOf(r), r.topic.key, r.content, r.topic.scope))
  {
    FoldIsLatest(log, r.id);
    var h := History(log, r.id);
    HistoryIsChain(log, r.id);
    ChainHasRevision(h, |h|);
    forall v | v in h && v.revision >= r.revision ensures v == r {
      var i :| 0 <= i < |h| && h[i] == v;
    }
  }

  /** A reference gives something exactly when every version from the one it names on is active. */
  lemma InjectsIff(log: seq<Event>, ref: Ref)
    requires Chained(log)
    ensures var h := History(log, ref.id);
            Inject(log, ref).Some? <==>
              Known(log, ref) && forall i :: ref.revision - 1 <= i < |h| ==> h[i].status == Active
  {
    hide Chained;
    var h := History(log, ref.id);
    HistoryIsChain(log, ref.id);
    FoldIsLatest(log, ref.id);
    if Known(log, ref) {
      ChainHasRevision(h, ref.revision);
      StoppedIff(h, ref.revision);
    } else {
      NotInChain(h, ref.revision);
    }
  }

  lemma StoppedIff(h: seq<Record>, revision: nat)
    requires Chain(h) && 1 <= revision <= |h|
    ensures Stopped(h, revision) <==> exists i :: revision - 1 <= i < |h| && h[i].status != Active
  {
    if Stopped(h, revision) {
      var r :| r in h && r.revision >= revision && r.status != Active;
      var i :| 0 <= i < |h| && h[i] == r;
      assert revision - 1 <= i;
    }
    if i :| revision - 1 <= i < |h| && h[i].status != Active {
      assert h[i] in h && h[i].revision >= revision;
    }
  }

  lemma NotInChain(h: seq<Record>, revision: nat)
    requires Chain(h) && !(1 <= revision <= |h|)
    ensures AtRevision(h, revision) == None
  {
    NoSuchRevision(h, revision);
  }

  /** What is injected for a reference is the content of the very version in the snapshot. */
  lemma InjectsSnapshottedVersion(log: seq<Event>, ref: Ref)
    requires Chained(log) && Known(log, ref) && Inject(log, ref).Some?
    ensures var r := History(log, ref.id)[ref.revision - 1];
            Inject(log, ref) == Some(Injected(ref, r.topic.key, r.content, r.topic.scope))
  {
    hide Chained, Chain, History, Fold, AtRevision, Stopped;
    HistoryIsChain(log, ref.id);
    ChainHasRevision(History(log, ref.id), ref.revision);
  }

  /** Whatever a later request injects for a reference, an earlier one injected just the same. */
  lemma InjectionOnlyShrinks(log: seq<Event>, later: seq<Event>, ref: Ref)
    requires Chained(log) && Known(log, ref) && Inject(log + later, ref).Some?
    ensures Inject(log, ref) == Inject(log + later, ref)
  {
    var h, h' := History(log, ref.id), History(log + later, ref.id);
    HistoryGrows(log, later, ref.id);
    HistoryIsChain(log, ref.id);
    ChainHasRevision(h, ref.revision);
    FirstStaysFirst(h, h', ref.revision);
    FoldIsLatest(log, ref.id);
    forall r | r in h ensures r in h' {
    }
    assert h[|h| - 1] in h;
    assert h[|h| - 1].revision >= ref.revision;
  }

  /** Within a Run, with the switch on, a later request injects a part of what an earlier one did. */
  lemma {:induction false} ContextOnlyShrinks(
    log: seq<Event>, later: seq<Event>, refs: seq<Ref>, allowed: Option<set<string>>)
    requires Chained(log) && forall i :: 0 <= i < |refs| ==> Known(log, refs[i])
    requires Fold(log).settings.enabled && Fold(log + later).settings.enabled
    ensures forall x :: x in Context(log + later, refs, allowed) ==> x in Context(log, refs, allowed)
  {
    if refs != [] {
      var n := |refs| - 1;
      ContextOnlyShrinks(log, later, refs[..n], allowed);
      if Inject(log + later, refs[n]).Some? {
        InjectionOnlyShrinks(log, later, refs[n]);
      }
      forall x | x in Context(log + later, refs, allowed) ensures x in Context(log, refs, allowed) {
        assert x in Context(log + later, refs[..n], allowed) || Some(x) == Inject(log + later, refs[n]);
      }
    }
  }

  /** A preference paused or revoked from the snapshotted version on is out for good. */
  lemma StoppedStaysOut(log: seq<Event>, later: seq<Event>, ref: Ref)
    requires Stopped(History(log, ref.id), ref.revision)
    ensures Inject(log + later, ref) == None
  {
    HistoryGrows(log, later, ref.id);
    var r :| r in History(log, ref.id) && r.revision >= ref.revision && r.status != Active;
    assert r in History(log + later, ref.id);
  }

  // ---------------------------------------------------------------- a Run from its snapshot on

  lemma KnownStaysKnown(log: seq<Event>, later: seq<Event>, ref: Ref)
    requires Known(log, ref)
    ensures Known(log + later, ref)
    ensures History(log + later, ref.id)[ref.revision - 1] == History(log, ref.id)[ref.revision - 1]
  {
    HistoryGrows(log, later, ref.id);
  }

  lemma {:induction false} InjectedComesFrom(log: seq<Event>, refs: seq<Ref>, allowed: Option<set<string>>)
    ensures |InjectAll(log, refs, allowed)| <= |refs|
    ensures forall x :: x in InjectAll(log, refs, allowed) ==> x.ref in refs && Inject(log, x.ref) == Some(x)
  {
    if refs != [] {
      InjectedComesFrom(log, refs[..|refs| - 1], allowed);
    }
  }

  lemma CurrentIsLast(log: seq<Event>, id: string)
    requires Chained(log) && id in Fold(log).records
    ensures var r := Fold(log).records[id];
            1 <= r.revision <= |History(log, id)| && History(log, id)[r.revision - 1] == r
  {
    FoldIsLatest(log, id);
    HistoryIsChain(log, id);
  }

  /** A snapshot names records at their last version. */
  lemma SnapshotNames(log: seq<Event>, refs: seq<Ref>, ref: Ref) returns (r: Record)
    requires Chained(log) && Refer(Fold(log), refs) && ref in refs
    ensures ref.id in Fold(log).records && r == Fold(log).records[ref.id] && ref == RefOf(r)
    ensures Known(log, ref) && History(log, ref.id)[ref.revision - 1] == r
  {
    KeptById(log);
    CurrentIsLast(log, ref.id);
    r := Fold(log).records[ref.id];
  }

  ghost predicate AsInjected(r: Record, x: Injected) {
    x == Injected(RefOf(r), r.topic.key, r.content, r.topic.scope)
  }

  lemma InjectsVersion(log: seq<Event>, later: seq<Event>, r: Record, x: Injected)
    requires Chained(log + later) && Known(log, RefOf(r)) && History(log, r.id)[r.revision - 1] == r
    requires Inject(log + later, RefOf(r)) == Some(x)
    ensures AsInjected(r, x)
  {
    KnownStaysKnown(log, later, RefOf(r));
    InjectsSnapshottedVersion(log + later, RefOf(r));
  }

  /** Whatever was written since the snapshot, a request injects the records as they were in it. */
  lemma InjectsAsSnapshotted(
    log: seq<Event>, later: seq<Event>, refs: seq<Ref>, x: Injected)
    requires Chained(log) && Chained(log + later) && Refer(Fold(log), refs)
    requires x.ref in refs && Inject(log + later, x.ref) == Some(x)
    ensures x.ref.id in Fold(log).records && AsInjected(Fold(log).records[x.ref.id], x)
  {
    var r := SnapshotNames(log, refs, x.ref);
    InjectsVersion(log, later, r, x);
  }

  /** Each record of a snapshot is injected by the next request that may use it, in the snapshot's order. */
  lemma {:induction false} SnapshotIsInjected(
    log: seq<Event>, refs: seq<Ref>, allowed: Option<set<string>>, project: Option<string>)
    requires Chained(log) && Refer(Fold(log), refs)
    requires forall i :: 0 <= i < |refs| ==>
               Usable(Fold(log), project, Fold(log).records[refs[i].id]) && MayUse(allowed, refs[i].id)
    ensures var all := InjectAll(log, refs, allowed);
            && |all| == |refs|
            && forall i :: 0 <= i < |refs| ==> AsInjected(Fold(log).records[refs[i].id], all[i])
  {
    hide Inject, Usable, Chained;
    if refs != [] {
      var n := |refs| - 1;
      SnapshotIsInjected(log, refs[..n], allowed, project);
      SnapshotIsKnown(log, project, Fold(log).records[refs[n].id]);
    }
  }

  lemma TakenIsUsable(log: seq<Event>, project: Option<string>, refs: seq<Ref>, i: nat)
    requires TakenAt(log, project, refs) && Fold(log).settings.enabled && i < |refs|
    ensures Usable(Fold(log), project, Fold(log).records[refs[i].id])
  {
    var chosen := RecordsOf(Fold(log), refs);
    assert chosen[i] in chosen;
  }

  /** Right after the snapshot, a request that may use all of it injects exactly its records. */
  lemma FirstRequestInjectsAll(
    log: seq<Event>, project: Option<string>, refs: seq<Ref>, allowed: Option<set<string>>)
    requires Chained(log) && TakenAt(log, project, refs) && Fold(log).settings.enabled
    requires forall i :: 0 <= i < |refs| ==> MayUse(allowed, refs[i].id)
    ensures var all := Context(log, refs, allowed);
            && |all| == |refs| && Refer(Fold(log), refs)
            && forall i :: 0 <= i < |refs| ==> AsInjected(Fold(log).records[refs[i].id], all[i])
  {
    hide Chained, SnapshotOf, Usable, InjectAll;
    forall i | 0 <= i < |refs| ensures Usable(Fold(log), project, Fold(log).records[refs[i].id]) {
      TakenIsUsable(log, project, refs, i);
    }
    SnapshotIsInjected(log, refs, allowed, project);
  }

  lemma {:induction false} RunGrows(rules: Rules, cs: seq<Command>, n: nat)
    requires n <= |cs|
    ensures Run(rules, cs[..n]) <= Run(rules, cs)
    ensures AllLegal(rules, cs) ==> AllLegal(rules, cs[..n])
    decreases |cs|
  {
    if n == |cs| {
      assert cs[..n] == cs;
    } else {
      RunGrows(rules, cs[..|cs| - 1], n);
      assert cs[..|cs| - 1][..n] == cs[..n];
    }
  }

  /** What a request late in the log injects, against the snapshot and against an earlier request. */
  ghost predicate Governed(
    first: seq<Event>, early: seq<Event>, late: seq<Event>, refs: seq<Ref>, allowed: Option<set<string>>)
  {
    && |Context(late, refs, allowed)| <= 12
    && (forall x :: x in Context(late, refs, allowed) ==>
          x.ref.id in Fold(first).records && AsInjected(Fold(first).records[x.ref.id], x))
    && (Fold(early).settings.enabled ==>
          forall x :: x in Context(late, refs, allowed) ==> x in Context(early, refs, allowed))
    && (forall x :: x in Context(late, refs, allowed) ==> !Stopped(History(early, x.ref.id), x.ref.revision))
  }

  lemma LateInjected(first: seq<Event>, early: seq<Event>, late: seq<Event>, refs: seq<Ref>, x: Injected)
    requires first <= early <= late && Chained(first) && Chained(late) && Refer(Fold(first), refs)
    requires x.ref in refs && Inject(late, x.ref) == Some(x)
    ensures x.ref.id in Fold(first).records && AsInjected(Fold(first).records[x.ref.id], x)
    ensures !Stopped(History(early, x.ref.id), x.ref.revision)
  {
    assert late == first + late[|first|..] && late == early + late[|early|..];
    InjectsAsSnapshotted(first, late[|first|..], refs, x);
    if Stopped(History(early, x.ref.id), x.ref.revision) {
      StoppedStaysOut(early, late[|early|..], x.ref);
    }
  }

  lemma SnapshotStaysKnown(first: seq<Event>, early: seq<Event>, refs: seq<Ref>)
    requires first <= early && Chained(first) && Refer(Fold(first), refs)
    ensures forall i :: 0 <= i < |refs| ==> Known(early, refs[i])
  {
    assert early == first + early[|first|..];
    forall i | 0 <= i < |refs| ensures Known(early, refs[i]) {
      var r := SnapshotNames(first, refs, refs[i]);
      KnownStaysKnown(first, early[|first|..], refs[i]);
    }
  }

  lemma LogsGovern(
    first: seq<Event>, early: seq<Event>, late: seq<Event>, refs: seq<Ref>, allowed: Option<set<string>>)
    requires first <= early <= late && Chained(first) && Chained(early) && Chained(late)
    requires Refer(Fold(first), refs) && |refs| <= MAX_SNAPSHOT
    ensures Governed(first, early, late, refs, allowed)
  {
    InjectedComesFrom(late, refs, allowed);
    forall x | x in Context(late, refs, allowed)
      ensures x.ref.id in Fold(first).records && AsInjected(Fold(first).records[x.ref.id], x)
      ensures !Stopped(History(early, x.ref.id), x.ref.revision)
    {
      LateInjected(first, early, late, refs, x);
    }
    if Fold(early).settings.enabled && Fold(late).settings.enabled {
      SnapshotStaysKnown(first, early, refs);
      assert late == early + late[|early|..];
      ContextOnlyShrinks(early, late[|early|..], refs, allowed);
    }
  }

  /**
   * A Run that took its snapshot at one point of any run of commands: at every later point a request injects at
   * most twelve preferences, with the contents of the snapshot, no more than a request in between did, and none
   * that was paused or revoked by then.
   */
  lemma SnapshotGovernsRun(
    rules: Rules, cs: seq<Command>, first: nat, early: nat, project: Option<string>, refs: seq<Ref>,
    allowed: Option<set<string>>)
    requires first <= early <= |cs| && AllLegal(rules, cs)
    requires TakenAt(Run(rules, cs[..first]), project, refs)
    ensures Governed(Run(rules, cs[..first]), Run(rules, cs[..early]), Run(rules, cs), refs, allowed)
  {
    RunGrows(rules, cs, early);
    RunGrows(rules, cs[..early], first);
    assert cs[..early][..first] == cs[..first];
    LogsAreSound(rules, cs[..first]);
    LogsAreSound(rules, cs[..early]);
    LogsAreSound(rules, cs);
    LogsGovern(Run(rules, cs[..first]), Run(rules, cs[..early]), Run(rules, cs), refs, allowed);
  }
}
