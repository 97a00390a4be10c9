/** Who owns a request: parent chains, service probes, and the two walks that look for the root Run. */
module Ownership {
  import opened Common
  import opened Budgets

  datatype RunRow = RunRow(session: string, continuationOf: string)

  /** The parts of the runtime store these modules read; each transaction appends to `log`. */
  datatype Store = Store(
    log: seq<Event>,
    runs: map<string, RunRow>,
    over: set<string>,                 // Runs with a terminal fact
    sessions: map<string, string>,     // session -> workspace
    workspaces: map<string, string>)   // workspace -> project

  predicate IsRunFact(e: Event) {
    e.RunAdmitted? || e.RunStarted?
  }

  /** A run.admitted or run.started fact of one Run. */
  datatype Occasion = Occasion(started: bool, intent: Intent)

  function RunFacts(log: seq<Event>, run: string): seq<Occasion> {
    if log == [] then []
    else RunFacts(log[..|log| - 1], run)
         + (var e := log[|log| - 1];
            if IsRunFact(e) && e.run == run then [Occasion(e.RunStarted?, e.intent)] else [])
  }

  function Controls(log: seq<Event>, session: string): seq<string> {
    if log == [] then []
    else Controls(log[..|log| - 1], session)
         + (var e := log[|log| - 1];
            if e.ControlSession? && e.session == session then [e.kind] else [])
  }

  predicate Independent(i: Intent) {
    i.parent == "" && i.deliveryId == "" && i.writerDelivery == ""
  }

  /**
   * A standalone connection check, the only Run that may omit its project: its session is a probe
   * control session and its one fact is a service-billed start that names no owner.
   */
  predicate IsServiceProbe(s: Store, run: string) {
    && run in s.runs && s.runs[run].continuationOf == ""
    && Controls(s.log, s.runs[run].session) == ["connection_probe"]
    && var facts := RunFacts(s.log, run);
    && |facts| == 1 && facts[0].started
    && facts[0].intent.source == "connection_probe" && facts[0].intent.billing == "service"
    && facts[0].intent.project in {Unstated, Stated(None)}
    && Independent(facts[0].intent)
  }

  // ---------------------------------------------------------------- the ledger's walk

  /** Parent of every Run that names one; two different names for one Run are an error. */
  function Parents(log: seq<Event>): Result<map<string, string>> {
    if log == [] then Ok(map[])
    else
      var m :- Parents(log[..|log| - 1]);
      var e := log[|log| - 1];
      if IsRunFact(e) && e.run != "" && e.intent.parent != "" then
        if e.run in m && m[e.run] != e.intent.parent then Err("Conflicting parent Run identity")
        else Ok(m[e.run := e.intent.parent])
      else Ok(m)
  }

  method ReadParents(log: seq<Event>) returns (r: Result<map<string, string>>)
    ensures r == Parents(log)
  {
    var parents: map<string, string> := map[];
    for i := 0 to |log|
      invariant Parents(log[..i]) == Ok(parents)
    {
      assert log[..i + 1][..i] == log[..i];
      ParentsPrefixError(log, i + 1);
      var e := log[i];
      if IsRunFact(e) && e.run != "" && e.intent.parent != "" {
        if e.run in parents && parents[e.run] != e.intent.parent {
          return Err("Conflicting parent Run identity");
        }
        parents := parents[e.run := e.intent.parent];
      }
    }
    assert log[..|log|] == log;
    r := Ok(parents);
  }

  lemma {:induction false} ParentsPrefixError(log: seq<Event>, i: nat)
    requires i <= |log|
    ensures Parents(log[..i]).Err? ==> Parents(log) == Parents(log[..i])
    decreases |log|
  {
    if i == |log| {
      assert log[..i] == log;
    } else {
      assert log[..|log| - 1][..i] == log[..i];
      ParentsPrefixError(log[..|log| - 1], i);
    }
  }

  function StatedParents(facts: seq<Occasion>): set<string> {
    set f | f in facts && f.intent.parent != "" :: f.intent.parent
  }

  /** The parent map holds exactly the parent links the log states for each Run. */
  lemma {:induction false} ParentsExact(log: seq<Event>, a: string)
    requires Parents(log).Ok? && a != ""
    ensures var m := Parents(log).value;
            StatedParents(RunFacts(log, a)) == if a in m then {m[a]} else {}
  {
    if log != [] {
      var n := |log| - 1;
      ParentsExact(log[..n], a);
      var before := RunFacts(log[..n], a);
      if IsRunFact(log[n]) && log[n].run == a {
        var next := Occasion(log[n].RunStarted?, log[n].intent);
        assert RunFacts(log, a) == before + [next];
        assert StatedParents(before + [next])
            == StatedParents(before) + (if next.intent.parent != "" then {next.intent.parent} else {});
      } else {
        assert RunFacts(log, a) == before;
      }
    }
  }

  function Walk(
    parents: map<string, string>, runs: set<string>, a: string, visited: set<string>): Result<string>
    decreases parents.Keys - visited
  {
    if a !in parents then Ok(a)
    else if a in visited then Err("Cyclic parent Run identity")
    else if parents[a] !in runs then Err("Missing parent Run")
    else Walk(parents, runs, parents[a], visited + {a})
  }

  /** The ancestor loop of the ledger. */
  method FindRoot(parents: map<string, string>, runs: set<string>, run: string)
    returns (r: Result<string>)
    ensures r == Walk(parents, runs, run, {})
  {
    var ancestor := run;
    var visited: set<string> := {};
    while ancestor in parents
      invariant Walk(parents, runs, run, {}) == Walk(parents, runs, ancestor, visited)
      decreases parents.Keys - visited
    {
      if ancestor in visited {
        return Err("Cyclic parent Run identity");
      }
      visited := visited + {ancestor};
      ancestor := parents[ancestor];
      if ancestor !in runs {
        return Err("Missing parent Run");
      }
    }
    r := Ok(ancestor);
  }

  /** A chain of parent links from its first Run to one without a parent. */
  ghost predicate RootPath(parents: map<string, string>, runs: set<string>, path: seq<string>) {
    && path != []
    && path[|path| - 1] !in parents
    && (forall i {:trigger path[i]} :: 0 <= i < |path| - 1 ==>
          path[i] in parents && path[i + 1] == parents[path[i]] && path[i + 1] in runs)
  }

  /** The walk answers `r` exactly when a chain of known parents leads from the Run to `r`. */
  lemma WalkFindsRoot(parents: map<string, string>, runs: set<string>, run: string, r: string)
    ensures Walk(parents, runs, run, {}) == Ok(r)
       <==> exists path :: RootPath(parents, runs, path) && path[0] == run && path[|path| - 1] == r
  {
    if Walk(parents, runs, run, {}) == Ok(r) {
      var path := WalkPath(parents, runs, run, {}, r);
    }
    if path :| RootPath(parents, runs, path) && path[0] == run && path[|path| - 1] == r {
      PathDistinct(parents, runs, path);
      PathWalk(parents, runs, path, {});
    }
  }

  lemma {:induction false} WalkPath(
    parents: map<string, string>, runs: set<string>, a: string, visited: set<string>, r: string)
    returns (path: seq<string>)
    requires Walk(parents, runs, a, visited) == Ok(r)
    ensures RootPath(parents, runs, path) && path[0] == a && path[|path| - 1] == r
    decreases parents.Keys - visited
  {
    if a !in parents {
      path := [a];
    } else {
      var rest := WalkPath(parents, runs, parents[a], visited + {a}, r);
      path := [a] + rest;
    }
  }

  /** Two equal Runs on a chain would never let it end. */
  lemma {:induction false} PathDistinct(
    parents: map<string, string>, runs: set<string>, path: seq<string>)
    requires RootPath(parents, runs, path)
    ensures Distinct(path)
    decreases |path|
  {
    if |path| > 1 {
      PathTail(parents, runs, path);
      PathDistinct(parents, runs, path[1..]);
      assert path[0] in parents && path[1] == parents[path[0]];
      forall j | 0 < j < |path| ensures path[0] != path[j] {
        if j < |path| - 1 {
          assert path[j] in parents && path[j + 1] == parents[path[j]];
          assert path[1..][0] != path[1..][j];
        }
      }
      forall i, j | 0 <= i < j < |path| ensures path[i] != path[j] {
        if i > 0 {
          assert path[1..][i - 1] != path[1..][j - 1];
        }
      }
    }
  }

  lemma PathTail(parents: map<string, string>, runs: set<string>, path: seq<string>)
    requires RootPath(parents, runs, path) && |path| > 1
    ensures RootPath(parents, runs, path[1..])
  {
    var rest := path[1..];
    forall i {:trigger rest[i]} | 0 <= i < |rest| - 1
      ensures rest[i] in parents && rest[i + 1] == parents[rest[i]] && rest[i + 1] in runs
    {
      assert rest[i] == path[i + 1] && rest[i + 1] == path[i + 1 + 1];
    }
  }

  lemma {:induction false} PathWalk(
    parents: map<string, string>, runs: set<string>, path: seq<string>, visited: set<string>)
    requires RootPath(parents, runs, path) && Distinct(path)
    requires forall a :: a in path ==> a !in visited
    ensures Walk(parents, runs, path[0], visited) == Ok(path[|path| - 1])
    decreases |path|
  {
    if |path| > 1 {
      PathTail(parents, runs, path);
      assert path[0] in parents && path[1] == parents[path[0]];
      forall a | a in path[1..] ensures a !in visited + {path[0]} {
        var j :| 0 <= j < |path[1..]| && path[1..][j] == a;
        assert path[j + 1] == a;
      }
      PathWalk(parents, runs, path[1..], visited + {path[0]});
    }
  }

  // ---------------------------------------------------------------- the controller's walk

  function StatedDeliveries(facts: seq<Occasion>): set<string> {
    set f | f in facts && f.intent.writerDelivery != "" :: f.intent.writerDelivery
  }

  predicate Ambiguous(s: set<string>) {
    exists x, y :: x in s && y in s && x != y
  }

  function OnlyOne(s: set<string>): (x: string)
    requires s != {} && !Ambiguous(s)
    ensures s == {x}
  {
    var x :| x in s;
    x
  }

  /** One round of the controller's loop: an error, the next ancestor, or the final context. */
  datatype Climb = Stop(error: string) | Up(parent: string, project: string) | Top(context: Context)

  /** The workspace a delivery was prepared from, and its checkout. */
  datatype Prepared = Prepared(workspace: string, checkout: string)

  /** Preparations of each delivery, the path of each workspace, and the Runs that repair a delivery. */
  datatype Deliveries = Deliveries(
    prepared: string -> seq<Prepared>, path: string -> string, repairs: string -> bool)

  /** Why a Run may not charge a delivery: it works in the delivery's checkout, or repairs it at its source. */
  function DeliveryProblem(s: Store, records: Deliveries, delivery: string, run: string): Option<string>
    requires run in s.runs && s.runs[run].session in s.sessions
             && s.sessions[s.runs[run].session] in s.workspaces
  {
    var workspace, prepared := s.sessions[s.runs[run].session], records.prepared(delivery);
    if |prepared| != 1 then Some("Missing delivery budget owner")
    else if prepared[0].workspace !in s.workspaces then Some("Workspace not found")
    else if s.workspaces[prepared[0].workspace] != s.workspaces[workspace] then
      Some("Delivery project identity mismatch")
    else if prepared[0].checkout != records.path(workspace)
            && (!records.repairs(run) || prepared[0].workspace != workspace) then
      Some("Run does not own the delivery checkout")
    else None
  }

  function ClimbOnce(
    s: Store, a: string, project: Option<string>, records: Deliveries): Climb
  {
    if a !in s.runs || s.runs[a].session !in s.sessions
       || s.sessions[s.runs[a].session] !in s.workspaces then Stop("Missing budget owner")
    else
      var owner := s.workspaces[s.sessions[s.runs[a].session]];
      var facts := RunFacts(s.log, a);
      if facts == [] then Stop("Run has no admitted budget owner")
      else if exists f :: f in facts && f.intent.project != Unstated
                          && f.intent.project != Stated(Some(owner)) then
        Stop("Admitted project identity mismatch")
      else if project.Some? && project.value != owner then
        Stop("Child Run changed project ownership")
      else
        var parents := StatedParents(facts);
        if Ambiguous(parents) then Stop("Conflicting parent Run identity")
        else if parents != {} then Up(OnlyOne(parents), owner)
        else
          var deliveries := StatedDeliveries(facts);
          if Ambiguous(deliveries) then Stop("Conflicting delivery identity")
          else if deliveries == {} then Top(Context(Some(owner), a, None))
          else
            match DeliveryProblem(s, records, OnlyOne(deliveries), a)
            case Some(e) => Stop(e)
            case None => Top(Context(Some(owner), a, Some(OnlyOne(deliveries))))
  }

  function ClimbFrom(
    s: Store, a: string, visited: set<string>, project: Option<string>,
    records: Deliveries): Result<Context>
    decreases s.runs.Keys - visited
  {
    if a in visited then Err("Cyclic parent Run identity")
    else
      match ClimbOnce(s, a, project, records)
      case Stop(e) => Err(e)
      case Up(parent, owner) => ClimbFrom(s, parent, visited + {a}, Some(owner), records)
      case Top(context) => Ok(context)
  }

  /** The controller's resolution of a Run to its session and budget context. */
  function ControllerContext(
    s: Store, run: string, records: Deliveries): Result<(string, Context)>
  {
    if run !in s.runs then Err("Run not found")
    else if IsServiceProbe(s, run) then Ok((s.runs[run].session, Context(None, run, None)))
    else
      var context :- ClimbFrom(s, run, {}, None, records);
      Ok((s.runs[run].session, context))
  }

  /** The controller's loop over ancestors. */
  method ResolveContext(s: Store, run: string, records: Deliveries)
    returns (r: Result<(string, Context)>)
    ensures r == ControllerContext(s, run, records)
  {
    if run !in s.runs {
      return Err("Run not found");
    }
    if IsServiceProbe(s, run) {
      return Ok((s.runs[run].session, Context(None, run, None)));
    }
    var ancestor := run;
    var visited: set<string> := {};
    var project: Option<string> := None;
    while true
      invariant ClimbFrom(s, run, {}, None, records) == ClimbFrom(s, ancestor, visited, project, records)
      decreases s.runs.Keys - visited
    {
      if ancestor in visited {
        return Err("Cyclic parent Run identity");
      }
      visited := visited + {ancestor};
      match ClimbOnce(s, ancestor, project, records) {
        case Stop(e) => return Err(e);
        case Up(parent, owner) =>
          project := Some(owner);
          ancestor := parent;
        case Top(context) => return Ok((s.runs[run].session, context));
      }
    }
  }

  /** The project of the workspace that a Run's session is in. */
  ghost predicate WorksIn(s: Store, run: string, project: string) {
    && run in s.runs && s.runs[run].session in s.sessions && s.sessions[s.runs[run].session] in s.workspaces
    && s.workspaces[s.sessions[s.runs[run].session]] == project
  }

  /** The facts of a Run name this delivery and no other, or none at all. */
  ghost predicate StatesDelivery(facts: seq<Occasion>, delivery: Option<string>) {
    && (forall f :: f in facts && f.intent.writerDelivery != "" ==> Some(f.intent.writerDelivery) == delivery)
    && (delivery.Some? ==> exists f :: f in facts && f.intent.writerDelivery == delivery.value != "")
  }

  lemma TopStates(s: Store, a: string, project: Option<string>, records: Deliveries)
    requires ClimbOnce(s, a, project, records).Top?
    ensures var c := ClimbOnce(s, a, project, records).context;
            && c.root == a && c.project.Some? && WorksIn(s, a, c.project.value)
            && (project.Some? ==> c.project == project)
            && StatesDelivery(RunFacts(s.log, a), c.delivery)
            && (c.delivery.Some? ==> DeliveryProblem(s, records, c.delivery.value, a).None?)
  {
    var facts := RunFacts(s.log, a);
    forall f | f in facts && f.intent.writerDelivery != "" ensures f.intent.writerDelivery in StatedDeliveries(facts) {
    }
  }

  lemma UpKeepsProject(s: Store, a: string, project: Option<string>, records: Deliveries)
    requires ClimbOnce(s, a, project, records).Up?
    ensures var owner := ClimbOnce(s, a, project, records).project;
            WorksIn(s, a, owner) && (project.Some? ==> project.value == owner)
  {
  }

  /**
   * The resolved context is the root's: the project of the root's own workspace, which is the Run's as well, and
   * the one delivery that the root's facts state and that it may charge.
   */
  lemma {:induction false} ClimbStates(
    s: Store, a: string, visited: set<string>, project: Option<string>, records: Deliveries)
    requires ClimbFrom(s, a, visited, project, records).Ok?
    ensures var c := ClimbFrom(s, a, visited, project, records).value;
            && c.project.Some? && WorksIn(s, c.root, c.project.value) && WorksIn(s, a, c.project.value)
            && (project.Some? ==> c.project == project)
            && StatesDelivery(RunFacts(s.log, c.root), c.delivery)
            && (c.delivery.Some? ==> DeliveryProblem(s, records, c.delivery.value, c.root).None?)
    decreases s.runs.Keys - visited
  {
    hide StatesDelivery, DeliveryProblem, RunFacts;
    match ClimbOnce(s, a, project, records) {
      case Up(parent, owner) =>
        UpKeepsProject(s, a, project, records);
        ClimbStates(s, parent, visited + {a}, Some(owner), records);
      case Top(_) =>
        TopStates(s, a, project, records);
      case Stop(_) =>
    }
  }

  /** Each round of the controller follows the very link the ledger's parent map holds. */
  lemma ClimbFollowsParents(
    s: Store, a: string, project: Option<string>, records: Deliveries)
    requires Parents(s.log).Ok? && a != ""
    ensures match ClimbOnce(s, a, project, records)
            case Stop(_) => true
            case Up(parent, _) =>
              a in Parents(s.log).value && Parents(s.log).value[a] == parent
            case Top(context) => a !in Parents(s.log).value && context.root == a
  {
    ParentsExact(s.log, a);
  }

  /** When both the parent map and the climb succeed, the two walks agree on the root. */
  lemma {:induction false} WalksAgree(
    s: Store, a: string, visited: set<string>, project: Option<string>,
    records: Deliveries)
    requires Parents(s.log).Ok? && "" !in s.runs
    requires ClimbFrom(s, a, visited, project, records).Ok?
    ensures Walk(Parents(s.log).value, s.runs.Keys, a, visited)
         == Ok(ClimbFrom(s, a, visited, project, records).value.root)
    decreases s.runs.Keys - visited
  {
    assert a in s.runs;
    ClimbFollowsParents(s, a, project, records);
    match ClimbOnce(s, a, project, records) {
      case Up(parent, owner) =>
        WalksAgree(s, parent, visited + {a}, Some(owner), records);
        assert parent in s.runs;
      case Top(context) =>
      case Stop(_) =>
    }
  }

  /** The root the controller resolves is the one the ledger demands, or the log itself is refused. */
  lemma ControllerRootIsLedgerRoot(s: Store, run: string, records: Deliveries)
    requires "" !in s.runs && Parents(s.log).Ok?
    requires ControllerContext(s, run, records).Ok?
    ensures Walk(Parents(s.log).value, s.runs.Keys, run, {})
         == Ok(ControllerContext(s, run, records).value.1.root)
  {
    if IsServiceProbe(s, run) {
      ParentsExact(s.log, run);
      assert StatedParents(RunFacts(s.log, run)) == {};
    } else {
      WalksAgree(s, run, {}, None, records);
    }
  }
}
