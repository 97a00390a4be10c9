/** What a Run must have to itself while it executes, and the key under which it holds it. */
module ExecutionKeys {
  import opened Common
  import opened Scheduling

  function OperationTag(kind: Operation): string {
    match kind
    case Evaluation => "evaluation_run"
    case Index => "index_run"
    case WorktreeControl => "worktree_control_run"
    case HistoryImport => "history_import_run"
    case PythonExperiment => "python_experiment_run"
  }

  /** The key of a Run's workspace, copy or control operation. */
  function ExecutionKey(run: string, intent: Intent): string {
    match intent.binding
    case DeliveryBinding(delivery) => "delivery_operation" + ":" + delivery
    case OperationBinding(kind) => OperationTag(kind) + ":" + run
    case SandboxBinding(sandbox) => "sandbox" + ":" + sandbox
    case SnapshotBinding => "snapshot_run" + ":" + run
    case WorktreeBinding(workspace) => workspace
    case NoBinding => intent.workspace
  }

  function KeyOf(e: QueueEntry): string {
    ExecutionKey(e.run, e.intent)
  }

  // ---------------------------------------------------------------- resources

  /** Files on disk, a copy, a delivery, or nothing that another Run could share. */
  datatype Resource = Checkout(workspace: string) | Sandbox(id: string) | Delivery(id: string) | OwnOf(run: string)

  function ResourceOf(e: QueueEntry): Resource {
    match e.intent.binding
    case NoBinding => Checkout(e.intent.workspace)
    case WorktreeBinding(workspace) => Checkout(workspace)
    case SandboxBinding(sandbox) => Sandbox(sandbox)
    case DeliveryBinding(delivery) => Delivery(delivery)
    case _ => OwnOf(e.run)
  }

  /** Different Runs that need one resource have one key. */
  lemma SharedResourceSharesKey(a: QueueEntry, b: QueueEntry)
    requires ResourceOf(a) == ResourceOf(b) && a.run != b.run
    ensures KeyOf(a) == KeyOf(b)
  {
  }

  // ---------------------------------------------------------------- keys can be read back

  /** A key with a tag, or the plain name of a workspace. */
  datatype Key = Tagged(tag: string, rest: string) | Plain(name: string)

  function Text(k: Key): string {
    match k
    case Tagged(tag, rest) => tag + ":" + rest
    case Plain(name) => name
  }

  ghost predicate NoColon(k: Key) {
    match k
    case Tagged(tag, _) => ':' !in tag
    case Plain(name) => ':' !in name
  }

  function UptoColon(s: string): string {
    if s == "" || s[0] == ':' then "" else [s[0]] + UptoColon(s[1..])
  }

  lemma {:induction false} UptoColonOf(tag: string, rest: string)
    requires ':' !in tag
    ensures UptoColon(tag + ":" + rest) == tag
  {
    if tag == "" {
      assert tag + ":" + rest == ":" + rest;
    } else {
      UptoColonOf(tag[1..], rest);
      assert (tag + ":" + rest)[1..] == tag[1..] + ":" + rest;
    }
  }

  lemma ColonIffTagged(k: Key)
    requires NoColon(k)
    ensures ':' in Text(k) <==> k.Tagged?
  {
    if k.Tagged? {
      assert Text(k)[|k.tag|] == ':';
    }
  }

  lemma TextInjective(k: Key, l: Key)
    requires NoColon(k) && NoColon(l) && Text(k) == Text(l)
    ensures k == l
  {
    ColonIffTagged(k);
    ColonIffTagged(l);
    if k.Tagged? {
      UptoColonOf(k.tag, k.rest);
      UptoColonOf(l.tag, l.rest);
      assert Text(k)[|k.tag| + 1..] == k.rest && Text(l)[|l.tag| + 1..] == l.rest;
    }
  }

  function Tags(e: QueueEntry): Key {
    match e.intent.binding
    case DeliveryBinding(delivery) => Tagged("delivery_operation", delivery)
    case OperationBinding(kind) => Tagged(OperationTag(kind), e.run)
    case SandboxBinding(sandbox) => Tagged("sandbox", sandbox)
    case SnapshotBinding => Tagged("snapshot_run", e.run)
    case WorktreeBinding(workspace) => Plain(workspace)
    case NoBinding => Plain(e.intent.workspace)
  }

  lemma OperationTagIsPlain(kind: Operation)
    ensures ':' !in OperationTag(kind)
  {
    match kind {
      case Evaluation => assert ':' !in "evaluation_run";
      case Index => assert ':' !in "index_run";
      case WorktreeControl => assert ':' !in "worktree_control_run";
      case HistoryImport => assert ':' !in "history_import_run";
      case PythonExperiment => assert ':' !in "python_experiment_run";
    }
  }

  lemma OtherTagsArePlain()
    ensures ':' !in "delivery_operation" && ':' !in "sandbox" && ':' !in "snapshot_run"
  {
  }

  lemma KeyIsTagged(e: QueueEntry)
    requires ResourceOf(e).Checkout? ==> ':' !in ResourceOf(e).workspace
    ensures Text(Tags(e)) == KeyOf(e) && NoColon(Tags(e))
  {
    hide OperationTag;
    OtherTagsArePlain();
    if e.intent.binding.OperationBinding? {
      OperationTagIsPlain(e.intent.binding.kind);
    }
  }

  lemma TagsAreResources(a: QueueEntry, b: QueueEntry)
    requires Tags(a) == Tags(b)
    ensures ResourceOf(a) == ResourceOf(b)
  {
    if Tags(a).Tagged? {
      var x, y := Tags(a).tag, Tags(b).tag;
      assert x[0] == y[0] && |x| == |y|;
    }
  }

  /** One key is one resource, as long as no workspace has a name with a colon in it. */
  lemma SharedKeySharesResource(a: QueueEntry, b: QueueEntry)
    requires KeyOf(a) == KeyOf(b)
    requires ResourceOf(a).Checkout? ==> ':' !in ResourceOf(a).workspace
    requires ResourceOf(b).Checkout? ==> ':' !in ResourceOf(b).workspace
    ensures ResourceOf(a) == ResourceOf(b)
  {
    KeyIsTagged(a);
    KeyIsTagged(b);
    TextInjective(Tags(a), Tags(b));
    TagsAreResources(a, b);
  }
}
