/** The two paths by which GitHub activity arrives, and the store they share. */
module GithubPaths {
  import opened Common

  // Repository names are compared after case folding, so one number stands for all spellings of a name.

  // A timestamp field: absent or empty, malformed, without an offset, or with one.
  datatype Stamp = Absent | Malformed | Naive(at: int) | Aware(at: int)

  /** The webhook path reads a timestamp without an offset as UTC. */
  function WebhookTime(stamp: Stamp): Option<int> {
    match stamp
    case Naive(at) => Some(at)
    case Aware(at) => Some(at)
    case _ => None
  }

  /** The REST path refuses it. */
  function RestTime(stamp: Stamp): Option<int> {
    if stamp.Aware? then Some(stamp.at) else None
  }

  function OrElse<T>(value: Option<T>, fallback: T): T {
    if value.Some? then value.value else fallback
  }

  datatype Conclusion = Success | Failure | Cancelled | TimedOut | ActionRequired | StartupFailure | OtherConclusion(text: nat)

  predicate Reported(conclusion: Conclusion) {
    !conclusion.OtherConclusion?
  }

  datatype DeploymentState = Succeeded | Failed | Errored | OtherState(text: nat)

  // Ids that are missing or not integers read as zero, a missing attempt as one.
  datatype Pull = Pull(number: int, merged: bool, createdAt: Stamp, mergedAt: Stamp)

  datatype RunStatus = InProgress | Completed | OtherStatus(text: nat)

  datatype WorkflowRun = WorkflowRun(
    id: int, attempt: int, status: RunStatus, conclusion: Conclusion,
    startedAt: Stamp, createdAt: Stamp, updatedAt: Stamp, completedAt: Stamp)

  datatype DeploymentStatus = DeploymentStatus(deployment: int, status: int, state: DeploymentState, createdAt: Stamp)

  datatype EventType =
    | PushReceived | PullOpened | PullMerged | WorkflowStarted | WorkflowCompleted | WorkflowFailed
    | DeploymentCompleted | DeploymentFailed

  // The part of the dedupe key after the repository.
  datatype Identity =
    | PushIdentity(after: nat)
    | UnknownPushIdentity(delivery: nat)
    | OpenedIdentity(number: int)
    | MergedIdentity(number: int)
    | StartedIdentity(run: int, attempt: int)
    | ConcludedIdentity(run: int, attempt: int, conclusion: Conclusion)
    | DeploymentIdentity(deployment: int, state: DeploymentState, status: int)

  datatype Key = Key(repository: nat, identity: Identity)

  datatype Mark =
    | OpenedMark(repository: nat, number: int)
    | MergedMark(repository: nat, number: int)
    | StartedMark(repository: nat, run: int, attempt: int)
    | CompletedMark(repository: nat, run: int, attempt: int)
    | DeploymentMark(repository: nat, deployment: int, state: DeploymentState)
    | DeliveryMark(delivery: nat)

  datatype Change = Change(event: EventType, key: Key, mark: Option<Mark>, occurredAt: int)

  // ---------------------------------------------------------------- webhooks

  datatype Webhook =
    | Push(after: Option<nat>, timestamp: Stamp)
    | PullOpenedAction(pull: Pull)
    | PullClosedAction(pull: Pull)
    | RunInProgressAction(run: WorkflowRun)
    | RunCompletedAction(run: WorkflowRun)
    | DeploymentStatusAction(status: DeploymentStatus)
    | Irrelevant

  function Opened(repository: nat, pull: Pull, at: int): Change {
    Change(PullOpened, Key(repository, OpenedIdentity(pull.number)), Some(OpenedMark(repository, pull.number)), at)
  }

  function Merged(repository: nat, pull: Pull, at: int): Change {
    Change(PullMerged, Key(repository, MergedIdentity(pull.number)), Some(MergedMark(repository, pull.number)), at)
  }

  function Started(repository: nat, run: WorkflowRun, at: int): Change {
    Change(WorkflowStarted, Key(repository, StartedIdentity(run.id, run.attempt)),
           Some(StartedMark(repository, run.id, run.attempt)), at)
  }

  function Concluded(repository: nat, run: WorkflowRun, at: int): Change {
    Change(if run.conclusion.Success? then WorkflowCompleted else WorkflowFailed,
           Key(repository, ConcludedIdentity(run.id, run.attempt, run.conclusion)),
           Some(CompletedMark(repository, run.id, run.attempt)), at)
  }

  function Deployed(repository: nat, s: DeploymentStatus, at: int): Change {
    Change(if s.state.Succeeded? then DeploymentCompleted else DeploymentFailed,
           Key(repository, DeploymentIdentity(s.deployment, s.state, s.status)),
           Some(DeploymentMark(repository, s.deployment, s.state)), at)
  }

  function WebhookStart(run: WorkflowRun, observedAt: int): int {
    OrElse(WebhookTime(run.startedAt), OrElse(WebhookTime(run.createdAt), observedAt))
  }

  function NormalizeWebhook(webhook: Webhook, repository: nat, delivery: nat, observedAt: int): seq<Change> {
    match webhook
    case Push(after, timestamp) =>
      var identity := if after.Some? then PushIdentity(after.value) else UnknownPushIdentity(delivery);
      [Change(PushReceived, Key(repository, identity), None, OrElse(WebhookTime(timestamp), observedAt))]
    case PullOpenedAction(pull) =>
      if pull.number < 1 then [] else [Opened(repository, pull, OrElse(WebhookTime(pull.createdAt), observedAt))]
    case PullClosedAction(pull) =>
      if pull.number < 1 || !pull.merged then []
      else [Merged(repository, pull, OrElse(WebhookTime(pull.mergedAt), observedAt))]
    case RunInProgressAction(run) =>
      if run.id < 1 then [] else [Started(repository, run, WebhookStart(run, observedAt))]
    case RunCompletedAction(run) =>
      if run.id < 1 || !Reported(run.conclusion) then []
      else [Started(repository, run, WebhookStart(run, observedAt)),
            Concluded(repository, run,
                      OrElse(WebhookTime(run.updatedAt), OrElse(WebhookTime(run.completedAt), observedAt)))]
    case DeploymentStatusAction(s) =>
      if s.state.OtherState? || s.deployment < 1 then []
      else [Deployed(repository, s, OrElse(WebhookTime(s.createdAt), observedAt))]
    case Irrelevant => []
  }

  // ---------------------------------------------------------------- reconciliation

  function PullChanges(repository: nat, pull: Pull, observedAt: int): seq<Change> {
    if pull.number < 1 then []
    else [Opened(repository, pull, OrElse(RestTime(pull.createdAt), observedAt))]
         + if pull.mergedAt.Absent? then [] else [Merged(repository, pull, OrElse(RestTime(pull.mergedAt), observedAt))]
  }

  function RunChanges(repository: nat, run: WorkflowRun, observedAt: int): seq<Change> {
    if run.id < 1 then []
    else
      var begun := (run.status.InProgress? || run.status.Completed?) && RestTime(run.startedAt).Some?;
      (if begun then [Started(repository, run, RestTime(run.startedAt).value)] else [])
      + if run.status.Completed? && Reported(run.conclusion)
        then [Concluded(repository, run, OrElse(RestTime(run.updatedAt), observedAt))] else []
  }

  function DeploymentChanges(repository: nat, s: DeploymentStatus, observedAt: int): seq<Change> {
    if s.deployment < 1 || s.state.OtherState? then []
    else [Deployed(repository, s, OrElse(RestTime(s.createdAt), observedAt))]
  }

  datatype Resource = PullResource(pull: Pull) | RunResource(run: WorkflowRun) | DeploymentResource(status: DeploymentStatus)

  function RestChanges(repository: nat, resource: Resource, observedAt: int): seq<Change> {
    match resource
    case PullResource(pull) => PullChanges(repository, pull, observedAt)
    case RunResource(run) => RunChanges(repository, run, observedAt)
    case DeploymentResource(s) => DeploymentChanges(repository, s, observedAt)
  }

  function AllChanges(repository: nat, resources: seq<Resource>, observedAt: int): seq<Change> {
    if |resources| == 0 then []
    else AllChanges(repository, resources[..|resources| - 1], observedAt)
         + RestChanges(repository, resources[|resources| - 1], observedAt)
  }

  function PullResources(pulls: seq<Pull>): seq<Resource> {
    seq(|pulls|, i requires 0 <= i < |pulls| => PullResource(pulls[i]))
  }

  function RunResources(runs: seq<WorkflowRun>): seq<Resource> {
    seq(|runs|, i requires 0 <= i < |runs| => RunResource(runs[i]))
  }

  function DeploymentResources(deployments: seq<DeploymentStatus>): seq<Resource> {
    seq(|deployments|, i requires 0 <= i < |deployments| => DeploymentResource(deployments[i]))
  }

  lemma ChangesAppend(repository: nat, resources: seq<Resource>, resource: Resource, observedAt: int)
    ensures AllChanges(repository, resources + [resource], observedAt)
            == AllChanges(repository, resources, observedAt) + RestChanges(repository, resource, observedAt)
  {
    assert (resources + [resource])[..|resources|] == resources;
  }

  lemma {:induction false} ChangesConcat(repository: nat, a: seq<Resource>, b: seq<Resource>, observedAt: int)
    ensures AllChanges(repository, a + b, observedAt)
            == AllChanges(repository, a, observedAt) + AllChanges(repository, b, observedAt)
  {
    hide RestChanges;
    if |b| == 0 {
      assert a + b == a;
    } else {
      var n := |b| - 1;
      ChangesConcat(repository, a, b[..n], observedAt);
      ChangesAppend(repository, a + b[..n], b[n], observedAt);
      assert a + b[..n] + [b[n]] == a + b;
    }
  }

  /** The body of the loop over the pull requests of one repository. */
  method ListPull(repository: nat, pull: Pull, observedAt: int) returns (changes: seq<Change>)
    ensures changes == PullChanges(repository, pull, observedAt)
  {
    changes := [];
    if pull.number < 1 { return; }
    changes := [Opened(repository, pull, OrElse(RestTime(pull.createdAt), observedAt))];
    if !pull.mergedAt.Absent? {
      changes := changes + [Merged(repository, pull, OrElse(RestTime(pull.mergedAt), observedAt))];
    }
  }

  lemma NextPull(repository: nat, all: seq<Resource>, i: nat, pull: Pull, observedAt: int)
    requires i < |all| && all[i] == PullResource(pull)
    ensures AllChanges(repository, all[..i + 1], observedAt)
            == AllChanges(repository, all[..i], observedAt) + PullChanges(repository, pull, observedAt)
  {
    hide AllChanges, PullChanges;
    ChangesAppend(repository, all[..i], all[i], observedAt);
    assert all[..i + 1] == all[..i] + [all[i]];
  }

  method ListPulls(repository: nat, pulls: seq<Pull>, observedAt: int) returns (changes: seq<Change>)
    ensures changes == AllChanges(repository, PullResources(pulls), observedAt)
  {
    changes := [];
    ghost var all := PullResources(pulls);
    assert all[..0] == [] && AllChanges(repository, [], observedAt) == [];
    assert forall k :: 0 <= k < |pulls| ==> all[k] == PullResource(pulls[k]);
    assert |all| == |pulls|;
    hide AllChanges, PullChanges, RestChanges, PullResources;
    var i := 0;
    while i < |pulls|
      invariant 0 <= i <= |pulls| && changes == AllChanges(repository, all[..i], observedAt)
    {
      NextPull(repository, all, i, pulls[i], observedAt);
      var more := ListPull(repository, pulls[i], observedAt);
      changes := changes + more;
      i := i + 1;
    }
    assert all[..|pulls|] == all;
  }

  /** The body of the loop over the runs of one repository. */
  method ListRun(repository: nat, run: WorkflowRun, observedAt: int) returns (changes: seq<Change>)
    ensures changes == RunChanges(repository, run, observedAt)
  {
    changes := [];
    if run.id < 1 { return; }
    var startedAt := RestTime(run.startedAt);
    if (run.status == InProgress || run.status == Completed) && startedAt.Some? {
      changes := [Started(repository, run, startedAt.value)];
    }
    if run.status == Completed {
      if !Reported(run.conclusion) { return; }
      changes := changes + [Concluded(repository, run, OrElse(RestTime(run.updatedAt), observedAt))];
    }
  }

  method ListRuns(repository: nat, runs: seq<WorkflowRun>, observedAt: int) returns (changes: seq<Change>)
    ensures changes == AllChanges(repository, RunResources(runs), observedAt)
  {
    changes := [];
    ghost var all := RunResources(runs);
    assert all[..0] == [] && AllChanges(repository, [], observedAt) == [];
    hide AllChanges, RunChanges;
    var i := 0;
    while i < |runs|
      invariant 0 <= i <= |runs| && changes == AllChanges(repository, all[..i], observedAt)
    {
      ChangesAppend(repository, all[..i], all[i], observedAt);
      assert all[..i + 1] == all[..i] + [all[i]];
      var more := ListRun(repository, runs[i], observedAt);
      changes := changes + more;
      i := i + 1;
    }
    assert all[..|runs|] == all;
  }

  /** `deployments` holds the latest status of each deployment that has one. */
  method ListDeployments(repository: nat, deployments: seq<DeploymentStatus>, observedAt: int) returns (changes: seq<Change>)
    ensures changes == AllChanges(repository, DeploymentResources(deployments), observedAt)
  {
    changes := [];
    ghost var all := DeploymentResources(deployments);
    assert all[..0] == [] && AllChanges(repository, [], observedAt) == [];
    hide AllChanges, OrElse, RestTime;
    var i := 0;
    while i < |deployments|
      invariant 0 <= i <= |deployments| && changes == AllChanges(repository, all[..i], observedAt)
    {
      var s := deployments[i];
      ChangesAppend(repository, all[..i], all[i], observedAt);
      assert all[..i + 1] == all[..i] + [all[i]];
      i := i + 1;
      if s.deployment < 1 || s.state.OtherState? { continue; }
      changes := changes + [Deployed(repository, s, OrElse(RestTime(s.createdAt), observedAt))];
    }
    assert all[..|deployments|] == all;
  }

  method RepositoryChanges(
    repository: nat, pulls: seq<Pull>, runs: seq<WorkflowRun>, deployments: seq<DeploymentStatus>, observedAt: int)
    returns (changes: seq<Change>)
    ensures changes
            == AllChanges(repository, PullResources(pulls) + RunResources(runs) + DeploymentResources(deployments), observedAt)
  {
    changes := ListPulls(repository, pulls, observedAt);
    var more := ListRuns(repository, runs, observedAt);
    changes := changes + more;
    more := ListDeployments(repository, deployments, observedAt);
    changes := changes + more;
    ChangesConcat(repository, PullResources(pulls), RunResources(runs), observedAt);
    ChangesConcat(repository, PullResources(pulls) + RunResources(runs), DeploymentResources(deployments), observedAt);
  }

  // ---------------------------------------------------------------- one history

  function KeysOf(changes: seq<Change>): set<Key> {
    set c | c in changes :: c.key
  }

  function MarksOf(changes: seq<Change>): set<Mark> {
    set c | c in changes && c.mark.Some? :: c.mark.value
  }

  /** The deliveries that lead to this snapshot of a resource. */
  function Deliveries(resource: Resource): seq<Webhook> {
    match resource
    case PullResource(pull) => [PullOpenedAction(pull)] + if pull.merged then [PullClosedAction(pull)] else []
    case RunResource(run) =>
      if run.status.OtherStatus? then []
      else [RunInProgressAction(run)] + if run.status.Completed? then [RunCompletedAction(run)] else []
    case DeploymentResource(s) => [DeploymentStatusAction(s)]
  }

  function DeliveredChanges(webhooks: seq<Webhook>, repository: nat, delivery: nat, observedAt: int): seq<Change> {
    if |webhooks| == 0 then []
    else NormalizeWebhook(webhooks[0], repository, delivery, observedAt)
         + DeliveredChanges(webhooks[1..], repository, delivery + 1, observedAt)
  }

  /** What reconciliation needs in a listing to tell the same history as the deliveries. */
  predicate TellsAll(resource: Resource) {
    match resource
    case PullResource(pull) => pull.number < 1 || pull.merged == !pull.mergedAt.Absent?
    case RunResource(run) => run.id < 1 || run.status.OtherStatus? || run.startedAt.Aware?
    case DeploymentResource(_) => true
  }

  lemma KeysAppend(a: seq<Change>, b: seq<Change>)
    ensures KeysOf(a + b) == KeysOf(a) + KeysOf(b)
    ensures MarksOf(a + b) == MarksOf(a) + MarksOf(b)
  {
    assert forall c :: c in a + b <==> c in a || c in b;
  }

  /** Keys and marks of at most three changes, spelled out. */
  lemma FewKeys(a: Change, b: Change, c: Change)
    requires a.mark.Some? && b.mark.Some? && c.mark.Some?
    ensures KeysOf([]) == {} && MarksOf([]) == {}
    ensures KeysOf([a]) == {a.key} && MarksOf([a]) == {a.mark.value}
    ensures KeysOf([a, b]) == {a.key, b.key} && MarksOf([a, b]) == {a.mark.value, b.mark.value}
    ensures KeysOf([a, b, c]) == {a.key, b.key, c.key} && MarksOf([a, b, c]) == {a.mark.value, b.mark.value, c.mark.value}
  {
    assert a in [a] && a in [a, b] && b in [a, b] && a in [a, b, c] && b in [a, b, c] && c in [a, b, c];
  }

  /** Both paths produce the same dedupe keys and the same checkpoints. */
  predicate SameHistory(rest: seq<Change>, delivered: seq<Change>) {
    KeysOf(rest) == KeysOf(delivered) && MarksOf(rest) == MarksOf(delivered)
  }

  lemma FewDeliveries(v: Webhook, w: Webhook, repository: nat, delivery: nat, receivedAt: int)
    ensures DeliveredChanges([], repository, delivery, receivedAt) == []
    ensures DeliveredChanges([w], repository, delivery, receivedAt) == NormalizeWebhook(w, repository, delivery, receivedAt)
    ensures DeliveredChanges([v, w], repository, delivery, receivedAt)
            == NormalizeWebhook(v, repository, delivery, receivedAt) + NormalizeWebhook(w, repository, delivery + 1, receivedAt)
  {
    hide NormalizeWebhook;
    assert [w][1..] == [] && [v, w][1..] == [w];
    assert DeliveredChanges([], repository, delivery + 1, receivedAt) == [];
    assert DeliveredChanges([w], repository, delivery + 1, receivedAt)
           == NormalizeWebhook(w, repository, delivery + 1, receivedAt)
              + DeliveredChanges([w][1..], repository, delivery + 2, receivedAt);
  }

  lemma PullDelivered(pull: Pull, repository: nat, delivery: nat, at: int)
    ensures DeliveredChanges(Deliveries(PullResource(pull)), repository, delivery, at)
            == if pull.number < 1 then []
               else if pull.merged then [Opened(repository, pull, OrElse(WebhookTime(pull.createdAt), at)),
                                         Merged(repository, pull, OrElse(WebhookTime(pull.mergedAt), at))]
               else [Opened(repository, pull, OrElse(WebhookTime(pull.createdAt), at))]
  {
    FewDeliveries(PullOpenedAction(pull), PullOpenedAction(pull), repository, delivery, at);
    FewDeliveries(PullOpenedAction(pull), PullClosedAction(pull), repository, delivery, at);
    hide DeliveredChanges, Opened, Merged;
    var a := Opened(repository, pull, OrElse(WebhookTime(pull.createdAt), at));
    var b := Merged(repository, pull, OrElse(WebhookTime(pull.mergedAt), at));
    assert [a] + [b] == [a, b] && [PullOpenedAction(pull)] + [] == [PullOpenedAction(pull)];
    assert [PullOpenedAction(pull)] + [PullClosedAction(pull)] == [PullOpenedAction(pull), PullClosedAction(pull)];
  }

  lemma PullsAgree(pull: Pull, repository: nat, delivery: nat, observedAt: int, receivedAt: int)
    ensures var resource := PullResource(pull);
      SameHistory(RestChanges(repository, resource, observedAt),
                  DeliveredChanges(Deliveries(resource), repository, delivery, receivedAt))
      <==> TellsAll(resource)
  {
    var a := Opened(repository, pull, OrElse(WebhookTime(pull.createdAt), receivedAt));
    var b := Merged(repository, pull, OrElse(WebhookTime(pull.mergedAt), receivedAt));
    var c := Opened(repository, pull, OrElse(RestTime(pull.createdAt), observedAt));
    var d := Merged(repository, pull, OrElse(RestTime(pull.mergedAt), observedAt));
    FewKeys(a, b, a);
    FewKeys(c, d, c);
    PullDelivered(pull, repository, delivery, receivedAt);
    hide KeysOf, MarksOf, DeliveredChanges, NormalizeWebhook, Deliveries;
    assert [c] + [] == [c] && [c] + [d] == [c, d];
    assert a.key == c.key && b.key == d.key && b.key !in {a.key} && b.key in {a.key, b.key};
  }

  lemma RunDelivered(run: WorkflowRun, repository: nat, delivery: nat, at: int)
    ensures DeliveredChanges(Deliveries(RunResource(run)), repository, delivery, at)
            == var a := Started(repository, run, WebhookStart(run, at));
               var b := Concluded(repository, run, OrElse(WebhookTime(run.updatedAt), OrElse(WebhookTime(run.completedAt), at)));
               if run.id < 1 || run.status.OtherStatus? then []
               else if run.status.Completed? && Reported(run.conclusion) then [a, a, b]
               else [a]
  {
    FewDeliveries(RunInProgressAction(run), RunInProgressAction(run), repository, delivery, at);
    FewDeliveries(RunInProgressAction(run), RunCompletedAction(run), repository, delivery, at);
    hide DeliveredChanges, Started, Concluded, WebhookStart;
    var a := Started(repository, run, WebhookStart(run, at));
    var b := Concluded(repository, run, OrElse(WebhookTime(run.updatedAt), OrElse(WebhookTime(run.completedAt), at)));
    assert [a] + [a, b] == [a, a, b] && [a] + [] == [a] && [RunInProgressAction(run)] + [] == [RunInProgressAction(run)];
    assert [RunInProgressAction(run)] + [RunCompletedAction(run)] == [RunInProgressAction(run), RunCompletedAction(run)];
  }

  lemma RunListed(run: WorkflowRun, repository: nat, at: int)
    ensures RestChanges(repository, RunResource(run), at)
            == var c := Started(repository, run, OrElse(RestTime(run.startedAt), 0));
               var d := Concluded(repository, run, OrElse(RestTime(run.updatedAt), at));
               if run.id < 1 || run.status.OtherStatus? then []
               else if run.status.Completed? && Reported(run.conclusion) then
                 if run.startedAt.Aware? then [c, d] else [d]
               else if run.startedAt.Aware? then [c] else []
  {
    hide Started, Concluded;
  }

  /** The runs' keys as sets: both have the conclusion, one may lack the start. */
  lemma RunKeys(a: Change, b: Change, c: Change, d: Change)
    requires a.mark.Some? && b.mark.Some? && c.mark.Some? && d.mark.Some?
    requires a.key == c.key && a.mark == c.mark && b.key == d.key && b.mark == d.mark && a.key != b.key
    ensures SameHistory([c, d], [a, a, b]) && SameHistory([c], [a]) && SameHistory([], [])
    ensures !SameHistory([d], [a, a, b]) && !SameHistory([], [a])
  {
    FewKeys(a, a, b);
    FewKeys(c, d, c);
    FewKeys(d, d, d);
    hide KeysOf, MarksOf;
    assert a.key !in {b.key} && a.key in {a.key} && a.key in {a.key, a.key, b.key};
  }

  lemma RunsAgree(run: WorkflowRun, repository: nat, delivery: nat, observedAt: int, receivedAt: int)
    ensures var resource := RunResource(run);
      SameHistory(RestChanges(repository, resource, observedAt),
                  DeliveredChanges(Deliveries(resource), repository, delivery, receivedAt))
      <==> TellsAll(resource)
  {
    var a := Started(repository, run, WebhookStart(run, receivedAt));
    var b := Concluded(repository, run, OrElse(WebhookTime(run.updatedAt), OrElse(WebhookTime(run.completedAt), receivedAt)));
    var c := Started(repository, run, OrElse(RestTime(run.startedAt), 0));
    var d := Concluded(repository, run, OrElse(RestTime(run.updatedAt), observedAt));
    RunDelivered(run, repository, delivery, receivedAt);
    RunListed(run, repository, observedAt);
    RunKeys(a, b, c, d);
    hide SameHistory, RestChanges, DeliveredChanges, Deliveries, WebhookStart, OrElse, WebhookTime, RestTime;
  }

  lemma DeploymentsAgree(s: DeploymentStatus, repository: nat, delivery: nat, observedAt: int, receivedAt: int)
    ensures var resource := DeploymentResource(s);
      SameHistory(RestChanges(repository, resource, observedAt),
                  DeliveredChanges(Deliveries(resource), repository, delivery, receivedAt))
  {
    var a := Deployed(repository, s, OrElse(WebhookTime(s.createdAt), receivedAt));
    var b := Deployed(repository, s, OrElse(RestTime(s.createdAt), observedAt));
    FewKeys(a, a, a);
    FewKeys(b, b, b);
    FewDeliveries(DeploymentStatusAction(s), DeploymentStatusAction(s), repository, delivery, receivedAt);
    hide KeysOf, MarksOf, DeliveredChanges;
  }

  /**
   For one snapshot of a pull request, a run attempt or a deployment status, both paths produce the same
   dedupe keys and checkpoints exactly when the listing tells all: a merged pull request has its time,
   and a run that was started has a start time with an offset.
   */
  lemma TwoPathsOneHistory(resource: Resource, repository: nat, delivery: nat, observedAt: int, receivedAt: int)
    ensures SameHistory(RestChanges(repository, resource, observedAt),
                        DeliveredChanges(Deliveries(resource), repository, delivery, receivedAt))
            <==> TellsAll(resource)
  {
    match resource
    case PullResource(pull) => PullsAgree(pull, repository, delivery, observedAt, receivedAt);
    case RunResource(run) => RunsAgree(run, repository, delivery, observedAt, receivedAt);
    case DeploymentResource(s) => DeploymentsAgree(s, repository, delivery, observedAt, receivedAt);
  }

  // ---------------------------------------------------------------- what the changes say

  /** Event and checkpoint follow from the key: success or failure is told by conclusion and state. */
  predicate SaysWhatItIs(c: Change, repository: nat) {
    && c.key.repository == repository
    && match c.key.identity
       case PushIdentity(_) | UnknownPushIdentity(_) => c.event.PushReceived? && c.mark.None?
       case OpenedIdentity(number) => c.event.PullOpened? && c.mark == Some(OpenedMark(repository, number)) && number >= 1
       case MergedIdentity(number) => c.event.PullMerged? && c.mark == Some(MergedMark(repository, number)) && number >= 1
       case StartedIdentity(run, attempt) =>
         c.event.WorkflowStarted? && c.mark == Some(StartedMark(repository, run, attempt)) && run >= 1
       case ConcludedIdentity(run, attempt, conclusion) =>
         && (if conclusion.Success? then c.event.WorkflowCompleted? else c.event.WorkflowFailed?)
         && !conclusion.OtherConclusion? && c.mark == Some(CompletedMark(repository, run, attempt)) && run >= 1
       case DeploymentIdentity(deployment, state, _) =>
         && (state.Succeeded? ==> c.event.DeploymentCompleted?)
         && (state.Failed? || state.Errored? ==> c.event.DeploymentFailed?)
         && !state.OtherState? && c.mark == Some(DeploymentMark(repository, deployment, state)) && deployment >= 1
  }

  lemma ChangesSayWhatTheyAre(webhook: Webhook, resource: Resource, repository: nat, delivery: nat, observedAt: int)
    ensures forall c :: c in NormalizeWebhook(webhook, repository, delivery, observedAt) ==> SaysWhatItIs(c, repository)
    ensures forall c :: c in RestChanges(repository, resource, observedAt) ==> SaysWhatItIs(c, repository)
  {
    hide OrElse, WebhookTime, RestTime;
  }

  /** Every time of the snapshot that either path reads is there, with an offset. */
  predicate WellTimed(resource: Resource) {
    match resource
    case PullResource(pull) => pull.createdAt.Aware? && (pull.merged ==> pull.mergedAt.Aware?)
    case RunResource(run) => run.startedAt.Aware? && run.updatedAt.Aware?
    case DeploymentResource(s) => s.createdAt.Aware?
  }

  /** Where the two paths tell one key of a well timed snapshot, they tell one event at one time. */
  lemma TimesAgree(resource: Resource, webhook: Webhook, repository: nat, delivery: nat, observedAt: int, receivedAt: int,
                   c: Change, d: Change)
    requires WellTimed(resource) && webhook in Deliveries(resource)
    requires c in RestChanges(repository, resource, observedAt)
    requires d in NormalizeWebhook(webhook, repository, delivery, receivedAt) && c.key == d.key
    ensures c == d
    ensures c.key.identity.OpenedIdentity? ==> c.occurredAt == resource.pull.createdAt.at
    ensures c.key.identity.MergedIdentity? ==> c.occurredAt == resource.pull.mergedAt.at
    ensures c.key.identity.StartedIdentity? ==> c.occurredAt == resource.run.startedAt.at
    ensures c.key.identity.ConcludedIdentity? ==> c.occurredAt == resource.run.updatedAt.at
    ensures c.key.identity.DeploymentIdentity? ==> c.occurredAt == resource.status.createdAt.at
  {
  }

  predicate Readable(stamp: Stamp) {
    stamp.Naive? || stamp.Aware?
  }

  predicate AtFirst(at: int, first: Stamp, second: Stamp, otherwise: int) {
    if Readable(first) then at == first.at else if Readable(second) then at == second.at else at == otherwise
  }

  /** A delivery is dated by the first timestamp that can be read, an offset or not, and else by its receipt. */
  lemma DeliveriesAreDated(webhook: Webhook, repository: nat, delivery: nat, receivedAt: int, c: Change)
    requires c in NormalizeWebhook(webhook, repository, delivery, receivedAt)
    ensures match webhook
            case Push(_, timestamp) => AtFirst(c.occurredAt, timestamp, Absent, receivedAt)
            case PullOpenedAction(pull) => AtFirst(c.occurredAt, pull.createdAt, Absent, receivedAt)
            case PullClosedAction(pull) => AtFirst(c.occurredAt, pull.mergedAt, Absent, receivedAt)
            case RunInProgressAction(run) => AtFirst(c.occurredAt, run.startedAt, run.createdAt, receivedAt)
            case RunCompletedAction(run) =>
              if c.key.identity.StartedIdentity? then AtFirst(c.occurredAt, run.startedAt, run.createdAt, receivedAt)
              else AtFirst(c.occurredAt, run.updatedAt, run.completedAt, receivedAt)
            case DeploymentStatusAction(s) => AtFirst(c.occurredAt, s.createdAt, Absent, receivedAt)
            case Irrelevant => false
  {
    hide AtFirst, Readable, WebhookTime, OrElse;
    match webhook
    case Push(_, timestamp) => FirstIsRead(timestamp, Absent, receivedAt);
    case PullOpenedAction(pull) => FirstIsRead(pull.createdAt, Absent, receivedAt);
    case PullClosedAction(pull) => FirstIsRead(pull.mergedAt, Absent, receivedAt);
    case RunInProgressAction(run) => FirstIsRead(run.startedAt, run.createdAt, receivedAt);
    case RunCompletedAction(run) =>
      FirstIsRead(run.startedAt, run.createdAt, receivedAt);
      FirstIsRead(run.updatedAt, run.completedAt, receivedAt);
    case DeploymentStatusAction(s) => FirstIsRead(s.createdAt, Absent, receivedAt);
    case Irrelevant =>
  }

  lemma FirstIsRead(a: Stamp, b: Stamp, otherwise: int)
    ensures AtFirst(OrElse(WebhookTime(a), OrElse(WebhookTime(b), otherwise)), a, b, otherwise)
    ensures AtFirst(OrElse(WebhookTime(a), otherwise), a, Absent, otherwise)
  {
  }

  /** Which keys a delivery tells. */
  lemma DeliveryTells(webhook: Webhook, repository: nat, delivery: nat, observedAt: int, identity: Identity)
    ensures Key(repository, identity) in KeysOf(NormalizeWebhook(webhook, repository, delivery, observedAt)) <==>
              match identity
              case PushIdentity(after) => webhook.Push? && webhook.after == Some(after)
              case UnknownPushIdentity(id) => webhook.Push? && webhook.after.None? && id == delivery
              case OpenedIdentity(number) => webhook.PullOpenedAction? && number == webhook.pull.number >= 1
              case MergedIdentity(number) => webhook.PullClosedAction? && webhook.pull.merged && number == webhook.pull.number >= 1
              case StartedIdentity(run, attempt) =>
                (webhook.RunInProgressAction? || (webhook.RunCompletedAction? && !webhook.run.conclusion.OtherConclusion?))
                && run == webhook.run.id >= 1 && attempt == webhook.run.attempt
              case ConcludedIdentity(run, attempt, conclusion) =>
                webhook.RunCompletedAction? && run == webhook.run.id >= 1 && attempt == webhook.run.attempt
                && conclusion == webhook.run.conclusion && !conclusion.OtherConclusion?
              case DeploymentIdentity(deployment, state, status) =>
                webhook.DeploymentStatusAction? && deployment == webhook.status.deployment >= 1
                && state == webhook.status.state && !state.OtherState? && status == webhook.status.status
  {
    hide OrElse, WebhookTime;
    KeysByChange(NormalizeWebhook(webhook, repository, delivery, observedAt), Key(repository, identity));
  }

  lemma KeysByChange(changes: seq<Change>, key: Key)
    requires |changes| <= 2
    ensures key in KeysOf(changes) <==> (|changes| >= 1 && changes[0].key == key) || (|changes| >= 2 && changes[1].key == key)
  {
    assert forall c :: c in changes <==> (|changes| >= 1 && changes[0] == c) || (|changes| >= 2 && changes[1] == c);
  }

  // A run in progress whose start time has no offset.
  const NaiveRun := WorkflowRun(1, 1, InProgress, OtherConclusion(0), Naive(0), Absent, Absent, Absent)

  // A finished run whose conclusion neither path reports.
  const NeutralRun := WorkflowRun(1, 1, Completed, OtherConclusion(0), Aware(0), Absent, Absent, Absent)

  /** A start time without an offset: the delivery tells the start of the run, the listing nothing. */
  lemma NaiveStartsAreNotListed(repository: nat, delivery: nat, observedAt: int, receivedAt: int)
    ensures var told := DeliveredChanges(Deliveries(RunResource(NaiveRun)), repository, delivery, receivedAt);
      && Key(repository, StartedIdentity(1, 1)) in KeysOf(told)
      && RestChanges(repository, RunResource(NaiveRun), observedAt) == []
      && !SameHistory(RestChanges(repository, RunResource(NaiveRun), observedAt), told)
  {
    var started := Started(repository, NaiveRun, WebhookStart(NaiveRun, receivedAt));
    RunDelivered(NaiveRun, repository, delivery, receivedAt);
    RunsAgree(NaiveRun, repository, delivery, observedAt, receivedAt);
    assert started in [started];
  }

  /** A conclusion that is not reported: the listing tells the start of the run, the completed delivery nothing. */
  lemma UnreportedRunsStartByListing(repository: nat, delivery: nat, observedAt: int, receivedAt: int)
    ensures NormalizeWebhook(RunCompletedAction(NeutralRun), repository, delivery, receivedAt) == []
    ensures RestChanges(repository, RunResource(NeutralRun), observedAt) == [Started(repository, NeutralRun, 0)]
  {
  }

  // ---------------------------------------------------------------- the shared store

  datatype Store = Store(keys: set<Key>, marks: set<Mark>)

  const EmptyStore := Store({}, {})

  /** Each change stores its key unless it is known, and sets its checkpoint either way. */
  function Stored(store: Store, change: Change): Store {
    Store(store.keys + {change.key}, if change.mark.Some? then store.marks + {change.mark.value} else store.marks)
  }

  function StoredAll(store: Store, changes: seq<Change>): Store {
    if |changes| == 0 then store
    else Stored(StoredAll(store, changes[..|changes| - 1]), changes[|changes| - 1])
  }

  /** The candidates of a poll whose checkpoints were not seen. */
  function Unseen(candidates: seq<Change>, seen: set<Mark>): seq<Change> {
    if |candidates| == 0 then []
    else
      var front := Unseen(candidates[..|candidates| - 1], seen);
      var c := candidates[|candidates| - 1];
      if c.mark.None? || c.mark.value !in seen then front + [c] else front
  }

  // A delivery with its id, or a poll with the checkpoints that it read before it persists.
  datatype Operation =
    | Delivered(delivery: nat, changes: seq<Change>)
    | Reconciled(seen: set<Mark>, changes: seq<Change>)

  function Applied(store: Store, op: Operation): Store {
    match op
    case Delivered(delivery, changes) =>
      if DeliveryMark(delivery) in store.marks then store
      else StoredAll(store.(marks := store.marks + {DeliveryMark(delivery)}), changes)
    case Reconciled(seen, changes) => StoredAll(store, Unseen(changes, seen))
  }

  class GithubStore {
    var keys: set<Key>
    var marks: set<Mark>

    function Contents(): Store
      reads this
    {
      Store(keys, marks)
    }

    constructor ()
      ensures Contents() == EmptyStore
    {
      keys, marks := {}, {};
    }

    method PersistObservations(changes: seq<Change>) returns (persisted: nat)
      modifies this
      ensures Contents() == StoredAll(old(Contents()), changes)
      ensures old(keys) <= keys && persisted == |keys| - |old(keys)|
    {
      persisted := 0;
      var i := 0;
      assert changes[..0] == [];
      while i < |changes|
        invariant 0 <= i <= |changes|
        invariant Contents() == StoredAll(old(Contents()), changes[..i])
        invariant old(keys) <= keys && persisted == |keys| - |old(keys)|
      {
        assert changes[..i + 1][..i] == changes[..i];
        var change := changes[i];
        if change.key !in keys {
          keys := keys + {change.key};
          persisted := persisted + 1;
        }
        if change.mark.Some? { marks := marks + {change.mark.value}; }
        i := i + 1;
      }
      assert changes[..|changes|] == changes;
    }

    method PersistWebhookDelivery(delivery: nat, changes: seq<Change>) returns (claimed: bool)
      modifies this
      ensures Contents() == Applied(old(Contents()), Delivered(delivery, changes))
      ensures claimed == (DeliveryMark(delivery) !in old(marks))
    {
      if DeliveryMark(delivery) in marks { return false; }
      marks := marks + {DeliveryMark(delivery)};
      var persisted := PersistObservations(changes);
      claimed := true;
    }

    /** The poll's filter; its result is persisted later. */
    method Observe(candidates: seq<Change>) returns (remaining: seq<Change>)
      ensures remaining == Unseen(candidates, marks)
    {
      remaining := [];
      var i := 0;
      assert candidates[..0] == [];
      while i < |candidates|
        invariant 0 <= i <= |candidates| && remaining == Unseen(candidates[..i], marks)
      {
        assert candidates[..i + 1][..i] == candidates[..i];
        if candidates[i].mark.None? || candidates[i].mark.value !in marks { remaining := remaining + [candidates[i]]; }
        i := i + 1;
      }
      assert candidates[..|candidates|] == candidates;
    }
  }

  // ---------------------------------------------------------------- any order, any repetition

  function StoreAfter(ops: seq<Operation>): Store {
    if |ops| == 0 then EmptyStore else Applied(StoreAfter(ops[..|ops| - 1]), ops[|ops| - 1])
  }

  /** Every poll read its checkpoints at some earlier time. */
  ghost predicate Causal(ops: seq<Operation>) {
    forall i :: 0 <= i < |ops| && ops[i].Reconciled? ==> ops[i].seen <= StoreAfter(ops[..i]).marks
  }

  /** A checkpoint stands for one key, and a delivery id for one content. */
  ghost predicate Coherent(ops: seq<Operation>) {
    && (forall a, b, c, d :: a in ops && b in ops && c in a.changes && d in b.changes && c.mark.Some? && c.mark == d.mark
                             ==> c.key == d.key)
    && (forall a, c :: a in ops && c in a.changes && c.mark.Some? ==> !c.mark.value.DeliveryMark?)
    && (forall a, b :: a in ops && b in ops && a.Delivered? && b.Delivered? && a.delivery == b.delivery
                       ==> a.changes == b.changes)
  }

  function KeysIn(ops: seq<Operation>): set<Key> {
    set op, c | op in ops && c in op.changes :: c.key
  }

  lemma {:induction false} StoredAllIs(store: Store, changes: seq<Change>)
    ensures StoredAll(store, changes) == Store(store.keys + KeysOf(changes), store.marks + MarksOf(changes))
  {
    if |changes| > 0 {
      var n := |changes| - 1;
      StoredAllIs(store, changes[..n]);
      assert changes == changes[..n] + [changes[n]];
      KeysAppend(changes[..n], [changes[n]]);
      OneChange(changes[n]);
      hide KeysOf, MarksOf;
    }
  }

  lemma OneChange(change: Change)
    ensures KeysOf([change]) == {change.key}
    ensures MarksOf([change]) == if change.mark.Some? then {change.mark.value} else {}
  {
    assert change in [change];
  }

  lemma {:induction false} UnseenIs(candidates: seq<Change>, seen: set<Mark>)
    ensures forall c :: c in Unseen(candidates, seen) <==> c in candidates && (c.mark.None? || c.mark.value !in seen)
  {
    if |candidates| > 0 {
      var n := |candidates| - 1;
      UnseenIs(candidates[..n], seen);
      assert candidates == candidates[..n] + [candidates[n]];
    }
  }

  lemma AppliedKeeps(store: Store, op: Operation)
    ensures store.keys <= Applied(store, op).keys <= store.keys + KeysOf(op.changes)
    ensures store.marks <= Applied(store, op).marks
    ensures Applied(store, op).marks
            <= store.marks + MarksOf(op.changes) + if op.Delivered? then {DeliveryMark(op.delivery)} else {}
  {
    match op
    case Delivered(delivery, changes) =>
      StoredAllIs(store.(marks := store.marks + {DeliveryMark(delivery)}), changes);
    case Reconciled(seen, changes) =>
      StoredAllIs(store, Unseen(changes, seen));
      UnseenIs(changes, seen);
  }

  /** The key of every checkpoint is stored, and so is the whole content of every claimed delivery. */
  ghost predicate MarksAreCovered(ops: seq<Operation>, store: Store) {
    && (forall a, c :: a in ops && c in a.changes && c.mark.Some? && c.mark.value in store.marks ==> c.key in store.keys)
    && (forall a :: a in ops && a.Delivered? && DeliveryMark(a.delivery) in store.marks ==> KeysOf(a.changes) <= store.keys)
  }

  /** What one operation stores: all its keys, given that checkpoints and claimed deliveries are covered. */
  lemma OperationStoresItsKeys(all: seq<Operation>, store: Store, op: Operation)
    requires Coherent(all) && op in all && MarksAreCovered(all, store)
    requires op.Reconciled? ==> op.seen <= store.marks
    ensures Applied(store, op).keys == store.keys + KeysOf(op.changes)
  {
    AppliedKeeps(store, op);
    match op
    case Delivered(delivery, changes) =>
      StoredAllIs(store.(marks := store.marks + {DeliveryMark(delivery)}), changes);
    case Reconciled(seen, changes) =>
      StoredAllIs(store, Unseen(changes, seen));
      UnseenIs(changes, seen);
      forall k | k in KeysOf(changes) ensures k in Applied(store, op).keys {
        var c :| c in changes && c.key == k;
        if c in Unseen(changes, seen) {
          assert k in KeysOf(Unseen(changes, seen));
        } else {
          assert c.mark.value in store.marks;
        }
      }
  }

  lemma NewMarksAreCovered(all: seq<Operation>, store: Store, op: Operation)
    requires Coherent(all) && op in all && MarksAreCovered(all, store)
    requires op.Reconciled? ==> op.seen <= store.marks
    ensures MarksAreCovered(all, Applied(store, op))
  {
    OperationStoresItsKeys(all, store, op);
    AppliedKeeps(store, op);
    var after := Applied(store, op);
    hide Applied, StoreAfter;
    forall a, c | a in all && c in a.changes && c.mark.Some? && c.mark.value in after.marks ensures c.key in after.keys {
      if c.mark.value !in store.marks {
        assert c.mark.value in MarksOf(op.changes);
        var d :| d in op.changes && d.mark == c.mark;
        assert d.key == c.key && d.key in KeysOf(op.changes);
      }
    }
    forall a | a in all && a.Delivered? && DeliveryMark(a.delivery) in after.marks ensures KeysOf(a.changes) <= after.keys {
      if DeliveryMark(a.delivery) !in store.marks {
        forall c | c in op.changes && c.mark.Some? ensures !c.mark.value.DeliveryMark? {}
        assert DeliveryMark(a.delivery) !in MarksOf(op.changes);
        assert op.Delivered? && op.delivery == a.delivery;
      }
    }
  }

  lemma KeysInAppend(ops: seq<Operation>, op: Operation)
    ensures KeysIn(ops + [op]) == KeysIn(ops) + KeysOf(op.changes)
  {
    assert forall x :: x in ops + [op] <==> x in ops || x == op;
    forall k | k in KeysOf(op.changes) ensures k in KeysIn(ops + [op]) {
      var c :| c in op.changes && c.key == k;
      assert op in ops + [op] && c in op.changes;
    }
    forall k | k in KeysIn(ops) ensures k in KeysIn(ops + [op]) {
      var x, c :| x in ops && c in x.changes && c.key == k;
      assert x in ops + [op] && c in x.changes;
    }
  }

  lemma NothingStored(all: seq<Operation>)
    ensures KeysIn([]) == {} && MarksAreCovered(all, EmptyStore)
  {
  }

  lemma {:induction false} RunStoresItsKeys(all: seq<Operation>, n: nat)
    requires Coherent(all) && Causal(all) && n <= |all|
    ensures StoreAfter(all[..n]).keys == KeysIn(all[..n]) && MarksAreCovered(all, StoreAfter(all[..n]))
  {
    hide Coherent, KeysIn, Applied, MarksAreCovered;
    if n == 0 {
      NothingStored(all);
    } else {
      RunStoresItsKeys(all, n - 1);
      assert all[..n] == all[..n - 1] + [all[n - 1]];
      assert all[..n][..n - 1] == all[..n - 1];
      OperationStoresItsKeys(all, StoreAfter(all[..n - 1]), all[n - 1]);
      NewMarksAreCovered(all, StoreAfter(all[..n - 1]), all[n - 1]);
      KeysInAppend(all[..n - 1], all[n - 1]);
    }
  }

  /**
   Whatever the order of deliveries and polls, their repetitions, and how old the checkpoints are that a
   poll filtered by: the store ends with exactly the keys that occur in any of them.
   */
  lemma OrderDoesNotMatter(ops: seq<Operation>, others: seq<Operation>)
    requires Coherent(ops) && Causal(ops) && Coherent(others) && Causal(others)
    ensures StoreAfter(ops).keys == KeysIn(ops)
    ensures KeysIn(ops) == KeysIn(others) ==> StoreAfter(ops).keys == StoreAfter(others).keys
  {
    RunStoresItsKeys(ops, |ops|);
    RunStoresItsKeys(others, |others|);
    assert ops[..|ops|] == ops && others[..|others|] == others;
    hide Coherent, Causal, KeysIn;
  }

  lemma PolledAfterDelivery(a: Change, b: Change)
    requires a.mark.Some? && b.mark == a.mark
    ensures StoreAfter([Delivered(0, [a]), Reconciled({a.mark.value}, [b])]).keys == {a.key}
  {
    TwoOperations(Delivered(0, [a]), Reconciled({a.mark.value}, [b]));
    StoredAllIs(EmptyStore.(marks := EmptyStore.marks + {DeliveryMark(0)}), [a]);
    FewKeys(a, a, a);
    assert [b][..0] == [] && Unseen([b][..0], {a.mark.value}) == [];
    assert Unseen([b], {a.mark.value}) == [];
    hide KeysOf, MarksOf, Unseen, StoreAfter;
  }

  lemma DeliveredAfterPoll(a: Change, b: Change)
    requires a.mark.Some? && b.mark == a.mark && !a.mark.value.DeliveryMark?
    ensures StoreAfter([Reconciled({}, [b]), Delivered(0, [a])]).keys == {a.key, b.key}
  {
    TwoOperations(Reconciled({}, [b]), Delivered(0, [a]));
    assert [b][..0] == [];
    assert Unseen([b][..0], {}) == [] && [] + [b] == [b];
    assert Unseen([b], {}) == [b];
    StoredAllIs(EmptyStore, [b]);
    FewKeys(a, a, b);
    FewKeys(b, b, b);
    var polled := Applied(EmptyStore, Reconciled({}, [b]));
    StoredAllIs(polled.(marks := polled.marks + {DeliveryMark(0)}), [a]);
    hide KeysOf, MarksOf, Unseen, StoreAfter;
  }

  /** Two statuses of one deployment share a checkpoint, so there the order does matter. */
  lemma DeploymentStatusesDependOnOrder(repository: nat, deployment: nat, at: int)
    ensures
      var first := Deployed(repository, DeploymentStatus(deployment, 1, Succeeded, Absent), at);
      var second := Deployed(repository, DeploymentStatus(deployment, 2, Succeeded, Absent), at);
      && StoreAfter([Delivered(0, [first]), Reconciled({first.mark.value}, [second])]).keys == {first.key}
      && StoreAfter([Reconciled({}, [second]), Delivered(0, [first])]).keys == {first.key, second.key}
      && first.key != second.key
  {
    var first := Deployed(repository, DeploymentStatus(deployment, 1, Succeeded, Absent), at);
    var second := Deployed(repository, DeploymentStatus(deployment, 2, Succeeded, Absent), at);
    PolledAfterDelivery(first, second);
    DeliveredAfterPoll(first, second);
    hide StoreAfter;
  }

  lemma TwoOperations(a: Operation, b: Operation)
    ensures StoreAfter([a, b]) == Applied(Applied(EmptyStore, a), b)
  {
    hide Applied;
    assert [a, b][..1] == [a] && [a][..0] == [];
    assert StoreAfter([a]) == Applied(StoreAfter([a][..0]), a);
  }
}
