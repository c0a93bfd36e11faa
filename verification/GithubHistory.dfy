/** Both GitHub paths, in any causal order, as they come from real resources. */
module GithubHistory {
  import opened Common
  import opened GithubPaths

  // One snapshot of a pull request, a run attempt or a deployment status.
  datatype Source = Source(repository: nat, resource: Resource)

  datatype Report =
    | Hook(delivery: nat, source: Source, webhook: Webhook, at: int)
    | Poll(seen: set<Mark>, sources: seq<Source>, at: int)

  function PolledChanges(sources: seq<Source>, at: int): seq<Change> {
    if |sources| == 0 then []
    else
      var s := sources[|sources| - 1];
      PolledChanges(sources[..|sources| - 1], at) + RestChanges(s.repository, s.resource, at)
  }

  function OperationOf(report: Report): Operation {
    match report
    case Hook(delivery, source, webhook, at) =>
      Delivered(delivery, NormalizeWebhook(webhook, source.repository, delivery, at))
    case Poll(seen, sources, at) => Reconciled(seen, PolledChanges(sources, at))
  }

  function Operations(reports: seq<Report>): seq<Operation> {
    seq(|reports|, i requires 0 <= i < |reports| => OperationOf(reports[i]))
  }

  // ---------------------------------------------------------------- what a checkpoint stands for

  datatype Fact = Fact(key: Key, mark: Mark)

  function FactOf(change: Change): Fact
    requires change.mark.Some?
  {
    Fact(change.key, change.mark.value)
  }

  predicate Ends(run: WorkflowRun) {
    run.status.Completed? && Reported(run.conclusion)
  }

  /** The keys and checkpoints that either path may produce for this snapshot. */
  function Facts(s: Source): set<Fact> {
    match s.resource
    case PullResource(pull) => {FactOf(Opened(s.repository, pull, 0)), FactOf(Merged(s.repository, pull, 0))}
    case RunResource(run) =>
      {FactOf(Started(s.repository, run, 0))}
      + if Ends(run) then {FactOf(Concluded(s.repository, run, 0))} else {}
    case DeploymentResource(d) => {FactOf(Deployed(s.repository, d, 0))}
  }

  /** Two snapshots do not contradict each other: one conclusion for an attempt, one status for a state. */
  predicate Compatible(a: Source, b: Source) {
    a.repository == b.repository ==>
      match a.resource {
        case PullResource(_) => true
        case RunResource(r) =>
          (b.resource.RunResource? && r.id == b.resource.run.id && r.attempt == b.resource.run.attempt
           && Ends(r) && Ends(b.resource.run)) ==> r.conclusion == b.resource.run.conclusion
        case DeploymentResource(d) =>
          (b.resource.DeploymentResource? && d.deployment == b.resource.status.deployment
           && d.state == b.resource.status.state) ==> d.status == b.resource.status.status
      }
  }

  /** Two snapshots share a checkpoint under different keys exactly when they contradict each other. */
  lemma CheckpointsStandForOneKey(a: Source, b: Source)
    ensures (forall f, g :: f in Facts(a) && g in Facts(b) && f.mark == g.mark ==> f.key == g.key) <==> Compatible(a, b)
  {
    if !Compatible(a, b) {
      if a.resource.RunResource? {
        var f, g := FactOf(Concluded(a.repository, a.resource.run, 0)), FactOf(Concluded(b.repository, b.resource.run, 0));
        assert f in Facts(a) && g in Facts(b) && f.mark == g.mark && f.key != g.key;
      } else {
        var f := FactOf(Deployed(a.repository, a.resource.status, 0));
        var g := FactOf(Deployed(b.repository, b.resource.status, 0));
        assert f in Facts(a) && g in Facts(b) && f.mark == g.mark && f.key != g.key;
      }
    }
  }

  predicate IsFact(change: Change, s: Source) {
    change.mark.Some? && FactOf(change) in Facts(s) && !change.mark.value.DeliveryMark?
  }

  lemma ListedAreFacts(s: Source, at: int)
    ensures forall c :: c in RestChanges(s.repository, s.resource, at) ==> IsFact(c, s)
  {
  }

  lemma DeliveredAreFacts(s: Source, webhook: Webhook, delivery: nat, at: int)
    requires webhook in Deliveries(s.resource)
    ensures forall c :: c in NormalizeWebhook(webhook, s.repository, delivery, at) ==> IsFact(c, s)
  {
  }

  // ---------------------------------------------------------------- reports of a set of snapshots

  ghost predicate Consistent(sources: set<Source>) {
    forall a, b :: a in sources && b in sources ==> Compatible(a, b)
  }

  /** The report tells of these snapshots and of nothing else. */
  predicate Truthful(report: Report, sources: set<Source>) {
    match report
    case Hook(_, source, webhook, _) => source in sources && webhook in Deliveries(source.resource)
    case Poll(_, listed, _) => forall s :: s in listed ==> s in sources
  }

  ghost predicate OneContent(reports: seq<Report>) {
    forall a, b :: a in reports && b in reports && a.Hook? && b.Hook? && a.delivery == b.delivery
                   ==> OperationOf(a) == OperationOf(b)
  }

  lemma {:induction false} PolledFrom(sources: seq<Source>, at: int, c: Change)
    requires c in PolledChanges(sources, at)
    ensures exists s :: s in sources && c in RestChanges(s.repository, s.resource, at)
  {
    hide RestChanges;
    var n := |sources| - 1;
    if c in PolledChanges(sources[..n], at) {
      PolledFrom(sources[..n], at, c);
      var s :| s in sources[..n] && c in RestChanges(s.repository, s.resource, at);
      assert s in sources;
    } else {
      assert sources[n] in sources;
    }
  }

  lemma {:induction false} PolledHas(sources: seq<Source>, at: int, s: Source, c: Change)
    requires s in sources && c in RestChanges(s.repository, s.resource, at)
    ensures c in PolledChanges(sources, at)
  {
    hide RestChanges;
    var n := |sources| - 1;
    if s != sources[n] {
      assert s in sources[..n];
      PolledHas(sources[..n], at, s, c);
    }
  }

  lemma ReportsAreFacts(report: Report, sources: set<Source>, c: Change) returns (s: Source)
    requires Truthful(report, sources) && c in OperationOf(report).changes
    ensures s in sources && IsFact(c, s)
  {
    hide RestChanges, NormalizeWebhook, Facts, Deliveries;
    match report
    case Hook(delivery, source, webhook, at) =>
      s := source;
      DeliveredAreFacts(source, webhook, delivery, at);
    case Poll(seen, listed, at) =>
      PolledFrom(listed, at, c);
      s :| s in listed && c in RestChanges(s.repository, s.resource, at);
      ListedAreFacts(s, at);
  }

  ghost predicate AllTruthful(reports: seq<Report>, sources: set<Source>) {
    forall r :: r in reports ==> Truthful(r, sources)
  }

  lemma ReportOf(reports: seq<Report>, op: Operation) returns (r: Report)
    requires op in Operations(reports)
    ensures r in reports && OperationOf(r) == op
  {
    hide OperationOf;
    var i :| 0 <= i < |reports| && Operations(reports)[i] == op;
    r := reports[i];
  }

  /** Reports of consistent snapshots are coherent: that a checkpoint stands for one key is no assumption. */
  lemma RealReportsAreCoherent(reports: seq<Report>, sources: set<Source>)
    requires Consistent(sources) && AllTruthful(reports, sources) && OneContent(reports)
    ensures Coherent(Operations(reports))
  {
    var ops := Operations(reports);
    hide Facts, Compatible, Truthful, Operations, OperationOf;
    forall a, b, c, d | a in ops && b in ops && c in a.changes && d in b.changes && c.mark.Some? && c.mark == d.mark
      ensures c.key == d.key
    {
      var ra := ReportOf(reports, a);
      var rb := ReportOf(reports, b);
      var sa := ReportsAreFacts(ra, sources, c);
      var sb := ReportsAreFacts(rb, sources, d);
      CheckpointsStandForOneKey(sa, sb);
      assert FactOf(c).mark == FactOf(d).mark;
    }
    forall a, c | a in ops && c in a.changes && c.mark.Some? ensures !c.mark.value.DeliveryMark? {
      var ra := ReportOf(reports, a);
      var sa := ReportsAreFacts(ra, sources, c);
    }
    forall a, b | a in ops && b in ops && a.Delivered? && b.Delivered? && a.delivery == b.delivery
      ensures a.changes == b.changes
    {
      var ra := ReportOf(reports, a);
      var rb := ReportOf(reports, b);
      HooksDeliver(ra);
      HooksDeliver(rb);
    }
  }

  lemma HooksDeliver(report: Report)
    ensures OperationOf(report).Delivered? <==> report.Hook?
    ensures report.Hook? ==> OperationOf(report).delivery == report.delivery
  {
  }

  // ---------------------------------------------------------------- one history on both paths

  /** The keys of a snapshot, whatever the time of the listing. */
  function KeysTold(s: Source): set<Key> {
    KeysOf(RestChanges(s.repository, s.resource, 0))
  }

  lemma KeysIgnoreTime(s: Source, at: int)
    ensures KeysOf(RestChanges(s.repository, s.resource, at)) == KeysTold(s)
  {
    match s.resource
    case PullResource(pull) =>
      var a, b := Opened(s.repository, pull, OrElse(RestTime(pull.createdAt), at)), Merged(s.repository, pull, OrElse(RestTime(pull.mergedAt), at));
      var c, d := Opened(s.repository, pull, OrElse(RestTime(pull.createdAt), 0)), Merged(s.repository, pull, OrElse(RestTime(pull.mergedAt), 0));
      FewKeys(a, b, a);
      FewKeys(c, d, c);
      hide KeysOf;
      assert [a] + [] == [a] && [a] + [b] == [a, b] && [c] + [] == [c] && [c] + [d] == [c, d];
    case RunResource(run) =>
      RunListed(run, s.repository, at);
      RunListed(run, s.repository, 0);
      var c := Started(s.repository, run, OrElse(RestTime(run.startedAt), 0));
      var d, e := Concluded(s.repository, run, OrElse(RestTime(run.updatedAt), at)), Concluded(s.repository, run, OrElse(RestTime(run.updatedAt), 0));
      FewKeys(c, d, c);
      FewKeys(c, e, c);
      FewKeys(d, d, d);
      FewKeys(e, e, e);
      hide KeysOf, RestChanges;
    case DeploymentResource(d) =>
      var a, b := Deployed(s.repository, d, OrElse(RestTime(d.createdAt), at)), Deployed(s.repository, d, OrElse(RestTime(d.createdAt), 0));
      FewKeys(a, a, a);
      FewKeys(b, b, b);
      hide KeysOf;
  }

  lemma WebhookKeysIgnoreTime(s: Source, webhook: Webhook, delivery: nat, at: int, other: nat, later: int)
    requires webhook in Deliveries(s.resource)
    ensures KeysOf(NormalizeWebhook(webhook, s.repository, delivery, at))
            <= KeysOf(NormalizeWebhook(webhook, s.repository, other, later))
  {
    var one := NormalizeWebhook(webhook, s.repository, delivery, at);
    var two := NormalizeWebhook(webhook, s.repository, other, later);
    assert |one| == |two| && forall i :: 0 <= i < |one| ==> one[i].key == two[i].key;
    forall k | k in KeysOf(one) ensures k in KeysOf(two) {
      var c :| c in one && c.key == k;
      var i :| 0 <= i < |one| && one[i] == c;
      assert two[i] in two;
    }
  }

  lemma {:induction false} DeliveredKeys(webhooks: seq<Webhook>, repository: nat, delivery: nat, at: int, k: Key)
    ensures k in KeysOf(DeliveredChanges(webhooks, repository, delivery, at))
            <==> exists j :: 0 <= j < |webhooks| && k in KeysOf(NormalizeWebhook(webhooks[j], repository, delivery + j, at))
  {
    hide NormalizeWebhook;
    if |webhooks| > 0 {
      var first, rest := NormalizeWebhook(webhooks[0], repository, delivery, at), DeliveredChanges(webhooks[1..], repository, delivery + 1, at);
      KeysAppend(first, rest);
      DeliveredKeys(webhooks[1..], repository, delivery + 1, at, k);
      hide KeysOf;
      if j :| 0 <= j < |webhooks| - 1 && k in KeysOf(NormalizeWebhook(webhooks[1..][j], repository, delivery + 1 + j, at)) {
        assert webhooks[j + 1] == webhooks[1..][j] && delivery + (j + 1) == delivery + 1 + j;
      }
      if j :| 0 < j < |webhooks| && k in KeysOf(NormalizeWebhook(webhooks[j], repository, delivery + j, at)) {
        assert webhooks[1..][j - 1] == webhooks[j] && delivery + 1 + (j - 1) == delivery + j;
      }
    }
  }

  /** When the listing tells all, a webhook tells nothing else, and each key is told by some webhook. */
  lemma WebhooksTellTheSame(s: Source, k: Key)
    requires TellsAll(s.resource)
    ensures k in KeysTold(s) <==> exists w :: w in Deliveries(s.resource) && k in KeysOf(NormalizeWebhook(w, s.repository, 0, 0))
  {
    var webhooks := Deliveries(s.resource);
    TwoPathsOneHistory(s.resource, s.repository, 0, 0, 0);
    DeliveredKeys(webhooks, s.repository, 0, 0, k);
    hide KeysOf, NormalizeWebhook, RestChanges, DeliveredChanges, Deliveries;
    if j :| 0 <= j < |webhooks| && k in KeysOf(NormalizeWebhook(webhooks[j], s.repository, 0 + j, 0)) {
      WebhookKeysIgnoreTime(s, webhooks[j], j, 0, 0, 0);
      assert webhooks[j] in webhooks;
    }
    if w :| w in webhooks && k in KeysOf(NormalizeWebhook(w, s.repository, 0, 0)) {
      var j :| 0 <= j < |webhooks| && webhooks[j] == w;
      WebhookKeysIgnoreTime(s, w, 0, 0, j, 0);
    }
  }

  function AllKeys(sources: set<Source>): set<Key> {
    set s, k | s in sources && k in KeysTold(s) :: k
  }

  /** A poll listed the snapshot, or every delivery of it arrived. */
  ghost predicate ReportedOn(reports: seq<Report>, s: Source) {
    || (exists r :: r in reports && r.Poll? && s in r.sources)
    || (forall w :: w in Deliveries(s.resource) ==> exists r :: r in reports && r.Hook? && r.source == s && r.webhook == w)
  }

  lemma ReportTellsOf(report: Report, sources: set<Source>, k: Key)
    requires Truthful(report, sources) && (forall s :: s in sources ==> TellsAll(s.resource))
    requires k in KeysOf(OperationOf(report).changes)
    ensures k in AllKeys(sources)
  {
    hide TellsAll, NormalizeWebhook, RestChanges, Deliveries;
    var c :| c in OperationOf(report).changes && c.key == k;
    match report
    case Hook(delivery, source, webhook, at) =>
      WebhookKeysIgnoreTime(source, webhook, delivery, at, 0, 0);
      WebhooksTellTheSame(source, k);
    case Poll(seen, listed, at) =>
      PolledFrom(listed, at, c);
      var s :| s in listed && c in RestChanges(s.repository, s.resource, at);
      KeysIgnoreTime(s, at);
      assert k in KeysOf(RestChanges(s.repository, s.resource, at));
  }

  lemma SourceIsTold(reports: seq<Report>, s: Source, k: Key) returns (r: Report)
    requires ReportedOn(reports, s) && TellsAll(s.resource) && k in KeysTold(s)
    ensures r in reports && k in KeysOf(OperationOf(r).changes)
  {
    hide TellsAll, NormalizeWebhook, RestChanges, Deliveries;
    if p :| p in reports && p.Poll? && s in p.sources {
      r := p;
      KeysIgnoreTime(s, p.at);
      var c :| c in RestChanges(s.repository, s.resource, p.at) && c.key == k;
      PolledHas(p.sources, p.at, s, c);
    } else {
      WebhooksTellTheSame(s, k);
      var w :| w in Deliveries(s.resource) && k in KeysOf(NormalizeWebhook(w, s.repository, 0, 0));
      r :| r in reports && r.Hook? && r.source == s && r.webhook == w;
      WebhookKeysIgnoreTime(s, w, 0, 0, r.delivery, r.at);
    }
  }

  lemma KeysInAre(reports: seq<Report>, k: Key)
    ensures k in KeysIn(Operations(reports)) <==> exists r :: r in reports && k in KeysOf(OperationOf(r).changes)
  {
    var ops := Operations(reports);
    hide OperationOf;
    if k in KeysIn(ops) {
      var op, c :| op in ops && c in op.changes && c.key == k;
      var r := ReportOf(reports, op);
      assert k in KeysOf(OperationOf(r).changes);
    }
    if r :| r in reports && k in KeysOf(OperationOf(r).changes) {
      var i :| 0 <= i < |reports| && reports[i] == r;
      assert ops[i] in ops && ops[i] == OperationOf(r);
    }
  }

  /**
   Webhook deliveries and polls of consistent snapshots, mixed in any causal order, repeated, and with a
   poll's checkpoints as old as they may be, store the keys of exactly these snapshots, once every snapshot
   was polled or fully delivered.
   */
  lemma BothPathsStoreOneHistory(reports: seq<Report>, sources: set<Source>)
    requires Consistent(sources) && AllTruthful(reports, sources) && OneContent(reports) && Causal(Operations(reports))
    requires forall s :: s in sources ==> TellsAll(s.resource) && ReportedOn(reports, s)
    ensures StoreAfter(Operations(reports)).keys == AllKeys(sources)
  {
    RealReportsAreCoherent(reports, sources);
    OrderDoesNotMatter(Operations(reports), Operations(reports));
    hide Coherent, Causal, Consistent, OneContent, TellsAll, ReportedOn, Truthful, StoreAfter, OperationOf, Operations,
         KeysIn, KeysOf, KeysTold;
    forall k ensures k in KeysIn(Operations(reports)) <==> k in AllKeys(sources) {
      KeysInAre(reports, k);
      if r :| r in reports && k in KeysOf(OperationOf(r).changes) {
        ReportTellsOf(r, sources, k);
      }
      if k in AllKeys(sources) {
        var s :| s in sources && k in KeysTold(s);
        var r := SourceIsTold(reports, s, k);
      }
    }
  }

  /** Without one key for the checkpoint order decides, and only then: poll after delivery, delivery after poll. */
  lemma OrderMattersExactly(a: Change, b: Change)
    requires a.mark.Some? && b.mark == a.mark && !a.mark.value.DeliveryMark?
    ensures StoreAfter([Delivered(0, [a]), Reconciled({a.mark.value}, [b])]).keys
            == StoreAfter([Reconciled({}, [b]), Delivered(0, [a])]).keys
            <==> a.key == b.key
  {
    PolledAfterDelivery(a, b);
    DeliveredAfterPoll(a, b);
    hide StoreAfter;
    assert b.key in {a.key, b.key};
  }
}
