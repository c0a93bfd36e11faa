/** Gmail: the deltas of a mailbox history, and their ingestion with replay, message states and trimming. */
module GmailSync {
  import opened Common
  import opened Ordering

  const MESSAGE_STATE_LIMIT := 500

  datatype Metadata = Metadata(thread: nat, receivedAt: int, unread: bool, important: bool)

  datatype MessageChange =
    | Initial | MessageAdded | LabelsChanged(historyId: Option<nat>) | MessageRemoved(historyId: Option<nat>)

  datatype Delta = Delta(id: nat, metadata: Metadata, change: MessageChange)

  // ---------------------------------------------------------------- reading a history

  datatype Removal = Removal(id: nat, thread: Option<nat>)

  // A record id that is not a number, and items without a message id, are None. `labels` lists the
  // added labels before the removed ones.
  datatype HistoryRecord = HistoryRecord(
    id: Option<nat>, added: seq<Option<nat>>, removed: seq<Option<Removal>>, labels: seq<Option<nat>>)

  datatype RemovedAt = RemovedAt(historyId: nat, thread: Option<nat>)

  // What is stored of an earlier message event; without thread or time it cannot stand for the message.
  datatype StoredMail = StoredMail(thread: Option<nat>, receivedAt: Option<int>, unread: bool, important: bool)

  function IdsIn(items: seq<Option<nat>>): set<nat> {
    set x | x in items && x.Some? :: x.value
  }

  function AddedIn(history: seq<HistoryRecord>): set<nat> {
    if |history| == 0 then {} else AddedIn(history[..|history| - 1]) + IdsIn(history[|history| - 1].added)
  }

  /** The record that last changed the labels of each message. */
  function LabelledIn(history: seq<HistoryRecord>): map<nat, nat> {
    if |history| == 0 then map[]
    else
      var r := history[|history| - 1];
      var earlier := LabelledIn(history[..|history| - 1]);
      if r.id.None? then earlier else earlier + map id | id in IdsIn(r.labels) :: r.id.value
  }

  function RemovedBy(items: seq<Option<Removal>>, historyId: nat): map<nat, RemovedAt> {
    if |items| == 0 then map[]
    else
      var item := items[|items| - 1];
      var earlier := RemovedBy(items[..|items| - 1], historyId);
      if item.None? then earlier else earlier[item.value.id := RemovedAt(historyId, item.value.thread)]
  }

  function RemovedIn(history: seq<HistoryRecord>): map<nat, RemovedAt> {
    if |history| == 0 then map[]
    else
      var r := history[|history| - 1];
      var earlier := RemovedIn(history[..|history| - 1]);
      if r.id.None? then earlier else earlier + RemovedBy(r.removed, r.id.value)
  }

  function PreviousMetadata(stored: map<nat, StoredMail>, id: nat, fallback: Option<nat>): Option<Metadata> {
    if id !in stored then None
    else
      var mail := stored[id];
      var thread := if mail.thread.Some? then mail.thread else fallback;
      if thread.None? || mail.receivedAt.None? then None
      else Some(Metadata(thread.value, mail.receivedAt.value, mail.unread, mail.important))
  }

  // A dictionary lists its keys in the order of their first assignment.
  function Noted(order: seq<nat>, id: nat): seq<nat> {
    if id in order then order else order + [id]
  }

  function NotedAll(order: seq<nat>, items: seq<Option<Removal>>): seq<nat> {
    if |items| == 0 then order
    else
      var earlier := NotedAll(order, items[..|items| - 1]);
      var item := items[|items| - 1];
      if item.None? then earlier else Noted(earlier, item.value.id)
  }

  /** The removed messages in the order in which the history first names them. */
  function RemovalOrder(history: seq<HistoryRecord>): seq<nat> {
    if |history| == 0 then []
    else
      var r := history[|history| - 1];
      var earlier := RemovalOrder(history[..|history| - 1]);
      if r.id.None? then earlier else NotedAll(earlier, r.removed)
  }

  function ChangedIds(history: seq<HistoryRecord>): set<nat> {
    AddedIn(history) + LabelledIn(history).Keys - RemovedIn(history).Keys
  }

  /** Deletion over addition over label change; nothing where no metadata can be had. */
  function DeltaFor(
    history: seq<HistoryRecord>, available: map<nat, Metadata>, stored: map<nat, StoredMail>, id: nat): Option<Delta>
  {
    if id in RemovedIn(history) then
      var removed := RemovedIn(history)[id];
      var previous := PreviousMetadata(stored, id, removed.thread);
      if previous.None? then None else Some(Delta(id, previous.value, MessageRemoved(Some(removed.historyId))))
    else if id !in available then None
    else if id in AddedIn(history) then Some(Delta(id, available[id], MessageAdded))
    else if id in LabelledIn(history) then Some(Delta(id, available[id], LabelsChanged(Some(LabelledIn(history)[id]))))
    else None
  }

  predicate OnePerMessage(deltas: seq<Delta>) {
    forall i, j :: 0 <= i < j < |deltas| ==> deltas[i].id != deltas[j].id
  }

  lemma IdsInAppend(items: seq<Option<nat>>, item: Option<nat>)
    ensures IdsIn(items + [item]) == IdsIn(items) + if item.Some? then {item.value} else {}
  {
    assert forall x :: x in items + [item] <==> x in items || x == item;
  }

  method CollectIds(items: seq<Option<nat>>) returns (ids: set<nat>)
    ensures ids == IdsIn(items)
  {
    ids := {};
    var k := 0;
    assert items[..0] == [];
    while k < |items|
      invariant 0 <= k <= |items| && ids == IdsIn(items[..k])
    {
      IdsInAppend(items[..k], items[k]);
      assert items[..k + 1] == items[..k] + [items[k]];
      if items[k].Some? { ids := ids + {items[k].value}; }
      k := k + 1;
    }
    assert items[..|items|] == items;
  }

  method CollectRemovals(items: seq<Option<Removal>>, historyId: nat, known: seq<nat>)
    returns (removals: map<nat, RemovedAt>, order: seq<nat>)
    ensures removals == RemovedBy(items, historyId) && order == NotedAll(known, items)
  {
    removals, order := map[], known;
    var k := 0;
    assert items[..0] == [];
    while k < |items|
      invariant 0 <= k <= |items|
      invariant removals == RemovedBy(items[..k], historyId) && order == NotedAll(known, items[..k])
    {
      assert items[..k + 1][..k] == items[..k];
      if items[k].Some? {
        removals := removals[items[k].value.id := RemovedAt(historyId, items[k].value.thread)];
        if items[k].value.id !in order { order := order + [items[k].value.id]; }
      }
      k := k + 1;
    }
    assert items[..|items|] == items;
  }

  lemma {:induction false} NotedOnce(known: seq<nat>, items: seq<Option<Removal>>, historyId: nat)
    requires NoRepeats(known)
    ensures var order := NotedAll(known, items);
      && NoRepeats(order)
      && (forall id :: id in order <==> id in known || id in RemovedBy(items, historyId))
  {
    if |items| > 0 {
      NotedOnce(known, items[..|items| - 1], historyId);
    }
  }

  lemma {:induction false} RemovalsAreListedOnce(history: seq<HistoryRecord>)
    ensures var order := RemovalOrder(history);
      && NoRepeats(order)
      && (forall id :: id in order <==> id in RemovedIn(history))
  {
    if |history| > 0 {
      var n := |history| - 1;
      var earlier := RemovalOrder(history[..n]);
      RemovalsAreListedOnce(history[..n]);
      if history[n].id.Some? { NotedOnce(earlier, history[n].removed, history[n].id.value); }
    }
  }

  method ReadHistory(history: seq<HistoryRecord>)
    returns (additions: set<nat>, labelChanges: map<nat, nat>, deletions: map<nat, RemovedAt>, order: seq<nat>)
    ensures additions == AddedIn(history) && labelChanges == LabelledIn(history) && deletions == RemovedIn(history)
    ensures order == RemovalOrder(history)
  {
    additions, labelChanges, deletions, order := {}, map[], map[], [];
    var i := 0;
    assert history[..0] == [];
    while i < |history|
      invariant 0 <= i <= |history|
      invariant additions == AddedIn(history[..i])
      invariant labelChanges == LabelledIn(history[..i])
      invariant deletions == RemovedIn(history[..i]) && order == RemovalOrder(history[..i])
    {
      var record := history[i];
      assert history[..i + 1][..i] == history[..i];
      var added := CollectIds(record.added);
      additions := additions + added;
      if record.id.Some? {
        var removed, longer := CollectRemovals(record.removed, record.id.value, order);
        deletions, order := deletions + removed, longer;
        var labelled := CollectIds(record.labels);
        labelChanges := labelChanges + map id | id in labelled :: record.id.value;
      }
      i := i + 1;
    }
    assert history[..|history|] == history;
  }

  /** The deltas of these messages, one after another. */
  function Gather(
    ids: seq<nat>, history: seq<HistoryRecord>, available: map<nat, Metadata>, stored: map<nat, StoredMail>): seq<Delta>
  {
    if |ids| == 0 then []
    else
      var front := Gather(ids[..|ids| - 1], history, available, stored);
      var delta := DeltaFor(history, available, stored, ids[|ids| - 1]);
      if delta.Some? then front + [delta.value] else front
  }

  lemma {:induction false} GatherIsExact(
    ids: seq<nat>, history: seq<HistoryRecord>, available: map<nat, Metadata>, stored: map<nat, StoredMail>)
    requires NoRepeats(ids)
    ensures OnePerMessage(Gather(ids, history, available, stored))
    ensures forall d :: d in Gather(ids, history, available, stored)
                        <==> d.id in ids && DeltaFor(history, available, stored, d.id) == Some(d)
  {
    if |ids| > 0 {
      var n := |ids| - 1;
      GatherIsExact(ids[..n], history, available, stored);
      DeltaHasId(history, available, stored, ids[n]);
      hide DeltaFor;
      var front := Gather(ids[..n], history, available, stored);
      assert ids == ids[..n] + [ids[n]] && ids[n] !in ids[..n];
      assert forall i :: 0 <= i < |front| ==> front[i] in front;
    }
  }

  lemma DeltaHasId(history: seq<HistoryRecord>, available: map<nat, Metadata>, stored: map<nat, StoredMail>, id: nat)
    ensures var d := DeltaFor(history, available, stored, id);
      d.Some? ==> d.value.id == id && (id in AddedIn(history) || id in LabelledIn(history) || id in RemovedIn(history))
  {
  }

  method GatherChanges(
    ids: seq<nat>, additions: set<nat>, labelChanges: map<nat, nat>,
    ghost history: seq<HistoryRecord>, available: map<nat, Metadata>, ghost stored: map<nat, StoredMail>)
    returns (deltas: seq<Delta>)
    requires additions == AddedIn(history) && labelChanges == LabelledIn(history)
    requires forall id :: id in ids ==> id !in RemovedIn(history) && (id in additions || id in labelChanges)
    ensures deltas == Gather(ids, history, available, stored)
  {
    deltas := [];
    var i := 0;
    assert ids[..0] == [];
    while i < |ids|
      invariant 0 <= i <= |ids| && deltas == Gather(ids[..i], history, available, stored)
    {
      assert ids[..i + 1][..i] == ids[..i];
      var id := ids[i];
      assert id in ids;
      i := i + 1;
      if id !in available { continue; }
      if id in additions {
        deltas := deltas + [Delta(id, available[id], MessageAdded)];
      } else {
        deltas := deltas + [Delta(id, available[id], LabelsChanged(Some(labelChanges[id])))];
      }
    }
    assert ids[..|ids|] == ids;
  }

  method GatherDeletions(
    ids: seq<nat>, deletions: map<nat, RemovedAt>,
    ghost history: seq<HistoryRecord>, ghost available: map<nat, Metadata>, stored: map<nat, StoredMail>)
    returns (deltas: seq<Delta>)
    requires deletions == RemovedIn(history) && forall id :: id in ids ==> id in deletions
    ensures deltas == Gather(ids, history, available, stored)
  {
    deltas := [];
    var i := 0;
    assert ids[..0] == [];
    while i < |ids|
      invariant 0 <= i <= |ids| && deltas == Gather(ids[..i], history, available, stored)
    {
      assert ids[..i + 1][..i] == ids[..i];
      var id := ids[i];
      assert id in ids;
      var previous := PreviousMetadata(stored, id, deletions[id].thread);
      if previous.Some? {
        deltas := deltas + [Delta(id, previous.value, MessageRemoved(Some(deletions[id].historyId)))];
      }
      i := i + 1;
    }
    assert ids[..|ids|] == ids;
  }

  lemma GatheredAll(
    changed: seq<nat>, deleted: seq<nat>,
    history: seq<HistoryRecord>, available: map<nat, Metadata>, stored: map<nat, StoredMail>)
    requires NoRepeats(changed + deleted)
    requires forall id :: id in AddedIn(history) || id in LabelledIn(history) || id in RemovedIn(history)
                          ==> id in changed + deleted
    ensures var deltas := Gather(changed, history, available, stored) + Gather(deleted, history, available, stored);
      OnePerMessage(deltas) && forall d :: d in deltas <==> DeltaFor(history, available, stored, d.id) == Some(d)
  {
    hide DeltaFor;
    GatherConcat(changed, deleted, history, available, stored);
    GatherIsExact(changed + deleted, history, available, stored);
    hide Gather, OnePerMessage;
    forall d: Delta ensures DeltaFor(history, available, stored, d.id) == Some(d) ==> d.id in changed + deleted {
      DeltaHasId(history, available, stored, d.id);
    }
  }

  lemma {:induction false} GatherConcat(
    a: seq<nat>, b: seq<nat>, history: seq<HistoryRecord>, available: map<nat, Metadata>, stored: map<nat, StoredMail>)
    ensures Gather(a + b, history, available, stored)
            == Gather(a, history, available, stored) + Gather(b, history, available, stored)
  {
    hide DeltaFor;
    if |b| == 0 {
      assert a + b == a;
    } else {
      GatherConcat(a, b[..|b| - 1], history, available, stored);
      assert (a + b)[..|a + b| - 1] == a + b[..|b| - 1];
    }
  }

  // ---------------------------------------------------------------- the same, read off the records

  ghost predicate Adds(history: seq<HistoryRecord>, id: nat) {
    exists k :: 0 <= k < |history| && Some(id) in history[k].added
  }

  /** Record `k` has a number, and its item `m` removes the message. */
  ghost predicate RemovesAt(history: seq<HistoryRecord>, k: nat, m: nat, id: nat) {
    k < |history| && history[k].id.Some? && m < |history[k].removed|
    && history[k].removed[m].Some? && history[k].removed[m].value.id == id
  }

  ghost predicate Removes(history: seq<HistoryRecord>, k: nat, id: nat) {
    k < |history| && exists m: nat :: m < |history[k].removed| && RemovesAt(history, k, m, id)
  }

  /** Record `k` has a number and names the message among its labels. */
  ghost predicate Labels(history: seq<HistoryRecord>, k: nat, id: nat) {
    k < |history| && history[k].id.Some? && Some(id) in history[k].labels
  }

  ghost predicate Untouched(history: seq<HistoryRecord>, id: nat) {
    forall k: nat :: k < |history| ==> !Removes(history, k, id)
  }

  /** The last record, and its last item, that removes the message. */
  ghost predicate LastRemoval(history: seq<HistoryRecord>, k: nat, m: nat, id: nat) {
    && RemovesAt(history, k, m, id)
    && (forall later: nat :: k < later < |history| ==> !Removes(history, later, id))
    && (forall later: nat :: m < later < |history[k].removed| ==> !RemovesAt(history, k, later, id))
  }

  ghost predicate LastLabel(history: seq<HistoryRecord>, k: nat, id: nat) {
    Labels(history, k, id) && forall later: nat :: k < later < |history| ==> !Labels(history, later, id)
  }

  /** What a delta says, told from the records, the mailbox and the stored events. */
  ghost predicate Reports(
    history: seq<HistoryRecord>, available: map<nat, Metadata>, stored: map<nat, StoredMail>, d: Delta)
  {
    match d.change
    case Initial => false
    case MessageAdded =>
      Untouched(history, d.id) && Adds(history, d.id) && d.id in available && d.metadata == available[d.id]
    case LabelsChanged(change) =>
      && Untouched(history, d.id) && !Adds(history, d.id) && d.id in available && d.metadata == available[d.id]
      && exists k: nat :: k < |history| && LastLabel(history, k, d.id) && change == history[k].id
    case MessageRemoved(change) =>
      exists k: nat, m: nat :: k < |history| && LastRemoval(history, k, m, d.id) && change == history[k].id
                               && Recalls(stored, d.id, history[k].removed[m].value.thread, d.metadata)
  }

  /** The metadata of the stored event, its thread taken from the removal where the event has none. */
  ghost predicate Recalls(stored: map<nat, StoredMail>, id: nat, thread: Option<nat>, metadata: Metadata) {
    && id in stored && stored[id].receivedAt == Some(metadata.receivedAt)
    && metadata.unread == stored[id].unread && metadata.important == stored[id].important
    && (if stored[id].thread.Some? then stored[id].thread else thread) == Some(metadata.thread)
  }

  lemma {:induction false} AddedIsAdds(history: seq<HistoryRecord>, id: nat)
    ensures id in AddedIn(history) <==> Adds(history, id)
  {
    if |history| > 0 {
      var n := |history| - 1;
      AddedIsAdds(history[..n], id);
      assert id in IdsIn(history[n].added) <==> Some(id) in history[n].added;
      hide AddedIn, IdsIn;
      if Adds(history[..n], id) {
        var k :| 0 <= k < n && Some(id) in history[..n][k].added;
        assert Some(id) in history[k].added;
      }
      if k :| 0 <= k < |history| && Some(id) in history[k].added {
        if k < n { assert Some(id) in history[..n][k].added; }
      }
    }
  }

  lemma LabelsOfFront(history: seq<HistoryRecord>, id: nat)
    requires |history| > 0
    ensures forall k: nat :: k < |history| - 1 ==> (Labels(history[..|history| - 1], k, id) <==> Labels(history, k, id))
  {
  }

  lemma NotLastLabel(history: seq<HistoryRecord>, n: nat, id: nat)
    requires n + 1 == |history| && !Labels(history, n, id)
    ensures forall k: nat :: LastLabel(history, k, id) ==> k < n
  {
  }

  lemma {:induction false} LabelledIsLastLabel(history: seq<HistoryRecord>, id: nat)
    ensures id in LabelledIn(history) <==> exists k: nat :: k < |history| && Labels(history, k, id)
    ensures forall k: nat :: LastLabel(history, k, id) ==> id in LabelledIn(history) && history[k].id == Some(LabelledIn(history)[id])
    ensures id in LabelledIn(history) ==> exists k: nat :: k < |history| && LastLabel(history, k, id)
  {
    if |history| > 0 {
      var n := |history| - 1;
      LabelledIsLastLabel(history[..n], id);
      LabelsOfFront(history, id);
      assert id in IdsIn(history[n].labels) <==> Some(id) in history[n].labels;
      hide IdsIn;
      if Labels(history, n, id) {
        assert LastLabel(history, n, id);
      } else {
        hide Labels;
        forall k: nat | k < n ensures LastLabel(history[..n], k, id) <==> LastLabel(history, k, id) {
          forall later: nat | later < |history|
            ensures Labels(history, later, id) <==> later < n && Labels(history[..n], later, id) {}
        }
        NotLastLabel(history, n, id);
      }
    }
  }

  lemma {:induction false} LastItemOf(items: seq<Option<Removal>>, historyId: nat, id: nat) returns (m: nat)
    ensures id in RemovedBy(items, historyId) ==>
              LastNaming(items, m, id) && RemovedBy(items, historyId)[id] == RemovedAt(historyId, items[m].value.thread)
    ensures id !in RemovedBy(items, historyId) ==> forall k: nat :: !Names(items, k, id)
  {
    m := 0;
    if |items| > 0 {
      var n := |items| - 1;
      m := LastItemOf(items[..n], historyId, id);
      forall k: nat | k < n ensures items[..n][k] == items[k] && (Names(items[..n], k, id) <==> Names(items, k, id)) {}
      if Names(items, n, id) { m := n; }
    }
  }

  lemma OneLastNaming(items: seq<Option<Removal>>, m: nat, k: nat, id: nat)
    requires LastNaming(items, m, id) && LastNaming(items, k, id)
    ensures m == k
  {
    assert !(m < k < |items|) && !(k < m < |items|);
  }

  predicate Names(items: seq<Option<Removal>>, m: nat, id: nat) {
    m < |items| && items[m].Some? && items[m].value.id == id
  }

  predicate LastNaming(items: seq<Option<Removal>>, m: nat, id: nat) {
    Names(items, m, id) && forall later: nat :: m < later < |items| ==> !Names(items, later, id)
  }

  lemma RemovalInRecord(history: seq<HistoryRecord>, k: nat, id: nat)
    requires k < |history| && history[k].id.Some?
    ensures var items := history[k].removed;
      && (Removes(history, k, id) <==> id in RemovedBy(items, history[k].id.value))
      && (forall m: nat :: RemovesAt(history, k, m, id) <==> Names(items, m, id))
      && (id in RemovedBy(items, history[k].id.value) ==> exists m: nat :: m < |items| && LastNaming(items, m, id))
      && forall m: nat :: LastNaming(items, m, id) ==>
           id in RemovedBy(items, history[k].id.value)
           && RemovedBy(items, history[k].id.value)[id] == RemovedAt(history[k].id.value, items[m].value.thread)
  {
    var items := history[k].removed;
    var last := LastItemOf(items, history[k].id.value, id);
    hide RemovedBy;
    forall m: nat | LastNaming(items, m, id) ensures m < |items| && (id in RemovedBy(items, history[k].id.value) ==> m == last) {
      if id in RemovedBy(items, history[k].id.value) { OneLastNaming(items, m, last, id); }
    }
    forall m: nat ensures RemovesAt(history, k, m, id) <==> Names(history[k].removed, m, id) {}
    if m: nat :| m < |history[k].removed| && Names(history[k].removed, m, id) { assert RemovesAt(history, k, m, id); }
  }

  lemma RemovalsOfFront(history: seq<HistoryRecord>, id: nat)
    requires |history| > 0
    ensures var n := |history| - 1;
      && (forall k: nat, m: nat :: k < n ==> (RemovesAt(history[..n], k, m, id) <==> RemovesAt(history, k, m, id)))
      && (forall k: nat :: k < n ==> (Removes(history[..n], k, id) <==> Removes(history, k, id)))
  {
    var n := |history| - 1;
    forall k: nat, m: nat | k < n ensures RemovesAt(history[..n], k, m, id) <==> RemovesAt(history, k, m, id) {
      assert history[..n][k] == history[k];
    }
    forall k: nat | k < n ensures Removes(history[..n], k, id) <==> Removes(history, k, id) {
      assert history[..n][k] == history[k];
      hide RemovesAt;
    }
  }

  lemma LastRecordRemoves(history: seq<HistoryRecord>, id: nat)
    requires |history| > 0 && Removes(history, |history| - 1, id)
    ensures id in RemovedIn(history) && !Untouched(history, id)
    ensures forall k: nat, m: nat :: LastRemoval(history, k, m, id) ==>
              && k == |history| - 1 && history[k].id == Some(RemovedIn(history)[id].historyId)
              && history[k].removed[m].value.thread == RemovedIn(history)[id].thread
    ensures exists k: nat, m: nat :: k < |history| && LastRemoval(history, k, m, id)
  {
    var n := |history| - 1;
    var items := history[n].removed;
    RemovalInRecord(history, n, id);
    hide RemovedBy, RemovesAt, Removes;
    var m: nat :| m < |items| && LastNaming(items, m, id);
    assert LastRemoval(history, n, m, id);
    forall k: nat, m: nat | LastRemoval(history, k, m, id) ensures k == n && (k == n ==> LastNaming(items, m, id)) {
      LastRemovalRemoves(history, k, m, id);
    }
  }

  lemma LastRemovalRemoves(history: seq<HistoryRecord>, k: nat, m: nat, id: nat)
    requires LastRemoval(history, k, m, id)
    ensures k < |history| && m < |history[k].removed| && Removes(history, k, id)
  {
  }

  lemma LastRecordSpares(history: seq<HistoryRecord>, id: nat)
    requires |history| > 0 && !Removes(history, |history| - 1, id)
    ensures var front := history[..|history| - 1];
      && (id in RemovedIn(history) <==> id in RemovedIn(front))
      && (id in RemovedIn(front) ==> RemovedIn(history)[id] == RemovedIn(front)[id])
      && (Untouched(history, id) <==> Untouched(front, id))
      && forall k: nat, m: nat :: LastRemoval(history, k, m, id) <==> k < |front| && LastRemoval(front, k, m, id)
  {
    var n := |history| - 1;
    var front := history[..n];
    RemovalsOfFront(history, id);
    if history[n].id.Some? { RemovalInRecord(history, n, id); }
    hide RemovedBy;
    forall k: nat, m: nat ensures LastRemoval(history, k, m, id) <==> k < |front| && LastRemoval(front, k, m, id) {
      assert forall item: nat :: !RemovesAt(history, n, item, id);
      hide RemovesAt, Removes;
      if k < n { assert front[k] == history[k]; }
    }
    hide RemovesAt, Removes, LastRemoval;
  }

  /** Removed messages are those that some numbered record removes; the last removal is kept. */
  lemma {:induction false} RemovedIsLastRemoval(history: seq<HistoryRecord>, id: nat)
    ensures id in RemovedIn(history) <==> !Untouched(history, id)
    ensures forall k: nat, m: nat :: LastRemoval(history, k, m, id) ==>
              k < |history| && m < |history[k].removed| && history[k].removed[m].Some?
              && id in RemovedIn(history) && history[k].id == Some(RemovedIn(history)[id].historyId)
              && history[k].removed[m].value.thread == RemovedIn(history)[id].thread
    ensures id in RemovedIn(history) ==> exists k: nat, m: nat :: k < |history| && LastRemoval(history, k, m, id)
  {
    forall k: nat, m: nat | LastRemoval(history, k, m, id)
      ensures k < |history| && m < |history[k].removed| && history[k].removed[m].Some? {}
    if |history| > 0 {
      var n := |history| - 1;
      RemovedIsLastRemoval(history[..n], id);
      if Removes(history, n, id) {
        LastRecordRemoves(history, id);
      } else {
        LastRecordSpares(history, id);
        forall k: nat | k < n ensures history[..n][k] == history[k] {}
      }
      hide RemovedIn, Removes, LastRemoval, Untouched;
    }
  }

  /** The delta of a message is the one that the records tell, and it is there wherever its metadata can be had. */
  lemma DeltasAreReports(
    history: seq<HistoryRecord>, available: map<nat, Metadata>, stored: map<nat, StoredMail>, d: Delta)
    ensures DeltaFor(history, available, stored, d.id) == Some(d) <==> Reports(history, available, stored, d)
  {
    AddedIsAdds(history, d.id);
    LabelledIsLastLabel(history, d.id);
    RemovedIsLastRemoval(history, d.id);
    hide AddedIn, LabelledIn, RemovedIn, Adds, Untouched, LastRemoval, LastLabel, Labels;
  }

  // ---------------------------------------------------------------- the order of the deltas

  /** Some removal of `a` comes before every removal of `b`. */
  ghost predicate NamedBefore(history: seq<HistoryRecord>, a: nat, b: nat) {
    exists k: nat, m: nat :: k < |history| && RemovesAt(history, k, m, a) && NotYet(history, k, m, b)
  }

  ghost predicate NotYet(history: seq<HistoryRecord>, k: nat, m: nat, id: nat) {
    forall i: nat, j: nat :: i < k || (i == k && j <= m) ==> !RemovesAt(history, i, j, id)
  }

  /** The ids noted from one record follow the known ones, in the order of their first naming. */
  ghost predicate NotedInOrder(known: seq<nat>, items: seq<Option<Removal>>, order: seq<nat>) {
    && known <= order
    && (forall q: nat :: |known| <= q < |order| ==> order[q] !in known)
    && (forall p: nat, q: nat :: |known| <= p < q < |order| ==> FirstNamed(items, order[p], order[q]))
  }

  ghost predicate FirstNamed(items: seq<Option<Removal>>, a: nat, b: nat) {
    exists m: nat :: m < |items| && Names(items, m, a) && forall j: nat :: j <= m ==> !Names(items, j, b)
  }

  ghost predicate NamedIn(items: seq<Option<Removal>>, id: nat) {
    exists m: nat :: m < |items| && Names(items, m, id)
  }

  lemma NamedInTheFront(items: seq<Option<Removal>>, n: nat, id: nat)
    requires |items| == n + 1
    ensures NamedIn(items, id) <==> NamedIn(items[..n], id) || Names(items, n, id)
  {
    forall m: nat | m < n ensures Names(items[..n], m, id) <==> Names(items, m, id) {}
  }

  lemma {:induction false} NotesAreNames(known: seq<nat>, items: seq<Option<Removal>>, id: nat)
    ensures id in NotedAll(known, items) <==> id in known || NamedIn(items, id)
  {
    if |items| > 0 {
      NotesAreNames(known, items[..|items| - 1], id);
      NamedInTheFront(items, |items| - 1, id);
      hide NamedIn;
    }
  }

  lemma FirstNamedStays(items: seq<Option<Removal>>, n: nat, a: nat, b: nat)
    requires |items| == n + 1
    requires FirstNamed(items[..n], a, b) || (NamedIn(items[..n], a) && !NamedIn(items[..n], b))
    ensures FirstNamed(items, a, b)
  {
    forall m: nat | m < n ensures Names(items[..n], m, a) <==> Names(items, m, a) {}
    forall m: nat | m < n ensures Names(items[..n], m, b) <==> Names(items, m, b) {}
    var m: nat :| m < n && Names(items[..n], m, a) && (FirstNamed(items[..n], a, b) ==> forall j: nat :: j <= m ==> !Names(items[..n], j, b));
    assert Names(items, m, a);
  }

  lemma {:induction false} NotesInOrder(known: seq<nat>, items: seq<Option<Removal>>)
    ensures NotedInOrder(known, items, NotedAll(known, items))
  {
    if |items| > 0 {
      var n := |items| - 1;
      var front, order := NotedAll(known, items[..n]), NotedAll(known, items);
      NotesInOrder(known, items[..n]);
      forall id ensures id in front <==> id in known || NamedIn(items[..n], id) { NotesAreNames(known, items[..n], id); }
      assert front <= order && |order| <= |front| + 1;
      assert |order| > |front| ==> order[|front|] !in front;
      hide NotedAll, NamedIn, FirstNamed;
      forall p: nat, q: nat | |known| <= p < q < |order| ensures FirstNamed(items, order[p], order[q]) {
        assert order[p] == front[p] && front[p] in front;
        FirstNamedStays(items, n, order[p], order[q]);
      }
    }
  }

  /** The removals are listed in the order in which the history first names them. */
  lemma {:induction false} RemovalsComeAsNamed(history: seq<HistoryRecord>, p: nat, q: nat)
    requires p < q < |RemovalOrder(history)|
    ensures NamedBefore(history, RemovalOrder(history)[p], RemovalOrder(history)[q])
  {
    var n := |history| - 1;
    var front, order := RemovalOrder(history[..n]), RemovalOrder(history);
    RemovalsAreListedOnce(history[..n]);
    if history[n].id.Some? {
      NotesInOrder(front, history[n].removed);
      hide NotedAll;
      if q < |front| {
        RemovalsComeAsNamed(history[..n], p, q);
        NamedInFront(history, order[p], order[q]);
      } else {
        assert order[q] !in front;
        RemovedIsLastRemoval(history[..n], order[q]);
        hide RemovedIn, NotedInOrder, RemovesAt, Removes;
        if p < |front| {
          assert order[p] == front[p];
          RemovedIsLastRemoval(history[..n], order[p]);
          NewlyNamed(history, order[p], order[q]);
        } else {
          NamedInRecord(history, order[p], order[q]);
        }
      }
    } else {
      RemovalsComeAsNamed(history[..n], p, q);
      NamedInFront(history, order[p], order[q]);
    }
  }

  lemma NamedInFront(history: seq<HistoryRecord>, a: nat, b: nat)
    requires |history| > 0 && NamedBefore(history[..|history| - 1], a, b)
    ensures NamedBefore(history, a, b)
  {
    RemovalsOfFront(history, a);
    RemovalsOfFront(history, b);
    hide RemovesAt;
    var front := history[..|history| - 1];
    var k: nat, m: nat :| k < |front| && RemovesAt(front, k, m, a) && NotYet(front, k, m, b);
    assert RemovesAt(history, k, m, a) && NotYet(history, k, m, b);
  }

  lemma NewlyNamed(history: seq<HistoryRecord>, a: nat, b: nat)
    requires |history| > 0 && !Untouched(history[..|history| - 1], a) && Untouched(history[..|history| - 1], b)
    ensures NamedBefore(history, a, b)
  {
    RemovalsOfFront(history, a);
    RemovalsOfFront(history, b);
    var front := history[..|history| - 1];
    var k: nat :| k < |front| && Removes(front, k, a);
    var m: nat :| m < |front[k].removed| && RemovesAt(front, k, m, a);
    assert RemovesAt(history, k, m, a);
    forall i: nat, j: nat | i <= k ensures !RemovesAt(history, i, j, b) {
      assert !Removes(front, i, b) && front[i] == history[i];
    }
    assert NotYet(history, k, m, b);
  }

  lemma NamedInRecord(history: seq<HistoryRecord>, a: nat, b: nat)
    requires |history| > 0 && history[|history| - 1].id.Some?
    requires FirstNamed(history[|history| - 1].removed, a, b) && Untouched(history[..|history| - 1], b)
    ensures NamedBefore(history, a, b)
  {
    var n := |history| - 1;
    RemovalsOfFront(history, b);
    var m: nat :| m < |history[n].removed| && Names(history[n].removed, m, a)
                  && forall j: nat :: j <= m ==> !Names(history[n].removed, j, b);
    assert RemovesAt(history, n, m, a);
    forall i: nat, j: nat | i < n || (i == n && j <= m) ensures !RemovesAt(history, i, j, b) {
      if i < n {
        assert !Removes(history[..n], i, b) && history[..n][i] == history[i];
      } else {
        assert !Names(history[n].removed, j, b);
      }
    }
    assert NotYet(history, n, m, b);
  }

  lemma {:induction false} GatherKeepsOrder(
    ids: seq<nat>, history: seq<HistoryRecord>, available: map<nat, Metadata>, stored: map<nat, StoredMail>, i: nat, j: nat)
    returns (p: nat, q: nat)
    requires i < j < |Gather(ids, history, available, stored)|
    ensures var deltas := Gather(ids, history, available, stored);
      p < q < |ids| && ids[p] == deltas[i].id && ids[q] == deltas[j].id
  {
    hide DeltaFor;
    var n := |ids| - 1;
    DeltaHasId(history, available, stored, ids[n]);
    var front := Gather(ids[..n], history, available, stored);
    if j < |front| {
      p, q := GatherKeepsOrder(ids[..n], history, available, stored, i, j);
    } else {
      q := n;
      p := GatheredFrom(ids[..n], history, available, stored, i);
    }
  }

  lemma {:induction false} GatheredFrom(
    ids: seq<nat>, history: seq<HistoryRecord>, available: map<nat, Metadata>, stored: map<nat, StoredMail>, i: nat)
    returns (p: nat)
    requires i < |Gather(ids, history, available, stored)|
    ensures p < |ids| && ids[p] == Gather(ids, history, available, stored)[i].id
  {
    hide DeltaFor;
    var n := |ids| - 1;
    DeltaHasId(history, available, stored, ids[n]);
    var front := Gather(ids[..n], history, available, stored);
    if i < |front| { p := GatheredFrom(ids[..n], history, available, stored, i); } else { p := n; }
  }

  /** Changes by message id, then removals as the history first names them. */
  ghost predicate InOrder(history: seq<HistoryRecord>, deltas: seq<Delta>) {
    forall i: nat, j: nat :: i < j < |deltas| ==> InTurn(history, deltas[i], deltas[j])
  }

  ghost predicate InTurn(history: seq<HistoryRecord>, a: Delta, b: Delta) {
    if a.change.MessageRemoved? then b.change.MessageRemoved? && NamedBefore(history, a.id, b.id)
    else b.change.MessageRemoved? || a.id < b.id
  }

  lemma GatheredInOrder(history: seq<HistoryRecord>, available: map<nat, Metadata>, stored: map<nat, StoredMail>)
    ensures InOrder(history, Gather(Ascending(ChangedIds(history)), history, available, stored)
                             + Gather(RemovalOrder(history), history, available, stored))
  {
    var changed, removed := Ascending(ChangedIds(history)), RemovalOrder(history);
    var first, second := Gather(changed, history, available, stored), Gather(removed, history, available, stored);
    var deltas := first + second;
    RemovalsAreListedOnce(history);
    hide Gather, InTurn;
    forall i: nat, j: nat | i < j < |deltas| ensures InTurn(history, deltas[i], deltas[j]) {
      if j < |first| {
        ChangesInTurn(history, available, stored, i, j);
      } else if i < |first| {
        ChangeBeforeRemoval(history, available, stored, i, j - |first|);
      } else {
        RemovalsInTurn(history, available, stored, i - |first|, j - |first|);
      }
    }
  }

  lemma KindFollowsId(history: seq<HistoryRecord>, available: map<nat, Metadata>, stored: map<nat, StoredMail>, ids: seq<nat>, i: nat)
    requires i < |Gather(ids, history, available, stored)|
    ensures var d := Gather(ids, history, available, stored)[i]; d.change.MessageRemoved? <==> d.id in RemovedIn(history)
  {
    GatheredDelta(ids, history, available, stored, i);
    hide Gather, RemovedIn, AddedIn, LabelledIn, PreviousMetadata;
  }

  lemma {:induction false} GatheredDelta(
    ids: seq<nat>, history: seq<HistoryRecord>, available: map<nat, Metadata>, stored: map<nat, StoredMail>, i: nat)
    requires i < |Gather(ids, history, available, stored)|
    ensures var d := Gather(ids, history, available, stored)[i]; DeltaFor(history, available, stored, d.id) == Some(d)
  {
    hide DeltaFor;
    var n := |ids| - 1;
    DeltaHasId(history, available, stored, ids[n]);
    if i < |Gather(ids[..n], history, available, stored)| { GatheredDelta(ids[..n], history, available, stored, i); }
  }

  lemma ChangesInTurn(history: seq<HistoryRecord>, available: map<nat, Metadata>, stored: map<nat, StoredMail>, i: nat, j: nat)
    requires i < j < |Gather(Ascending(ChangedIds(history)), history, available, stored)|
    ensures var deltas := Gather(Ascending(ChangedIds(history)), history, available, stored);
      InTurn(history, deltas[i], deltas[j])
  {
    var ids := Ascending(ChangedIds(history));
    var p, q := GatherKeepsOrder(ids, history, available, stored, i, j);
    KindFollowsId(history, available, stored, ids, i);
    hide Gather, RemovedIn;
    assert ids[p] in ids;
  }

  lemma ChangeBeforeRemoval(history: seq<HistoryRecord>, available: map<nat, Metadata>, stored: map<nat, StoredMail>, i: nat, j: nat)
    requires i < |Gather(Ascending(ChangedIds(history)), history, available, stored)|
    requires j < |Gather(RemovalOrder(history), history, available, stored)|
    ensures InTurn(history, Gather(Ascending(ChangedIds(history)), history, available, stored)[i],
                   Gather(RemovalOrder(history), history, available, stored)[j])
  {
    var ids := Ascending(ChangedIds(history));
    var p := GatheredFrom(ids, history, available, stored, i);
    var q := GatheredFrom(RemovalOrder(history), history, available, stored, j);
    KindFollowsId(history, available, stored, ids, i);
    KindFollowsId(history, available, stored, RemovalOrder(history), j);
    RemovalsAreListedOnce(history);
    hide Gather, RemovedIn, RemovalOrder;
    assert ids[p] in ids && RemovalOrder(history)[q] in RemovalOrder(history);
  }

  lemma RemovalsInTurn(history: seq<HistoryRecord>, available: map<nat, Metadata>, stored: map<nat, StoredMail>, i: nat, j: nat)
    requires i < j < |Gather(RemovalOrder(history), history, available, stored)|
    ensures var deltas := Gather(RemovalOrder(history), history, available, stored);
      InTurn(history, deltas[i], deltas[j])
  {
    var ids := RemovalOrder(history);
    var p, q := GatherKeepsOrder(ids, history, available, stored, i, j);
    KindFollowsId(history, available, stored, ids, i);
    KindFollowsId(history, available, stored, ids, j);
    RemovalsAreListedOnce(history);
    RemovalsComeAsNamed(history, p, q);
    hide Gather, RemovedIn, RemovalOrder, NamedBefore;
    assert ids[p] in ids && ids[q] in ids;
  }

  // ---------------------------------------------------------------- the synchronisation

  /** The history names the message, and its metadata can be had. */
  ghost predicate HasNews(
    history: seq<HistoryRecord>, available: map<nat, Metadata>, stored: map<nat, StoredMail>, id: nat)
  {
    if Untouched(history, id)
    then id in available && (Adds(history, id) || exists k: nat :: k < |history| && Labels(history, k, id))
    else
      id in stored && stored[id].receivedAt.Some?
      && (stored[id].thread.Some?
          || exists k: nat, m: nat :: k < |history| && LastRemoval(history, k, m, id) && history[k].removed[m].value.thread.Some?)
  }

  lemma NewsAreReported(
    history: seq<HistoryRecord>, available: map<nat, Metadata>, stored: map<nat, StoredMail>, id: nat)
    requires HasNews(history, available, stored, id)
    ensures DeltaFor(history, available, stored, id).Some? && DeltaFor(history, available, stored, id).value.id == id
  {
    AddedIsAdds(history, id);
    LabelledIsLastLabel(history, id);
    RemovedIsLastRemoval(history, id);
    hide AddedIn, LabelledIn, RemovedIn, Adds, Untouched, LastRemoval, LastLabel, Labels;
  }

  /**
   Each message that the history names gets one delta where its metadata can be had, and only such: a removal
   over an addition, an addition over a change of labels, the last record deciding. Changes come by message id,
   then removals as the history first names them.
   */
  method IncrementalSync(history: seq<HistoryRecord>, available: map<nat, Metadata>, stored: map<nat, StoredMail>)
    returns (deltas: seq<Delta>)
    ensures OnePerMessage(deltas) && InOrder(history, deltas)
    ensures forall d :: d in deltas <==> Reports(history, available, stored, d)
    ensures forall id :: HasNews(history, available, stored, id) ==> exists d :: d in deltas && d.id == id
    ensures deltas == Gather(Ascending(ChangedIds(history)), history, available, stored)
                      + Gather(RemovalOrder(history), history, available, stored)
  {
    hide DeltaFor, Gather, OnePerMessage, AddedIn, LabelledIn, RemovedIn, PreviousMetadata, RemovalOrder, Reports, HasNews, InOrder;
    var additions, labelChanges, deletions, order := ReadHistory(history);
    RemovalsAreListedOnce(history);
    var changed := Ascending(additions + labelChanges.Keys - deletions.Keys);
    var first := GatherChanges(changed, additions, labelChanges, history, available, stored);
    var second := GatherDeletions(order, deletions, history, available, stored);
    deltas := first + second;
    assert forall i :: 0 <= i < |changed| ==> changed[i] in changed;
    assert forall i :: 0 <= i < |order| ==> order[i] in order;
    GatheredAll(changed, order, history, available, stored);
    GatheredInOrder(history, available, stored);
    forall d ensures d in deltas <==> Reports(history, available, stored, d) {
      DeltasAreReports(history, available, stored, d);
    }
    forall id | HasNews(history, available, stored, id) ensures exists d :: d in deltas && d.id == id {
      NewsAreReported(history, available, stored, id);
      var d := DeltaFor(history, available, stored, id).value;
      assert d in deltas;
    }
  }

  function Ascending(ids: set<nat>): (s: seq<nat>)
    ensures forall x :: x in s <==> x in ids
    ensures forall i, j :: 0 <= i < j < |s| ==> s[i] < s[j]
  {
    var rank := map x | x in ids :: 0;
    OrderedIsComplete(ids, rank);
    NoneTwice(ids, rank);
    Ordered(ids, rank)
  }

  lemma NoneTwice(ids: set<nat>, rank: map<nat, int>)
    requires ids <= rank.Keys && forall x :: x in ids ==> rank[x] == 0
    ensures forall x :: x in Ordered(ids, rank) <==> x in Elements(Ordered(ids, rank))
    ensures forall i, j :: 0 <= i < j < |Ordered(ids, rank)| ==> Ordered(ids, rank)[i] < Ordered(ids, rank)[j]
  {
    forall i, j | 0 <= i < j < |Ordered(ids, rank)| ensures Ordered(ids, rank)[i] < Ordered(ids, rank)[j] {
      OrderedIsSorted(ids, rank, i, j);
    }
  }

  // ---------------------------------------------------------------- ingestion

  datatype MailKey =
    | ReceivedKey(id: nat) | ThreadMessageKey(id: nat)
    | LabelsKey(changeId: nat, id: nat) | RemovedKey(removal: Option<nat>, id: nat)

  datatype StateRow = StateRow(row: nat, thread: nat, unread: bool, important: bool, updatedAt: int)

  // `keys` are the dedupe keys ever stored, live or retired.
  datatype Mailbox = Mailbox(keys: set<MailKey>, states: map<nat, StateRow>, nextRow: nat, historyId: Option<nat>)

  datatype Batch = Batch(historyId: nat, deltas: seq<Delta>)

  function WithState(box: Mailbox, d: Delta, now: int): Mailbox {
    var isNew := d.id !in box.states;
    box.(states := box.states[d.id := StateRow(if isNew then box.nextRow else box.states[d.id].row,
                                               d.metadata.thread, d.metadata.unread, d.metadata.important, now)],
         nextRow := if isNew then box.nextRow + 1 else box.nextRow)
  }

  predicate FlagsDiffer(row: StateRow, metadata: Metadata) {
    row.unread != metadata.unread || row.important != metadata.important
  }

  /** The keys that one delta stores. */
  function KeysFor(box: Mailbox, d: Delta, historyId: nat): set<MailKey> {
    match d.change
    case MessageRemoved(change) => {RemovedKey(change, d.id)}
    case Initial | MessageAdded => {ReceivedKey(d.id), ThreadMessageKey(d.id)}
    case LabelsChanged(change) =>
      if d.id in box.states && FlagsDiffer(box.states[d.id], d.metadata)
      then {LabelsKey(if change.Some? then change.value else historyId, d.id)} else {}
  }

  function IngestDelta(box: Mailbox, d: Delta, historyId: nat, now: int): Mailbox {
    var keyed := box.(keys := box.keys + KeysFor(box, d, historyId));
    if d.change.MessageRemoved? then keyed.(states := keyed.states - {d.id}) else WithState(keyed, d, now)
  }

  function IngestDeltas(box: Mailbox, deltas: seq<Delta>, historyId: nat, now: int): Mailbox {
    if |deltas| == 0 then box
    else IngestDelta(IngestDeltas(box, deltas[..|deltas| - 1], historyId, now), deltas[|deltas| - 1], historyId, now)
  }

  predicate Later(a: StateRow, b: StateRow) {
    a.updatedAt > b.updatedAt || (a.updatedAt == b.updatedAt && a.row > b.row)
  }

  function AheadOf(states: map<nat, StateRow>, id: nat): set<nat>
    requires id in states
  {
    set other | other in states && Later(states[other], states[id])
  }

  predicate IsEarliest(m: nat, ids: set<nat>, states: map<nat, StateRow>)
    requires ids <= states.Keys
  {
    m in ids && forall x :: x in ids && x != m ==> Later(states[x], states[m])
  }

  /** The result of the ordered query: the row written last comes first. */
  function LatestFirst(ids: set<nat>, states: map<nat, StateRow>): seq<nat>
    requires ids <= states.Keys && OneRowEach(states)
  {
    if ids == {} then []
    else
      EarliestExists(states, ids);
      var m :| IsEarliest(m, ids, states);
      LatestFirst(ids - {m}, states) + [m]
  }

  /** The rows with fewer than 500 later ones. */
  function Trimmed(states: map<nat, StateRow>): map<nat, StateRow> {
    map id | id in states && |AheadOf(states, id)| < MESSAGE_STATE_LIMIT :: states[id]
  }

  function Ingest(box: Mailbox, batch: Batch, now: int): Mailbox {
    var after := IngestDeltas(box, batch.deltas, batch.historyId, now);
    after.(historyId := Some(batch.historyId), states := Trimmed(after.states))
  }

  class MailStore {
    var keys: set<MailKey>
    var states: map<nat, StateRow>
    var nextRow: nat
    var historyId: Option<nat>

    function Contents(): Mailbox
      reads this
    {
      Mailbox(keys, states, nextRow, historyId)
    }

    /** The row numbers are the primary keys of the table. */
    ghost predicate Valid()
      reads this
    {
      RowsDistinct(states, nextRow)
    }

    constructor ()
      ensures Valid() && Contents() == Mailbox({}, map[], 0, None)
    {
      keys, states, nextRow, historyId := {}, map[], 0, None;
    }

    method SetState(d: Delta, now: int)
      modifies this`states, this`nextRow
      ensures Contents() == WithState(old(Contents()), d, now)
    {
      if d.id !in states {
        states := states[d.id := StateRow(nextRow, d.metadata.thread, d.metadata.unread, d.metadata.important, now)];
        nextRow := nextRow + 1;
      } else {
        states := states[d.id := StateRow(states[d.id].row, d.metadata.thread, d.metadata.unread, d.metadata.important, now)];
      }
    }

    method IngestOne(d: Delta, batchHistory: nat, now: int)
      modifies this
      ensures Contents() == IngestDelta(old(Contents()), d, batchHistory, now)
    {
      var prior := if d.id in states then Some(states[d.id]) else None;
      match d.change
      case MessageRemoved(change) =>
        keys := keys + {RemovedKey(change, d.id)};
        states := states - {d.id};
      case Initial =>
        keys := keys + {ReceivedKey(d.id)};
        keys := keys + {ThreadMessageKey(d.id)};
        SetState(d, now);
      case MessageAdded =>
        keys := keys + {ReceivedKey(d.id)};
        keys := keys + {ThreadMessageKey(d.id)};
        SetState(d, now);
      case LabelsChanged(change) =>
        if prior.Some? && (prior.value.unread != d.metadata.unread || prior.value.important != d.metadata.important) {
          keys := keys + {LabelsKey(if change.Some? then change.value else batchHistory, d.id)};
        }
        SetState(d, now);
    }

    method TrimMessageStates()
      requires Valid()
      modifies this`states
      ensures states == Trimmed(old(states)) && Valid()
    {
      var rows := LatestFirst(states.Keys, states);
      LatestFirstTrims(states, nextRow);
      hide RowsDistinct, LatestFirst, Trimmed;
      if |rows| > MESSAGE_STATE_LIMIT {
        states := states - Elements(rows[MESSAGE_STATE_LIMIT..]);
      }
    }

    method IngestBatch(batch: Batch, now: int)
      requires Valid()
      modifies this
      ensures Valid() && Contents() == Ingest(old(Contents()), batch, now)
      ensures historyId == Some(batch.historyId)
    {
      var i := 0;
      assert batch.deltas[..0] == [];
      while i < |batch.deltas|
        invariant 0 <= i <= |batch.deltas|
        invariant Contents() == IngestDeltas(old(Contents()), batch.deltas[..i], batch.historyId, now)
      {
        assert batch.deltas[..i + 1][..i] == batch.deltas[..i];
        IngestOne(batch.deltas[i], batch.historyId, now);
        i := i + 1;
      }
      assert batch.deltas[..|batch.deltas|] == batch.deltas;
      historyId := Some(batch.historyId);
      RowsStayDistinct(old(Contents()), batch.deltas, batch.historyId, now);
      TrimMessageStates();
    }
  }

  // ---------------------------------------------------------------- a replay stores nothing

  /** The states of the messages in `deltas` are what those deltas left. */
  ghost predicate Settled(states: map<nat, StateRow>, deltas: seq<Delta>) {
    forall d :: d in deltas && d.id in states && !d.change.MessageRemoved? ==> !FlagsDiffer(states[d.id], d.metadata)
  }

  ghost predicate FixedKeysIn(keys: set<MailKey>, deltas: seq<Delta>) {
    forall d :: d in deltas ==>
      match d.change
      case MessageRemoved(change) => RemovedKey(change, d.id) in keys
      case Initial | MessageAdded => ReceivedKey(d.id) in keys && ThreadMessageKey(d.id) in keys
      case LabelsChanged(_) => true
  }

  lemma {:induction false} IngestionSettles(box: Mailbox, deltas: seq<Delta>, historyId: nat, now: int)
    requires OnePerMessage(deltas)
    ensures var after := IngestDeltas(box, deltas, historyId, now);
      Settled(after.states, deltas) && FixedKeysIn(after.keys, deltas)
  {
    if |deltas| > 0 {
      var n := |deltas| - 1;
      IngestionSettles(box, deltas[..n], historyId, now);
      forall d | d in deltas[..n] ensures d.id != deltas[n].id {
        var i :| 0 <= i < n && deltas[i] == d;
      }
      hide Settled, FixedKeysIn, OnePerMessage, IngestDelta;
      DeltaSettles(IngestDeltas(box, deltas[..n], historyId, now), deltas[..n], deltas[n], historyId, now);
      assert deltas == deltas[..n] + [deltas[n]];
    }
  }

  lemma DeltaSettles(box: Mailbox, earlier: seq<Delta>, d: Delta, historyId: nat, now: int)
    requires Settled(box.states, earlier) && FixedKeysIn(box.keys, earlier)
    requires forall e :: e in earlier ==> e.id != d.id
    ensures var after := IngestDelta(box, d, historyId, now);
      Settled(after.states, earlier + [d]) && FixedKeysIn(after.keys, earlier + [d])
  {
    assert forall e :: e in earlier + [d] <==> e in earlier || e == d;
  }

  lemma DeltaStoresNothing(box: Mailbox, deltas: seq<Delta>, d: Delta, historyId: nat, now: int)
    requires Settled(box.states, deltas) && FixedKeysIn(box.keys, deltas)
    requires d in deltas && forall e :: e in deltas && e.id == d.id ==> e == d
    ensures var after := IngestDelta(box, d, historyId, now); after.keys == box.keys && Settled(after.states, deltas)
  {
  }

  lemma IdNamesDelta(deltas: seq<Delta>, n: nat, e: Delta)
    requires OnePerMessage(deltas) && n < |deltas| && e in deltas && e.id == deltas[n].id
    ensures e == deltas[n]
  {
    var i :| 0 <= i < |deltas| && deltas[i] == e;
    assert forall j :: 0 <= j < |deltas| && deltas[j].id == deltas[n].id ==> j == n;
  }

  lemma {:induction false} SettledStoresNothing(box: Mailbox, deltas: seq<Delta>, n: nat, historyId: nat, now: int)
    requires OnePerMessage(deltas) && Settled(box.states, deltas) && FixedKeysIn(box.keys, deltas) && n <= |deltas|
    ensures var after := IngestDeltas(box, deltas[..n], historyId, now); after.keys == box.keys && Settled(after.states, deltas)
  {
    hide Settled, FixedKeysIn;
    if n > 0 {
      var d := deltas[n - 1];
      assert deltas[..n][..n - 1] == deltas[..n - 1];
      SettledStoresNothing(box, deltas, n - 1, historyId, now);
      forall e | e in deltas && e.id == d.id ensures e == d { IdNamesDelta(deltas, n - 1, e); }
      DeltaStoresNothing(IngestDeltas(box, deltas[..n - 1], historyId, now), deltas, d, historyId, now);
      hide IngestDelta;
    }
  }

  /** Ingesting a batch with one delta for each message once more stores no new event. */
  lemma ReplayStoresNothing(box: Mailbox, batch: Batch, now: int, later: int)
    requires OnePerMessage(batch.deltas)
    ensures Ingest(Ingest(box, batch, now), batch, later).keys == Ingest(box, batch, now).keys
  {
    IngestionSettles(box, batch.deltas, batch.historyId, now);
    SettledStoresNothing(Ingest(box, batch, now), batch.deltas, |batch.deltas|, batch.historyId, later);
    assert batch.deltas[..|batch.deltas|] == batch.deltas;
    hide OnePerMessage, IngestDeltas, FixedKeysIn;
  }

  /** With two deltas for one message a replay may store an event that the first time did not. */
  lemma RepeatedMessagesMayStoreMore()
    ensures var read := Delta(1, Metadata(0, 0, true, false), LabelsChanged(Some(1)));
      var unread := Delta(1, Metadata(0, 0, false, false), LabelsChanged(Some(2)));
      var box := Mailbox({}, map[1 := StateRow(0, 0, true, false, 0)], 1, None);
      var once := Ingest(box, Batch(2, [read, unread]), 1);
      LabelsKey(1, 1) !in once.keys && LabelsKey(1, 1) in Ingest(once, Batch(2, [read, unread]), 2).keys
  {
    var read := Delta(1, Metadata(0, 0, true, false), LabelsChanged(Some(1)));
    var unread := Delta(1, Metadata(0, 0, false, false), LabelsChanged(Some(2)));
    var box := Mailbox({}, map[1 := StateRow(0, 0, true, false, 0)], 1, None);
    TwoDeltas(box, read, unread, 2, 1);
    var once := Ingest(box, Batch(2, [read, unread]), 1);
    TwoDeltas(once, read, unread, 2, 2);
    assert once.states.Keys == {1} by { KeptWhenFew(IngestDeltas(box, [read, unread], 2, 1).states); }
  }

  lemma TwoDeltas(box: Mailbox, a: Delta, b: Delta, historyId: nat, now: int)
    ensures IngestDeltas(box, [a, b], historyId, now)
            == IngestDelta(IngestDelta(box, a, historyId, now), b, historyId, now)
  {
    assert [a, b][..1] == [a] && [a][..0] == [];
    assert IngestDeltas(box, [a], historyId, now) == IngestDelta(IngestDeltas(box, [a][..0], historyId, now), a, historyId, now);
  }

  // ---------------------------------------------------------------- what a batch stores

  /** The key tells of this delta, given the state that its message had before the batch. */
  predicate TellsOf(box: Mailbox, d: Delta, historyId: nat, key: MailKey) {
    match key
    case ReceivedKey(id) => id == d.id && (d.change.Initial? || d.change.MessageAdded?)
    case ThreadMessageKey(id) => id == d.id && (d.change.Initial? || d.change.MessageAdded?)
    case RemovedKey(removal, id) => id == d.id && d.change == MessageRemoved(removal)
    case LabelsKey(changeId, id) =>
      id == d.id && d.change.LabelsChanged? && d.id in box.states
      && changeId == (if d.change.historyId.Some? then d.change.historyId.value else historyId)
      && (box.states[d.id].unread != d.metadata.unread || box.states[d.id].important != d.metadata.important)
  }

  lemma DeltaStoresItsKeys(box: Mailbox, d: Delta, historyId: nat, now: int)
    ensures forall key :: key in IngestDelta(box, d, historyId, now).keys <==> key in box.keys || TellsOf(box, d, historyId, key)
  {
  }

  /** What the delta leaves of its message, and that it touches no other. */
  predicate Leaves(box: Mailbox, after: Mailbox, d: Delta, now: int) {
    && (d.change.MessageRemoved? ==> d.id !in after.states)
    && (!d.change.MessageRemoved? ==>
          && d.id in after.states
          && after.states[d.id].thread == d.metadata.thread && after.states[d.id].unread == d.metadata.unread
          && after.states[d.id].important == d.metadata.important && after.states[d.id].updatedAt == now
          && (d.id in box.states ==> after.states[d.id].row == box.states[d.id].row))
  }

  lemma DeltaLeavesItsState(box: Mailbox, d: Delta, historyId: nat, now: int)
    ensures var after := IngestDelta(box, d, historyId, now);
      Leaves(box, after, d, now)
      && forall id :: id != d.id ==> (id in after.states <==> id in box.states)
                                     && (id in box.states ==> after.states[id] == box.states[id])
  {
    hide KeysFor;
  }

  /**
   A batch with one delta for each message stores exactly the keys that tell of its deltas: a new message
   twice, a change of labels where the flags differ from the known ones, a removal once. Each delta leaves
   the state that it reports, and no other message is touched.
   */
  lemma {:induction false} BatchStoresItsNews(box: Mailbox, deltas: seq<Delta>, historyId: nat, now: int)
    requires OnePerMessage(deltas)
    ensures var after := IngestDeltas(box, deltas, historyId, now);
      && (forall key :: key in after.keys <==> key in box.keys || exists d :: d in deltas && TellsOf(box, d, historyId, key))
      && (forall d :: d in deltas ==> Leaves(box, after, d, now))
      && (forall id :: (forall d :: d in deltas ==> d.id != id) ==>
            (id in after.states <==> id in box.states) && (id in box.states ==> after.states[id] == box.states[id]))
  {
    if |deltas| > 0 {
      var n := |deltas| - 1;
      var d, before := deltas[n], IngestDeltas(box, deltas[..n], historyId, now);
      BatchStoresItsNews(box, deltas[..n], historyId, now);
      forall e | e in deltas[..n] ensures e.id != d.id {
        var i :| 0 <= i < n && deltas[i] == e;
      }
      DeltaStoresItsKeys(before, d, historyId, now);
      DeltaLeavesItsState(before, d, historyId, now);
      hide IngestDelta, OnePerMessage;
      assert forall e :: e in deltas <==> e in deltas[..n] || e == d;
      forall key ensures TellsOf(before, d, historyId, key) <==> TellsOf(box, d, historyId, key) {}
      hide TellsOf;
    }
  }

  // ---------------------------------------------------------------- bounded states

  lemma KeptWhenFew(states: map<nat, StateRow>)
    requires |states| <= MESSAGE_STATE_LIMIT
    ensures Trimmed(states) == states
  {
    forall id | id in states ensures |AheadOf(states, id)| < MESSAGE_STATE_LIMIT {
      assert AheadOf(states, id) <= states.Keys - {id};
      Smaller(AheadOf(states, id), states.Keys - {id});
    }
  }

  predicate OneRowEach(states: map<nat, StateRow>) {
    forall a, b :: a in states && b in states && a != b ==> states[a].row != states[b].row
  }

  ghost predicate RowsDistinct(states: map<nat, StateRow>, nextRow: nat) {
    (forall a :: a in states ==> states[a].row < nextRow) && OneRowEach(states)
  }

  lemma {:induction false} EarliestExists(states: map<nat, StateRow>, ids: set<nat>)
    requires ids != {} && ids <= states.Keys && OneRowEach(states)
    ensures exists m :: IsEarliest(m, ids, states)
  {
    var m :| m in ids;
    if ids == {m} {
      assert IsEarliest(m, ids, states);
    } else {
      EarliestExists(states, ids - {m});
      var other :| IsEarliest(other, ids - {m}, states);
      assert IsEarliest(if Later(states[m], states[other]) then other else m, ids, states);
    }
  }

  ghost predicate SortedLatestFirst(ids: set<nat>, states: map<nat, StateRow>, rows: seq<nat>) {
    && Elements(rows) == ids
    && forall i, j :: 0 <= i < j < |rows| ==>
         rows[i] in states && rows[j] in states && Later(states[rows[i]], states[rows[j]])
  }

  lemma {:induction false} LatestFirstIsSorted(ids: set<nat>, states: map<nat, StateRow>)
    requires ids <= states.Keys && OneRowEach(states)
    ensures SortedLatestFirst(ids, states, LatestFirst(ids, states))
  {
    if ids != {} {
      var rows := LatestFirst(ids, states);
      var n := |rows| - 1;
      assert IsEarliest(rows[n], ids, states) && rows[..n] == LatestFirst(ids - {rows[n]}, states);
      assert rows == rows[..n] + [rows[n]];
      LatestFirstIsSorted(ids - {rows[n]}, states);
      hide LatestFirst;
      EarliestGoesLast(ids, states, rows[..n], rows[n]);
    }
  }

  lemma EarliestGoesLast(ids: set<nat>, states: map<nat, StateRow>, front: seq<nat>, m: nat)
    requires ids <= states.Keys && IsEarliest(m, ids, states) && SortedLatestFirst(ids - {m}, states, front)
    ensures SortedLatestFirst(ids, states, front + [m])
  {
    hide Later;
    forall k | 0 <= k < |front| ensures front[k] in ids && front[k] != m {
      assert front[k] in Elements(front);
    }
    assert Elements(front + [m]) == Elements(front) + {m};
  }

  /** In the ordered result, exactly the rows before a row are later than it. */
  lemma LaterRowsComeFirst(states: map<nat, StateRow>, rows: seq<nat>, k: nat)
    requires LatestComeFirst(states, rows) && k < |rows|
    ensures NoRepeats(rows) && rows[k] in states
    ensures |AheadOf(states, rows[k])| == k
  {
    assert AheadOf(states, rows[k]) == Elements(rows[..k]) by {
      forall x | x in AheadOf(states, rows[k]) ensures x in rows[..k] {
        assert x in Elements(rows);
        var i :| 0 <= i < |rows| && rows[i] == x;
      }
    }
    ElementsCount(rows[..k]);
  }

  ghost predicate LatestComeFirst(states: map<nat, StateRow>, rows: seq<nat>) {
    SortedLatestFirst(states.Keys, states, rows) && NoRepeats(rows) && forall i :: 0 <= i < |rows| ==> rows[i] in states
  }

  lemma QueryListsLatestFirst(states: map<nat, StateRow>, nextRow: nat)
    requires RowsDistinct(states, nextRow)
    ensures LatestComeFirst(states, LatestFirst(states.Keys, states))
  {
    var rows := LatestFirst(states.Keys, states);
    LatestFirstIsSorted(states.Keys, states);
    hide LatestFirst, OneRowEach;
    forall i | 0 <= i < |rows| ensures rows[i] in states { assert rows[i] in Elements(rows); }
  }

  /** Deleting what the ordered query lists after its 500th row keeps the rows with fewer than 500 later ones. */
  lemma LatestFirstTrims(states: map<nat, StateRow>, nextRow: nat)
    requires RowsDistinct(states, nextRow)
    ensures var rows := LatestFirst(states.Keys, states);
      && Trimmed(states) == (if |rows| > MESSAGE_STATE_LIMIT then states - Elements(rows[MESSAGE_STATE_LIMIT..]) else states)
      && RowsDistinct(Trimmed(states), nextRow)
  {
    var rows := LatestFirst(states.Keys, states);
    TrimmedRowsStayDistinct(states, nextRow);
    hide RowsDistinct, LatestComeFirst, LatestFirst, Trimmed, Elements;
    QueryListsLatestFirst(states, nextRow);
    var dropped := if |rows| > MESSAGE_STATE_LIMIT then Elements(rows[MESSAGE_STATE_LIMIT..]) else {};
    forall id | id in states ensures id in Trimmed(states) <==> id !in dropped {
      KeptByPosition(states, rows, id);
      ListedIn(rows, id);
    }
    TrimmedIs(states, dropped);
  }

  lemma ListedIn(rows: seq<nat>, id: nat)
    ensures |rows| > MESSAGE_STATE_LIMIT ==>
              (id in rows[MESSAGE_STATE_LIMIT..] <==> id in Elements(rows[MESSAGE_STATE_LIMIT..]))
  {
  }

  lemma TrimmedIs(states: map<nat, StateRow>, dropped: set<nat>)
    requires forall id :: id in states ==> (id in Trimmed(states) <==> id !in dropped)
    ensures Trimmed(states) == states - dropped && (dropped == {} ==> Trimmed(states) == states)
  {
    hide AheadOf;
  }

  lemma TrimmedRowsStayDistinct(states: map<nat, StateRow>, nextRow: nat)
    requires RowsDistinct(states, nextRow)
    ensures RowsDistinct(Trimmed(states), nextRow)
  {
    hide AheadOf;
  }

  lemma KeptByPosition(states: map<nat, StateRow>, rows: seq<nat>, id: nat)
    requires LatestComeFirst(states, rows) && id in states
    ensures id in Trimmed(states) <==> |rows| <= MESSAGE_STATE_LIMIT || id !in rows[MESSAGE_STATE_LIMIT..]
  {
    assert id in Elements(rows);
    var k :| 0 <= k < |rows| && rows[k] == id;
    LaterRowsComeFirst(states, rows, k);
    hide LatestComeFirst, AheadOf;
    StandsAfter(rows, k, MESSAGE_STATE_LIMIT);
  }

  lemma StandsAfter(rows: seq<nat>, k: nat, limit: nat)
    requires k < |rows| && NoRepeats(rows)
    ensures k < limit <==> |rows| <= limit || rows[k] !in rows[limit..]
  {
    if limit <= k { assert rows[limit..][k - limit] == rows[k]; }
  }

  lemma TrimmedIsBounded(states: map<nat, StateRow>, nextRow: nat)
    requires RowsDistinct(states, nextRow)
    ensures |Trimmed(states)| <= MESSAGE_STATE_LIMIT
    ensures forall id, other :: id in Trimmed(states) && other in states && Later(states[other], states[id])
                                ==> other in Trimmed(states)
  {
    var kept := Trimmed(states).Keys;
    if kept != {} {
      EarliestExists(states, kept);
      var m :| IsEarliest(m, kept, states);
      Smaller(kept - {m}, AheadOf(states, m));
    }
    forall id, other | id in Trimmed(states) && other in states && Later(states[other], states[id])
      ensures other in Trimmed(states)
    {
      Smaller(AheadOf(states, other), AheadOf(states, id));
    }
  }

  lemma {:induction false} RowsStayDistinct(box: Mailbox, deltas: seq<Delta>, historyId: nat, now: int)
    requires RowsDistinct(box.states, box.nextRow)
    ensures var after := IngestDeltas(box, deltas, historyId, now); RowsDistinct(after.states, after.nextRow)
  {
    if |deltas| > 0 {
      RowsStayDistinct(box, deltas[..|deltas| - 1], historyId, now);
      hide KeysFor;
    }
  }

  lemma ManyAreCut(states: map<nat, StateRow>, nextRow: nat)
    requires RowsDistinct(states, nextRow) && |states| > 500
    ensures |Trimmed(states)| == 500
  {
    var rows := LatestFirst(states.Keys, states);
    QueryListsLatestFirst(states, nextRow);
    LatestFirstTrims(states, nextRow);
    assert NoRepeats(rows) && Elements(rows) == states.Keys;
    hide LatestFirst, Trimmed, LatestComeFirst, RowsDistinct, OneRowEach, NoRepeats, Elements;
    ElementsCount(rows);
    CutInTwo(rows, 500);
    ElementsCount(rows[..500]);
    assert Trimmed(states).Keys == Elements(rows[..500]);
  }

  /** Updated later, or at the same time in a row with a greater number. */
  predicate WrittenAfter(a: StateRow, b: StateRow) {
    if a.updatedAt == b.updatedAt then a.row > b.row else a.updatedAt > b.updatedAt
  }

  /** After every commit at most 500 message states remain, the ones written last. */
  lemma StatesAreBounded(box: Mailbox, batch: Batch, now: int)
    requires RowsDistinct(box.states, box.nextRow)
    ensures var all := IngestDeltas(box, batch.deltas, batch.historyId, now).states;
      var after := Ingest(box, batch, now);
      && |after.states| <= 500 && RowsDistinct(after.states, after.nextRow)
      && (forall id, other :: id in after.states && other in all && WrittenAfter(all[other], all[id]) ==> other in after.states)
      && (|all| <= 500 ==> after.states == all) && (|all| > 500 ==> |after.states| == 500)
  {
    var all := IngestDeltas(box, batch.deltas, batch.historyId, now);
    RowsStayDistinct(box, batch.deltas, batch.historyId, now);
    TrimmedIsBounded(all.states, all.nextRow);
    if |all.states| <= MESSAGE_STATE_LIMIT { KeptWhenFew(all.states); } else { ManyAreCut(all.states, all.nextRow); }
    hide IngestDeltas, AheadOf, Trimmed, LatestFirst, RowsDistinct;
  }
}
