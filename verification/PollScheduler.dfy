/** The locks of the poll scheduler: permits around every poll, and one lock for each source. */
module PollScheduler {
  import opened Ordering

  // Periodic polls, `poll_now`, failures, timeouts and stop interleave in any order.

  // Where a poll stands: outside the semaphore, inside it, inside the source lock, or past the lock.
  datatype Stage = Arriving | Permitted | Observing | Leaving

  datatype Poll = Poll(provider: nat, stage: Stage)

  datatype Scheduler = Scheduler(polls: map<nat, Poll>, permits: nat, locked: set<nat>)

  datatype Action =
    | Arrive(id: nat, provider: nat)
    | TakePermit(id: nat)
    | TakeLock(id: nat)
    | DropLock(id: nat)       // the observation was handled, or failed, or was cancelled by timeout or stop
    | GiveUpLock(id: nat)     // cancelled while waiting for the source lock
    | Leave(id: nat)
    | GiveUpPermit(id: nat)   // cancelled while waiting for a permit

  function Start(maxConcurrency: nat): Scheduler {
    Scheduler(map[], maxConcurrency, {})
  }

  predicate Stands(s: Scheduler, id: nat, stage: Stage) {
    id in s.polls && s.polls[id].stage == stage
  }

  predicate Enabled(s: Scheduler, action: Action) {
    match action
    case Arrive(id, _) => id !in s.polls
    case TakePermit(id) => Stands(s, id, Arriving) && s.permits > 0
    case TakeLock(id) => Stands(s, id, Permitted) && s.polls[id].provider !in s.locked
    case DropLock(id) => Stands(s, id, Observing)
    case GiveUpLock(id) => Stands(s, id, Permitted)
    case Leave(id) => Stands(s, id, Leaving)
    case GiveUpPermit(id) => Stands(s, id, Arriving)
  }

  function Moved(s: Scheduler, id: nat, stage: Stage): map<nat, Poll>
    requires id in s.polls
  {
    s.polls[id := s.polls[id].(stage := stage)]
  }

  function Next(s: Scheduler, action: Action): Scheduler
    requires Enabled(s, action)
  {
    match action
    case Arrive(id, provider) => s.(polls := s.polls[id := Poll(provider, Arriving)])
    case TakePermit(id) => s.(polls := Moved(s, id, Permitted), permits := s.permits - 1)
    case TakeLock(id) => s.(polls := Moved(s, id, Observing), locked := s.locked + {s.polls[id].provider})
    case DropLock(id) => s.(polls := Moved(s, id, Leaving), locked := s.locked - {s.polls[id].provider})
    case GiveUpLock(id) => s.(polls := Moved(s, id, Leaving))
    case Leave(id) => s.(polls := s.polls - {id}, permits := s.permits + 1)
    case GiveUpPermit(id) => s.(polls := s.polls - {id})
  }

  // ---------------------------------------------------------------- the invariant

  /** Polls inside the semaphore. */
  function Holders(s: Scheduler): set<nat> {
    set id | id in s.polls && !s.polls[id].stage.Arriving?
  }

  function Observers(s: Scheduler, provider: nat): set<nat> {
    set id | id in s.polls && s.polls[id].provider == provider && s.polls[id].stage.Observing?
  }

  ghost predicate SchedulerOk(s: Scheduler, maxConcurrency: nat) {
    && s.permits + |Holders(s)| == maxConcurrency
    && (forall p :: p in s.locked <==> Observers(s, p) != {})
    && (forall a, b :: a in s.polls && b in s.polls && a != b && s.polls[a].stage.Observing? && s.polls[b].stage.Observing?
                       ==> s.polls[a].provider != s.polls[b].provider)
  }

  lemma HoldersAfter(s: Scheduler, action: Action)
    requires Enabled(s, action)
    ensures Holders(Next(s, action))
            == if action.TakePermit? then Holders(s) + {action.id}
               else if action.Leave? then Holders(s) - {action.id}
               else Holders(s)
  {
  }

  lemma PermitsAreConserved(s: Scheduler, action: Action)
    requires Enabled(s, action)
    ensures Next(s, action).permits + |Holders(Next(s, action))| == s.permits + |Holders(s)|
  {
    HoldersAfter(s, action);
    assert action.TakePermit? ==> action.id !in Holders(s);
    assert action.Leave? ==> action.id in Holders(s);
    hide Holders;
  }

  lemma ObserversAfter(s: Scheduler, action: Action, p: nat)
    requires Enabled(s, action)
    ensures Observers(Next(s, action), p)
            == if action.TakeLock? && s.polls[action.id].provider == p then Observers(s, p) + {action.id}
               else if action.DropLock? then Observers(s, p) - {action.id}
               else Observers(s, p)
  {
  }

  lemma ObserversAreOne(s: Scheduler, maxConcurrency: nat, id: nat)
    requires SchedulerOk(s, maxConcurrency) && Stands(s, id, Observing)
    ensures Observers(s, s.polls[id].provider) == {id}
    ensures forall p :: p != s.polls[id].provider ==> id !in Observers(s, p)
  {
    hide Holders;
  }

  lemma LocksFollowObservers(s: Scheduler, action: Action, maxConcurrency: nat, p: nat)
    requires SchedulerOk(s, maxConcurrency) && Enabled(s, action)
    ensures p in Next(s, action).locked <==> Observers(Next(s, action), p) != {}
  {
    ObserversAfter(s, action, p);
    if action.DropLock? { ObserversAreOne(s, maxConcurrency, action.id); }
    hide Observers, Holders;
  }

  lemma StepsKeepScheduler(s: Scheduler, action: Action, maxConcurrency: nat)
    requires SchedulerOk(s, maxConcurrency) && Enabled(s, action)
    ensures SchedulerOk(Next(s, action), maxConcurrency)
  {
    PermitsAreConserved(s, action);
    forall p ensures p in Next(s, action).locked <==> Observers(Next(s, action), p) != {} {
      LocksFollowObservers(s, action, maxConcurrency, p);
    }
    if action.TakeLock? {
      var p := s.polls[action.id].provider;
      assert Observers(s, p) == {};
      assert forall a :: a in s.polls && s.polls[a].stage.Observing? && s.polls[a].provider == p ==> a in Observers(s, p);
    }
    hide Holders, Observers;
  }

  // ---------------------------------------------------------------- runs

  ghost predicate IsRun(states: seq<Scheduler>, actions: seq<Action>, maxConcurrency: nat) {
    && |states| == |actions| + 1 && states[0] == Start(maxConcurrency)
    && forall i :: 0 <= i < |actions| ==> Enabled(states[i], actions[i]) && states[i + 1] == Next(states[i], actions[i])
  }

  lemma {:induction false} ReachableIsOk(states: seq<Scheduler>, actions: seq<Action>, maxConcurrency: nat, i: nat)
    requires IsRun(states, actions, maxConcurrency) && i < |states|
    ensures SchedulerOk(states[i], maxConcurrency)
  {
    if i == 0 {
      assert Holders(states[0]) == {};
      assert forall p :: Observers(states[0], p) == {};
    } else {
      ReachableIsOk(states, actions, maxConcurrency, i - 1);
      StepsKeepScheduler(states[i - 1], actions[i - 1], maxConcurrency);
      hide SchedulerOk, Next;
    }
  }

  /**
   In every reachable state at most `maxConcurrency` polls are inside the semaphore, at most one poll
   observes each source, and it does so inside the semaphore.
   */
  lemma PollsAreBounded(states: seq<Scheduler>, actions: seq<Action>, maxConcurrency: nat, i: nat)
    requires IsRun(states, actions, maxConcurrency) && i < |states|
    ensures var s := states[i];
      && |Holders(s)| <= maxConcurrency
      && (forall p :: |Observers(s, p)| <= 1 && Observers(s, p) <= Holders(s))
      && (forall p :: p in s.locked <==> |Observers(s, p)| == 1)
  {
    ReachableIsOk(states, actions, maxConcurrency, i);
    hide IsRun;
    var s := states[i];
    forall p ensures |Observers(s, p)| <= 1 && Observers(s, p) <= Holders(s) && (p in s.locked <==> |Observers(s, p)| == 1) {
      if Observers(s, p) != {} {
        var a :| a in Observers(s, p);
        assert Observers(s, p) == {a};
      }
    }
  }

  // ---------------------------------------------------------------- no deadlock

  /** Progress without cancellation and without new polls. */
  predicate Proceeds(action: Action) {
    action.TakePermit? || action.TakeLock? || action.DropLock? || action.Leave?
  }

  function Left(stage: Stage): nat {
    match stage
    case Arriving => 4
    case Permitted => 3
    case Observing => 2
    case Leaving => 1
  }

  function Work(polls: map<nat, Poll>): nat {
    WorkOf(polls, polls.Keys)
  }

  /** Steps that the polls `ids` still have to take. */
  function WorkOf(polls: map<nat, Poll>, ids: set<nat>): (work: nat)
    requires ids <= polls.Keys
  {
    if ids == {} then 0
    else
      var id := Least(ids);
      Left(polls[id].stage) + WorkOf(polls, ids - {id})
  }

  function Least(ids: set<nat>): (m: nat)
    requires ids != {}
    ensures m in ids && forall x :: x in ids ==> m <= x
  {
    First(ids, map x | x in ids :: 0)
  }

  lemma {:induction false} WorkWithout(polls: map<nat, Poll>, ids: set<nat>, id: nat)
    requires ids <= polls.Keys && id in ids
    ensures WorkOf(polls, ids) == Left(polls[id].stage) + WorkOf(polls, ids - {id})
  {
    var m := Least(ids);
    if m != id {
      WorkWithout(polls, ids - {m}, id);
      assert m in ids - {id} && Least(ids - {id}) in ids;
      assert ids - {m} - {id} == ids - {id} - {m};
    }
  }

  lemma {:induction false} WorkOfSame(polls: map<nat, Poll>, others: map<nat, Poll>, ids: set<nat>)
    requires ids <= polls.Keys && ids <= others.Keys && forall id :: id in ids ==> polls[id] == others[id]
    ensures WorkOf(polls, ids) == WorkOf(others, ids)
  {
    if ids != {} { WorkOfSame(polls, others, ids - {Least(ids)}); }
  }

  lemma StepsDoWork(s: Scheduler, action: Action)
    requires Enabled(s, action) && !action.Arrive?
    ensures Work(Next(s, action).polls) < Work(s.polls)
  {
    var t := Next(s, action);
    var rest := s.polls.Keys - {action.id};
    WorkWithout(s.polls, s.polls.Keys, action.id);
    WorkOfSame(s.polls, t.polls, rest);
    if action.id in t.polls {
      assert t.polls.Keys == s.polls.Keys;
      WorkWithout(t.polls, t.polls.Keys, action.id);
    } else {
      assert t.polls.Keys == rest;
    }
  }

  /**
   The two locks cannot deadlock: while polls remain, one of them can proceed by itself, and every such
   step brings the whole closer to the end.
   */
  lemma NoDeadlock(states: seq<Scheduler>, actions: seq<Action>, maxConcurrency: nat, i: nat)
    requires IsRun(states, actions, maxConcurrency) && i < |states| && maxConcurrency >= 1 && states[i].polls != map[]
    ensures exists action :: Proceeds(action) && Enabled(states[i], action)
                             && Work(Next(states[i], action).polls) < Work(states[i].polls)
  {
    ReachableIsOk(states, actions, maxConcurrency, i);
    hide IsRun, Work;
    var s := states[i];
    var id := Least(s.polls.Keys);
    var action := TakePermit(id);
    if Holders(s) != {} {
      var h := Least(Holders(s));
      var p := s.polls[h].provider;
      if s.polls[h].stage.Leaving? {
        action := Leave(h);
      } else if s.polls[h].stage.Observing? {
        action := DropLock(h);
      } else if p !in s.locked {
        action := TakeLock(h);
      } else {
        action := DropLock(Least(Observers(s, p)));
      }
    } else {
      assert id !in Holders(s);
    }
    assert Enabled(s, action);
    StepsDoWork(s, action);
    hide Enabled, Next;
  }
}
