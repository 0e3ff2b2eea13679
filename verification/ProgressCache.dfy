/**
A stale-while-revalidate cache: callers are answered from the cache when it is
filled and fetch under a lock when it is not; a stale answer schedules a background
refresh. Each action is one stretch of code between two awaits. Whether a cached
entry is still recent, and whether a fetch succeeds, is up to the environment.
*/
module ProgressCache {
  import opened Common

  type CallId = nat

  datatype Call<R> = Waiting | Fetching | Answered(result: R) | Raised

  datatype Task = Scheduled | Refreshing | Releasing | Ended

  /** The module globals, the callers, the background tasks, and every result fetched so far. */
  datatype State<R> = State(
    cache: Option<R>, refreshing: bool, holder: Option<CallId>,
    calls: map<CallId, Call<R>>, tasks: seq<Task>, completed: seq<R>)

  datatype Action<R> =
    | Collect(id: CallId, recent: bool)
    | EnterLock(id: CallId, recent: bool)
    | ColdFetched(id: CallId, result: R)
    | ColdFailed(id: CallId)
    | StartRefresh(task: nat)
    | Refreshed(task: nat, result: R)
    | RefreshFailed(task: nat)
    | Released(task: nat)

  function Start<R>(): State<R> {
    State(None, false, None, map[], [], [])
  }

  predicate CallIs<R(==)>(s: State<R>, id: CallId, pc: Call<R>) {
    id in s.calls && s.calls[id] == pc
  }

  predicate TaskIs<R>(s: State<R>, t: nat, pc: Task) {
    t < |s.tasks| && s.tasks[t] == pc
  }

  predicate Enabled<R(==)>(s: State<R>, a: Action<R>) {
    match a
    case Collect(id, _) => id !in s.calls
    case EnterLock(id, _) => CallIs(s, id, Waiting) && s.holder.None?
    case ColdFetched(id, _) => CallIs(s, id, Fetching)
    case ColdFailed(id) => CallIs(s, id, Fetching) || CallIs(s, id, Waiting)
    case StartRefresh(t) => TaskIs(s, t, Scheduled)
    case Refreshed(t, _) => TaskIs(s, t, Refreshing)
    case RefreshFailed(t) => TaskIs(s, t, Refreshing)
    case Released(t) => TaskIs(s, t, Releasing)
  }

  /** Answer from a filled cache; a stale answer schedules a refresh. */
  function Served<R>(s: State<R>, id: CallId, recent: bool): State<R>
    requires s.cache.Some?
  {
    s.(calls := s.calls[id := Answered(s.cache.value)], tasks := if recent then s.tasks else s.tasks + [Scheduled])
  }

  function Next<R(==)>(s: State<R>, a: Action<R>): State<R>
    requires Enabled(s, a)
  {
    match a
    case Collect(id, recent) =>
      if s.cache.Some? then Served(s, id, recent) else s.(calls := s.calls[id := Waiting])
    case EnterLock(id, recent) =>
      if s.cache.Some? then Served(s, id, recent) else s.(calls := s.calls[id := Fetching], holder := Some(id))
    case ColdFetched(id, r) =>
      s.(cache := Some(r), holder := None, calls := s.calls[id := Answered(r)], completed := s.completed + [r])
    case ColdFailed(id) =>
      s.(calls := s.calls[id := Raised], holder := if s.holder == Some(id) then None else s.holder)
    case StartRefresh(t) =>
      if s.refreshing then s.(tasks := s.tasks[t := Ended])
      else s.(tasks := s.tasks[t := Refreshing], refreshing := true)
    case Refreshed(t, r) =>
      s.(tasks := s.tasks[t := Releasing], cache := Some(r), completed := s.completed + [r])
    case RefreshFailed(t) =>
      s.(tasks := s.tasks[t := Ended], refreshing := false)
    case Released(t) =>
      s.(tasks := s.tasks[t := Ended], refreshing := false)
  }

  // ---- what every step keeps ---------------------------------------------------------

  function Latest<R>(results: seq<R>): Option<R> {
    if results == [] then None else Some(results[|results| - 1])
  }

  predicate Active(t: Task) {
    t.Refreshing? || t.Releasing?
  }

  ghost predicate LockInv<R(!new)>(s: State<R>) {
    && (forall id: CallId :: s.holder == Some(id) <==> CallIs(s, id, Fetching))
    && (s.holder.Some? ==> s.cache.None?)
  }

  ghost predicate TaskInv<R>(s: State<R>) {
    && (s.cache.None? ==> s.tasks == [])
    && (s.refreshing <==> exists t :: 0 <= t < |s.tasks| && Active(s.tasks[t]))
    && (forall t, u :: 0 <= t < u < |s.tasks| ==> !(Active(s.tasks[t]) && Active(s.tasks[u])))
  }

  ghost predicate Inv<R(!new)>(s: State<R>) {
    LockInv(s) && TaskInv(s) && s.cache == Latest(s.completed)
  }

  lemma StepKeepsLock<R(!new)>(s: State<R>, a: Action<R>)
    requires Inv(s) && Enabled(s, a)
    ensures LockInv(Next(s, a))
  {
    if a.Refreshed? {
      assert s.cache.Some? by {
        assert s.tasks != [];
      }
    }
  }

  lemma StepKeepsTasks<R(!new)>(s: State<R>, a: Action<R>)
    requires Inv(s) && Enabled(s, a)
    ensures TaskInv(Next(s, a))
  {
    var s' := Next(s, a);
    if s'.tasks == s.tasks {
    } else if a.Collect? || a.EnterLock? {
      forall t | 0 <= t < |s.tasks| ensures s'.tasks[t] == s.tasks[t] {
      }
      if s.refreshing {
        var t :| 0 <= t < |s.tasks| && Active(s.tasks[t]);
        assert Active(s'.tasks[t]);
      }
    } else {
      TaskMoves(s, a);
    }
  }

  lemma TaskMoves<R(!new)>(s: State<R>, a: Action<R>)
    requires Inv(s) && Enabled(s, a) && (a.StartRefresh? || a.Refreshed? || a.RefreshFailed? || a.Released?)
    ensures TaskInv(Next(s, a))
  {
    var s', k := Next(s, a), a.task;
    assert forall t | 0 <= t < |s.tasks| && t != k :: s'.tasks[t] == s.tasks[t];
    if a.StartRefresh? && s.refreshing {
      var t :| 0 <= t < |s.tasks| && Active(s.tasks[t]);
      assert Active(s'.tasks[t]);
    } else if s'.refreshing {
      assert Active(s'.tasks[k]);
    } else {
      assert forall t | 0 <= t < |s.tasks| :: t < k ==> !Active(s'.tasks[t]);
    }
  }

  lemma StepKeepsInv<R(!new)>(s: State<R>, a: Action<R>)
    requires Inv(s) && Enabled(s, a)
    ensures Inv(Next(s, a))
  {
    StepKeepsLock(s, a);
    StepKeepsTasks(s, a);
  }

  // ---- runs ----------------------------------------------------------------------------

  ghost predicate Run<R>(states: seq<State<R>>, actions: seq<Action<R>>) {
    && |states| == |actions| + 1
    && states[0] == Start()
    && forall i :: 0 <= i < |actions| ==> StepsTo(states[i], actions[i], states[i + 1])
  }

  ghost predicate StepsTo<R>(s: State<R>, a: Action<R>, t: State<R>) {
    Enabled(s, a) && t == Next(s, a)
  }

  lemma {:induction false} RunKeepsInv<R(!new)>(states: seq<State<R>>, actions: seq<Action<R>>, i: nat)
    requires Run(states, actions) && i < |states|
    ensures Inv(states[i])
  {
    if i > 0 {
      RunKeepsInv(states, actions, i - 1);
      assert StepsTo(states[i - 1], actions[i - 1], states[i]);
      StepKeepsInv(states[i - 1], actions[i - 1]);
    }
  }

  datatype Fetch = Cold(id: CallId) | Background(task: nat)

  predicate InFlight<R(==)>(s: State<R>, f: Fetch) {
    match f
    case Cold(id) => CallIs(s, id, Fetching)
    case Background(t) => TaskIs(s, t, Refreshing)
  }

  /** At most one fetch is in flight: a cold one under the lock with an empty cache, or a background one after that. */
  lemma SingleFlight<R(!new)>(states: seq<State<R>>, actions: seq<Action<R>>, i: nat, f: Fetch, g: Fetch)
    requires Run(states, actions) && i < |states| && InFlight(states[i], f) && InFlight(states[i], g)
    ensures f == g
    ensures f.Cold? ==> states[i].holder == Some(f.id) && states[i].cache.None?
    ensures f.Background? ==> states[i].cache.Some? && states[i].refreshing
  {
    RunKeepsInv(states, actions, i);
    var s := states[i];
    if f.Background? && g.Background? {
      assert Active(s.tasks[f.task]) && Active(s.tasks[g.task]);
    }
  }

  lemma {:induction false} CompletedGrows<R>(states: seq<State<R>>, actions: seq<Action<R>>, i: nat, j: nat)
    requires Run(states, actions) && i <= j < |states|
    ensures states[i].completed <= states[j].completed
  {
    if i < j {
      CompletedGrows(states, actions, i, j - 1);
      assert StepsTo(states[j - 1], actions[j - 1], states[j]);
    }
  }

  /** Once filled the cache stays filled. */
  lemma CacheStaysFilled<R(!new)>(states: seq<State<R>>, actions: seq<Action<R>>, i: nat, j: nat)
    requires Run(states, actions) && i <= j < |states| && states[i].cache.Some?
    ensures states[j].cache.Some?
  {
    RunKeepsInv(states, actions, i);
    RunKeepsInv(states, actions, j);
    CompletedGrows(states, actions, i, j);
  }

  /** The result is the k-th of the completed fetches. */
  predicate Fetched<R(==)>(s: State<R>, k: int, r: R) {
    0 <= k < |s.completed| && s.completed[k] == r
  }

  /**
   Every answer is the result of a completed fetch, and never of one older than the
   last that had completed before the call was made.
   */
  lemma {:induction false} AnswersAreCurrent<R(!new)>(states: seq<State<R>>, actions: seq<Action<R>>,
                                                      i: nat, j: nat, id: CallId)
    requires Run(states, actions) && i <= j < |states|
    requires id !in states[i].calls && id in states[j].calls && states[j].calls[id].Answered?
    ensures exists k :: |states[i].completed| - 1 <= k && Fetched(states[j], k, states[j].calls[id].result)
  {
    var s, t := states[j - 1], states[j];
    assert StepsTo(s, actions[j - 1], t);
    RunKeepsInv(states, actions, j);
    CompletedGrows(states, actions, i, j);
    if CallIs(s, id, t.calls[id]) {
      AnswersAreCurrent(states, actions, i, j - 1, id);
      var k :| |states[i].completed| - 1 <= k && Fetched(s, k, s.calls[id].result);
      assert Fetched(t, k, t.calls[id].result);
    } else {
      assert Fetched(t, |t.completed| - 1, t.calls[id].result);
    }
  }

  ghost predicate FailsAt<R>(actions: seq<Action<R>>, i: int, id: CallId) {
    0 <= i < |actions| && actions[i] == ColdFailed(id)
  }

  /** A call has raised exactly when its own fetch or its wait for the lock has failed; no other failure reaches it. */
  lemma {:induction false} RaisedExactly<R(!new)>(states: seq<State<R>>, actions: seq<Action<R>>, j: nat, id: CallId)
    requires Run(states, actions) && j < |states|
    ensures CallIs(states[j], id, Raised) <==> exists i :: i < j && FailsAt(actions, i, id)
  {
    if j > 0 {
      RaisedExactly(states, actions, j - 1, id);
      assert StepsTo(states[j - 1], actions[j - 1], states[j]);
      RunKeepsInv(states, actions, j - 1);
      if actions[j - 1] == ColdFailed(id) {
        assert FailsAt(actions, j - 1, id);
      }
    }
  }

  /** Nothing gets stuck: a waiter can enter or the lock holder can finish, and the refreshing flag has a live owner. */
  lemma NobodyIsStuck<R(!new)>(states: seq<State<R>>, actions: seq<Action<R>>, i: nat, r: R)
    requires Run(states, actions) && i < |states|
    ensures forall id | CallIs(states[i], id, Waiting) ::
      || Enabled(states[i], EnterLock(id, true))
      || (states[i].holder.Some? && Enabled(states[i], ColdFetched(states[i].holder.value, r)))
    ensures states[i].refreshing ==>
      exists t :: Enabled(states[i], Refreshed(t, r)) || Enabled(states[i], Released(t))
  {
    RunKeepsInv(states, actions, i);
    var s := states[i];
    if s.holder.Some? {
      assert CallIs(s, s.holder.value, Fetching);
    }
    if s.refreshing {
      var t :| 0 <= t < |s.tasks| && Active(s.tasks[t]);
      assert Enabled(s, Refreshed(t, r)) || Enabled(s, Released(t));
    }
  }

  // ---- stale answers and refreshes ----------------------------------------------------

  /** The call is answered from a filled cache whose entry is no longer recent. */
  predicate AnswersStale<R>(s: State<R>, a: Action<R>) {
    (a.Collect? || a.EnterLock?) && !a.recent && s.cache.Some?
  }

  function StaleAnswers<R>(states: seq<State<R>>, actions: seq<Action<R>>, n: nat): nat
    requires n <= |actions| < |states|
  {
    if n == 0 then 0
    else StaleAnswers(states, actions, n - 1) + if AnswersStale(states[n - 1], actions[n - 1]) then 1 else 0
  }

  /** One background refresh has been scheduled for each stale answer, and none for anything else. */
  lemma {:induction false} OneTaskPerStaleAnswer<R>(states: seq<State<R>>, actions: seq<Action<R>>, i: nat)
    requires Run(states, actions) && i < |states|
    ensures |states[i].tasks| == StaleAnswers(states, actions, i)
  {
    if i > 0 {
      OneTaskPerStaleAnswer(states, actions, i - 1);
      assert StepsTo(states[i - 1], actions[i - 1], states[i]);
    }
  }

  /**
   A call made, or let in under the lock, after any fetch has completed is answered at once with
   the last result; before that it waits, and fetches once it has the lock.
   */
  lemma AnsweredExactly<R(!new)>(states: seq<State<R>>, actions: seq<Action<R>>, i: nat, id: CallId)
    requires Run(states, actions) && i < |actions|
    requires (actions[i].Collect? || actions[i].EnterLock?) && actions[i].id == id
    ensures
      var done := states[i].completed;
      CallIs(states[i + 1], id,
        if done != [] then Answered(done[|done| - 1]) else if actions[i].Collect? then Waiting else Fetching)
  {
    RunKeepsInv(states, actions, i);
    assert StepsTo(states[i], actions[i], states[i + 1]);
  }

  /** Steps of background tasks only, whose fetches return r, lead from s to u. */
  ghost predicate TasksRun<R>(s: State<R>, acts: seq<Action<R>>, r: R, u: State<R>)
    decreases |acts|
  {
    if acts == [] then u == s
    else
      && Enabled(s, acts[0])
      && (acts[0].StartRefresh? || acts[0].Released? || (acts[0].Refreshed? && acts[0].result == r))
      && TasksRun(Next(s, acts[0]), acts[1..], r, u)
  }

  /** At most three steps of the tasks put r, as a newly completed result, in the cache. */
  ghost predicate CanRenew<R(!new)>(s: State<R>, r: R) {
    exists acts, u ::
      TasksRun(s, acts, r, u) && |acts| <= 3 && u.cache == Some(r) && u.completed == s.completed + [r]
  }

  lemma RenewedBy<R(!new)>(s: State<R>, acts: seq<Action<R>>, r: R, u: State<R>)
    requires TasksRun(s, acts, r, u) && |acts| <= 3 && u.cache == Some(r) && u.completed == s.completed + [r]
    ensures CanRenew(s, r)
  {
  }

  lemma TwoStepsRun<R>(s: State<R>, a: Action<R>, b: Action<R>, r: R)
    requires Enabled(s, a) && Enabled(Next(s, a), b)
    requires a.StartRefresh? || a.Released?
    requires b.Refreshed? && b.result == r
    ensures TasksRun(s, [a, b], r, Next(Next(s, a), b))
  {
    assert [a, b][1..] == [b] && [b][1..] == [];
  }

  lemma FinishesRefresh<R(!new)>(s: State<R>, x: nat, r: R)
    requires TaskIs(s, x, Refreshing)
    ensures CanRenew(s, r)
  {
    var a := Refreshed(x, r);
    assert [a][1..] == [];
    RenewedBy(s, [a], r, Next(s, a));
  }

  lemma StartsRefresh<R(!new)>(s: State<R>, t: nat, r: R)
    requires TaskIs(s, t, Scheduled) && !s.refreshing
    ensures CanRenew(s, r)
  {
    var a, b := StartRefresh(t), Refreshed(t, r);
    TwoStepsRun(s, a, b, r);
    RenewedBy(s, [a, b], r, Next(Next(s, a), b));
  }

  lemma ReleasesThenRefreshes<R(!new)>(s: State<R>, x: nat, t: nat, r: R)
    requires TaskIs(s, x, Releasing) && TaskIs(s, t, Scheduled)
    ensures CanRenew(s, r)
  {
    var a, b, c := Released(x), StartRefresh(t), Refreshed(t, r);
    var s1 := Next(s, a);
    TwoStepsRun(s1, b, c, r);
    assert [a, b, c][1..] == [b, c];
    RenewedBy(s, [a, b, c], r, Next(Next(s1, b), c));
  }

  /** A task that is waiting to start, or one that is fetching. */
  ghost predicate RefreshPending<R>(s: State<R>, t: nat) {
    TaskIs(s, t, Scheduled) || exists x :: TaskIs(s, x, Refreshing)
  }

  lemma PendingRenews<R(!new)>(s: State<R>, t: nat, r: R)
    requires Inv(s) && RefreshPending(s, t)
    ensures CanRenew(s, r)
  {
    if x :| TaskIs(s, x, Refreshing) {
      FinishesRefresh(s, x, r);
    } else if s.refreshing {
      var x :| 0 <= x < |s.tasks| && Active(s.tasks[x]);
      assert TaskIs(s, x, Refreshing) || TaskIs(s, x, Releasing);
      ReleasesThenRefreshes(s, x, t, r);
    } else {
      StartsRefresh(s, t, r);
    }
  }

  /** The task finds the flag held by one that has already fetched, and ends. */
  ghost predicate Superseded<R>(s: State<R>, a: Action<R>, t: nat) {
    a == StartRefresh(t) && exists x :: TaskIs(s, x, Releasing)
  }

  ghost predicate LostAt<R>(states: seq<State<R>>, actions: seq<Action<R>>, k: nat, t: nat)
    requires k < |actions| < |states|
  {
    actions[k].RefreshFailed? || Superseded(states[k], actions[k], t)
  }

  /** Between steps i and j a background fetch failed or task t was superseded. */
  ghost predicate RefreshLost<R>(states: seq<State<R>>, actions: seq<Action<R>>, i: nat, j: nat, t: nat)
    requires j <= |actions| < |states|
  {
    exists k | i < k < j :: LostAt(states, actions, k, t)
  }

  lemma PendingStep<R(!new)>(s: State<R>, a: Action<R>, t: nat)
    requires Inv(s) && Enabled(s, a) && RefreshPending(s, t)
    ensures |Next(s, a).completed| > |s.completed| || RefreshPending(Next(s, a), t)
      || a.RefreshFailed? || Superseded(s, a, t)
  {
    var u := Next(s, a);
    if x :| TaskIs(s, x, Refreshing) {
      assert !a.Refreshed? && !a.RefreshFailed? ==> TaskIs(u, x, Refreshing);
    } else if a == StartRefresh(t) {
      if s.refreshing {
        var x :| 0 <= x < |s.tasks| && Active(s.tasks[x]);
        assert TaskIs(s, x, Refreshing) || TaskIs(s, x, Releasing);
      } else {
        assert TaskIs(u, t, Refreshing);
      }
    }
  }

  /**
   After a stale answer, at every later moment: a result has been completed since, or the tasks'
   own steps can complete one, or a background fetch has failed, or the scheduled task found the
   flag held by one that had already fetched. Right after the answer it is the second.
   */
  lemma {:induction false} StaleAnswerIsRenewed<R(!new)>(states: seq<State<R>>, actions: seq<Action<R>>,
                                                         i: nat, j: nat, r: R)
    requires Run(states, actions) && i < j < |states| && AnswersStale(states[i], actions[i])
    ensures
      || |states[j].completed| > |states[i].completed|
      || CanRenew(states[j], r)
      || RefreshLost(states, actions, i, j, |states[i].tasks|)
    ensures j == i + 1 ==> CanRenew(states[j], r)
  {
    var t := |states[i].tasks|;
    PendingLasts(states, actions, i, j);
    RunKeepsInv(states, actions, j);
    if RefreshPending(states[j], t) {
      PendingRenews(states[j], t, r);
    }
    assert StepsTo(states[i], actions[i], states[i + 1]);
  }

  lemma {:induction false} PendingLasts<R(!new)>(states: seq<State<R>>, actions: seq<Action<R>>, i: nat, j: nat)
    requires Run(states, actions) && i < j < |states| && AnswersStale(states[i], actions[i])
    ensures
      || |states[j].completed| > |states[i].completed|
      || RefreshPending(states[j], |states[i].tasks|)
      || RefreshLost(states, actions, i, j, |states[i].tasks|)
  {
    var t := |states[i].tasks|;
    if j == i + 1 {
      assert StepsTo(states[i], actions[i], states[j]);
      assert TaskIs(states[j], t, Scheduled);
    } else {
      PendingLasts(states, actions, i, j - 1);
      assert StepsTo(states[j - 1], actions[j - 1], states[j]);
      CompletedGrows(states, actions, i, j - 1);
      CompletedGrows(states, actions, j - 1, j);
      RunKeepsInv(states, actions, j - 1);
      if RefreshPending(states[j - 1], t) {
        PendingStep(states[j - 1], actions[j - 1], t);
        assert LostAt(states, actions, j - 1, t) ==> RefreshLost(states, actions, i, j, t);
      }
      if RefreshLost(states, actions, i, j - 1, t) {
        var k :| i < k < j - 1 && LostAt(states, actions, k, t);
        assert i < k < j && LostAt(states, actions, k, t);
      }
    }
  }

  function SupersededAction<R>(r: R, k: nat): Action<R>
    requires k < 9
  {
    if k < 3 then if k == 0 then Collect(0, true) else if k == 1 then EnterLock(0, true) else ColdFetched(0, r)
    else if k < 6 then if k == 3 then Collect(1, false) else if k == 4 then StartRefresh(0) else Refreshed(0, r)
    else if k == 6 then Collect(2, false) else if k == 7 then StartRefresh(1) else Released(0)
  }

  function SupersededState<R(==)>(r: R, k: nat): State<R>
    requires k <= 9
  {
    var one := map[0 := Answered(r)];
    var two := one[1 := Answered(r)];
    var three := two[2 := Answered(r)];
    if k == 0 then Start()
    else if k == 1 then State(None, false, None, map[0 := Waiting], [], [])
    else if k == 2 then State(None, false, Some(0), map[0 := Fetching], [], [])
    else if k == 3 then State(Some(r), false, None, one, [], [r])
    else if k == 4 then State(Some(r), false, None, two, [Scheduled], [r])
    else if k == 5 then State(Some(r), true, None, two, [Refreshing], [r])
    else if k == 6 then State(Some(r), true, None, two, [Releasing], [r, r])
    else if k == 7 then State(Some(r), true, None, three, [Releasing, Scheduled], [r, r])
    else if k == 8 then State(Some(r), true, None, three, [Releasing, Ended], [r, r])
    else State(Some(r), false, None, three, [Ended, Ended], [r, r])
  }

  lemma SupersededStep<R(!new)>(r: R, k: nat)
    requires k < 9
    ensures StepsTo(SupersededState(r, k), SupersededAction(r, k), SupersededState(r, k + 1))
  {
  }

  /**
   The last case is real: after this run of nine steps, whose seventh is a stale answer, no task
   is left and no fetch has completed since that answer.
   */
  lemma SupersededRun<R(!new)>(r: R) returns (states: seq<State<R>>, actions: seq<Action<R>>)
    ensures Run(states, actions) && |actions| == 9 && AnswersStale(states[6], actions[6])
    ensures states[9].completed == states[6].completed
    ensures states[9].tasks == [Ended, Ended] && !states[9].refreshing
  {
    states := seq(10, k requires 0 <= k < 10 => SupersededState(r, k));
    actions := seq(9, k requires 0 <= k < 9 => SupersededAction(r, k));
    forall k | 0 <= k < 9 ensures StepsTo(states[k], actions[k], states[k + 1]) {
      SupersededStep(r, k);
    }
  }

  // ---- the code -------------------------------------------------------------------------

  /** The module globals and the coroutines working on them. */
  class Cache<R(==)> {
    var cache: Option<R>
    var refreshing: bool
    var holder: Option<CallId>
    var calls: map<CallId, Call<R>>
    var tasks: seq<Task>
    ghost var completed: seq<R>

    ghost function View(): State<R>
      reads this
    {
      State(cache, refreshing, holder, calls, tasks, completed)
    }

    constructor ()
      ensures View() == Start()
    {
      cache, refreshing, holder, calls, tasks, completed := None, false, None, map[], [], [];
    }

    method AnswerFromCache(id: CallId, recent: bool)
      requires cache.Some?
      modifies this
      ensures View() == Served(old(View()), id, recent)
    {
      if !recent {
        tasks := tasks + [Scheduled];
      }
      calls := calls[id := Answered(cache.value)];
    }

    method CollectProgress(id: CallId, recent: bool)
      requires Enabled(View(), Collect(id, recent))
      modifies this
      ensures View() == Next(old(View()), Collect(id, recent))
    {
      if cache.Some? {
        AnswerFromCache(id, recent);
      } else {
        calls := calls[id := Waiting];
      }
    }

    method EnterLocked(id: CallId, recent: bool)
      requires Enabled(View(), EnterLock(id, recent))
      modifies this
      ensures View() == Next(old(View()), EnterLock(id, recent))
    {
      if cache.Some? {
        AnswerFromCache(id, recent);
      } else {
        holder := Some(id);
        calls := calls[id := Fetching];
      }
    }

    method FinishCold(id: CallId, outcome: Option<R>)
      requires CallIs(View(), id, Fetching) && holder == Some(id)
      modifies this
      ensures View() == Next(old(View()), match outcome case Some(r) => ColdFetched(id, r) case None => ColdFailed(id))
    {
      match outcome {
        case Some(r) =>
          cache := Some(r);
          completed := completed + [r];
          calls := calls[id := Answered(r)];
        case None =>
          calls := calls[id := Raised];
      }
      holder := None;
    }

    method StartBackground(t: nat)
      requires Enabled(View(), StartRefresh(t))
      modifies this
      ensures View() == Next(old(View()), StartRefresh(t))
    {
      if refreshing {
        tasks := tasks[t := Ended];
        return;
      }
      refreshing := true;
      tasks := tasks[t := Refreshing];
    }

    method FinishBackground(t: nat, outcome: Option<R>)
      requires TaskIs(View(), t, Refreshing)
      modifies this
      ensures View() == Next(old(View()), match outcome case Some(r) => Refreshed(t, r) case None => RefreshFailed(t))
    {
      match outcome {
        case Some(r) =>
          cache := Some(r);
          completed := completed + [r];
          tasks := tasks[t := Releasing];
        case None =>
          tasks := tasks[t := Ended];
          refreshing := false;
      }
    }

    method ReleaseConnection(t: nat)
      requires Enabled(View(), Released(t))
      modifies this
      ensures View() == Next(old(View()), Released(t))
    {
      tasks := tasks[t := Ended];
      refreshing := false;
    }
  }
}
