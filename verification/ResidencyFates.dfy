/** What becomes of each request and of each admitted encode, and that none is ever stuck
    (kaine/text_embedding_numpy.py, kaine/text_embedding.py, kaine/residency/inflight.py). */
module ResidencyFates {
  import opened Wrappers
  import opened Residency
  import opened ResidencyInvariant
  import opened ResidencyGuarantees

  ghost function OpOf(pc: Pc): Op {
    match pc
    case WantLock(op) => op
    case Loading(op, _) => op
    case _ => Unload
  }

  /** Whatever the setting: the lock has one holder, no wake-up is lost, and nobody loads to unload. */
  ghost predicate TableInv(s: State) {
    && LockInv(s)
    && (forall t | t in s.tasks && s.tasks[t].WaitIdle? :: s.inflight > 0)
    && (forall t | t in s.tasks && s.tasks[t].Loading? :: s.tasks[t].op != Unload)
  }

  lemma StartLoadTable(s: State, t: Task, op: Op)
    requires TableInv(s) && t in s.tasks && s.tasks[t].WantLock? && s.lock.None? && op != Unload
    ensures TableInv(StartLoad(s, t, op))
  {}

  lemma LeftTable(s: State, t: Task)
    requires TableInv(s) && t in s.tasks && !s.tasks[t].Loading?
    ensures TableInv(Leave(s, t))
  {}

  lemma AdmitTable(s: State, job: Job, u: State)
    requires TableInv(s)
    requires u == s.(jobs := s.jobs[s.admitted := job], admitted := s.admitted + 1, inflight := s.inflight + 1)
    ensures TableInv(u)
  {
    AdmitLockInv(s, job, u);
  }

  lemma AdmittedTable(s: State, t: Task)
    requires TableInv(Leave(s, t))
    ensures TableInv(Admit(s, t))
  {
    AdmitTable(Leave(s, t), Job(s.weights, s.config, s.tokenizer, Queued), Admit(s, t));
  }

  lemma AcquireTable(s: State, t: Task, u: State)
    requires TableInv(s) && DoAcquire(s, t) == Some(u)
    ensures TableInv(u)
  {
    var op := s.tasks[t].op;
    if !op.Unload? && !s.loaded {
      StartLoadTable(s, t, op);
    } else {
      LeftTable(s, t);
      if op.Encode? { AdmittedTable(s, t); }
    }
  }

  lemma ThreadTable(c: Setting, s: State, l: LoadId, u: State)
    requires TableInv(s) && (DoThreadStep(c, s, l) == Some(u) || DoThreadFail(s, l) == Some(u))
    ensures TableInv(u)
  {
    assert u.threads.Keys == s.threads.Keys;
    assert u.tasks == s.tasks && u.jobs == s.jobs && u.lock == s.lock;
  }

  /** The task that awaited a load is gone, and so is the thread. */
  lemma LoadedTable(s: State, t: Task, u: State)
    requires TableInv(s) && t in s.tasks && s.tasks[t].Loading?
    requires u.threads == s.threads - {s.tasks[t].load} && u.loads == s.loads
    requires u.tasks == s.tasks - {t} && u.lock.None?
    requires u.jobs == s.jobs && u.inflight == s.inflight && u.admitted == s.admitted
    ensures TableInv(u)
  {}

  /** What the awaiting task finds when its load has returned. */
  ghost function Loaded(c: Setting, s: State, l: LoadId): State {
    var kept := s.(threads := s.threads - {l});
    if c.style.FieldsOnLoop? then kept.(weights := Some(l), config := Some(l), tokenizer := Some(l), loaded := true)
    else kept
  }

  lemma LoadReturns(c: Setting, s: State, t: Task, u: State)
    requires DoLoadReturn(c, s, t) == Some(u)
    ensures t in s.tasks && s.tasks[t].Loading?
    ensures u == if s.tasks[t].op == Encode then Admit(Loaded(c, s, s.tasks[t].load), t)
                 else Leave(Loaded(c, s, s.tasks[t].load), t)
  {}

  lemma LoadLeavesTable(c: Setting, s: State, t: Task)
    requires TableInv(s) && t in s.tasks && s.tasks[t].Loading?
    ensures TableInv(Leave(Loaded(c, s, s.tasks[t].load), t))
  {
    LoadedTable(s, t, Leave(Loaded(c, s, s.tasks[t].load), t));
  }

  lemma LoadReturnTable(c: Setting, s: State, t: Task, u: State)
    requires TableInv(s) && DoLoadReturn(c, s, t) == Some(u)
    ensures TableInv(u)
  {
    LoadReturns(c, s, t, u);
    LoadLeavesTable(c, s, t);
    var v := Loaded(c, s, s.tasks[t].load);
    if s.tasks[t].op == Encode { AdmittedTable(v, t); }
  }

  lemma LoadRaiseTable(s: State, t: Task, u: State)
    requires TableInv(s) && DoLoadRaise(s, t) == Some(u)
    ensures TableInv(u)
  {
    LoadedTable(s, t, u);
  }

  lemma LeaveTable(c: Setting, s: State, t: Task, u: State)
    requires TableInv(s)
    requires DoCancelLoad(c, s, t) == Some(u) || DoCancelOther(s, t) == Some(u) || DoClear(s, t) == Some(u)
    ensures TableInv(u)
  {}

  lemma JobTable(s: State, j: JobId, from: Phase, to: Phase, u: State)
    requires TableInv(s) && DoJobMove(s, j, from, to) == Some(u)
    ensures TableInv(u)
  {}

  lemma ReleaseTable(s: State, j: JobId, phase: Phase, u: State)
    requires TableInv(s) && DoRelease(s, j, phase) == Some(u)
    ensures TableInv(u)
  {
    assert forall t | t in u.tasks :: u.tasks[t].HoldsLock() == s.tasks[t].HoldsLock();
  }

  lemma JobsTable(c: Setting, s: State, e: Event, u: State)
    requires TableInv(s) && Step(c, s, e) == Some(u) && (e.JobStart? || e.JobFinish? || e.JobRelease? || e.JobAbandon?)
    ensures TableInv(u)
  {
    match e
    case JobStart(j) => JobTable(s, j, Queued, Running, u);
    case JobFinish(j) => JobTable(s, j, Running, Finished, u);
    case JobRelease(j) => ReleaseTable(s, j, Finished, u);
    case JobAbandon(j) => ReleaseTable(s, j, Queued, u);
  }

  lemma RequestTable(s: State, t: Task, op: Op, u: State)
    requires TableInv(s) && t !in s.tasks && u == s.(tasks := s.tasks[t := WantLock(op)])
    ensures TableInv(u)
  {}

  lemma StepTable(c: Setting, s: State, e: Event, u: State)
    requires TableInv(s) && Step(c, s, e) == Some(u)
    ensures TableInv(u)
  {
    if e.Request? {
      RequestTable(s, e.t, e.op, u);
    } else if e.Acquire? {
      AcquireTable(s, e.t, u);
    } else if e.ThreadStep? || e.ThreadFail? {
      ThreadTable(c, s, e.l, u);
    } else if e.LoadReturn? {
      LoadReturnTable(c, s, e.t, u);
    } else if e.LoadRaise? {
      LoadRaiseTable(s, e.t, u);
    } else if e.CancelLoad? || e.CancelOther? || e.Clear? {
      LeaveTable(c, s, e.t, u);
    } else {
      JobsTable(c, s, e, u);
    }
  }

  lemma {:induction false} RunTable(c: Setting, events: seq<Event>, s: State)
    requires Run(c, events) == Some(s)
    ensures TableInv(s)
  {
    if events != [] {
      var front := events[..|events| - 1];
      RunTable(c, front, Run(c, front).value);
      StepTable(c, Run(c, front).value, events[|events| - 1], s);
    }
  }

  // ------------------------------------------------------------------ how a task leaves

  ghost predicate SameModel(s: State, u: State) {
    u.loaded == s.loaded && u.weights == s.weights && u.config == s.config && u.tokenizer == s.tokenizer
  }

  ghost predicate SameJobs(s: State, u: State) { u.jobs == s.jobs && u.admitted == s.admitted && u.inflight == s.inflight }

  /** Exactly one more encode is admitted, with the fields as they are now. */
  ghost predicate Admitted(s: State, u: State) {
    && u.jobs == s.jobs[s.admitted := Job(u.weights, u.config, u.tokenizer, Queued)]
    && u.admitted == s.admitted + 1 && u.inflight == s.inflight + 1
  }

  /** The task was cancelled, or the load it awaited failed; nothing else happened. */
  ghost predicate CalledOff(s: State, e: Event, u: State, t: Task)
    requires t in s.tasks
  {
    && (e == CancelOther(t) || e == CancelLoad(t)
        || (e == LoadRaise(t) && s.tasks[t].Loading? && s.tasks[t].load in s.threads && s.threads[s.tasks[t].load].Failed?))
    && SameModel(s, u) && SameJobs(s, u)
  }

  /** The task got what it asked for. */
  ghost predicate Answered(s: State, e: Event, u: State, t: Task)
    requires t in s.tasks
  {
    match OpOf(s.tasks[t])
    case Ensure => ((e == Acquire(t) && s.loaded) || e == LoadReturn(t)) && SameJobs(s, u)
    case Encode => ((e == Acquire(t) && s.loaded) || e == LoadReturn(t)) && Admitted(s, u)
    case Unload =>
      && SameJobs(s, u)
      && ((e == Acquire(t) && !s.loaded && SameModel(s, u))
          || (e == Clear(t) && !u.loaded && u.weights.None? && u.config.None? && u.tokenizer.None?))
  }

  /** A load that has returned left its model behind when the awaiting task stores it. */
  ghost predicate Stored(c: Setting, s: State, e: Event, u: State, t: Task)
    requires t in s.tasks
  {
    e == LoadReturn(t) && c.style.FieldsOnLoop? && s.tasks[t].Loading? ==>
      u.loaded && u.weights == u.config == u.tokenizer == Some(s.tasks[t].load)
  }

  /** The task keeps its operation until it is called off or answered. */
  ghost predicate Fate(c: Setting, s: State, e: Event, u: State, t: Task) {
    t in s.tasks ==>
      if t in u.tasks then OpOf(u.tasks[t]) == OpOf(s.tasks[t])
      else CalledOff(s, e, u, t) || (Answered(s, e, u, t) && Stored(c, s, e, u, t))
  }

  lemma AcquireFate(c: Setting, s: State, e: Event, u: State, t: Task)
    requires Step(c, s, e) == Some(u) && e.Acquire?
    ensures Fate(c, s, e, u, t)
  {}

  lemma LoadAnswers(c: Setting, s: State, u: State, t: Task)
    requires t in s.tasks && s.tasks[t].Loading? && s.tasks[t].op != Unload
    requires var v := Loaded(c, s, s.tasks[t].load); u == if s.tasks[t].op == Encode then Admit(v, t) else Leave(v, t)
    ensures u.tasks == s.tasks - {t}
    ensures Answered(s, LoadReturn(t), u, t) && Stored(c, s, LoadReturn(t), u, t)
  {}

  lemma LoadFate(c: Setting, s: State, e: Event, u: State, t: Task)
    requires TableInv(s) && Step(c, s, e) == Some(u) && e.LoadReturn?
    ensures Fate(c, s, e, u, t)
  {
    LoadReturns(c, s, e.t, u);
    LoadAnswers(c, s, u, e.t);
  }

  lemma ReleaseFate(c: Setting, s: State, e: Event, u: State, t: Task)
    requires Step(c, s, e) == Some(u) && (e.JobRelease? || e.JobAbandon?)
    ensures Fate(c, s, e, u, t)
  {}

  lemma LeaveFate(c: Setting, s: State, e: Event, u: State, t: Task)
    requires Step(c, s, e) == Some(u) && (e.LoadRaise? || e.CancelLoad? || e.CancelOther? || e.Clear?)
    ensures Fate(c, s, e, u, t)
  {}

  lemma ThreadFate(c: Setting, s: State, e: Event, u: State, t: Task)
    requires Step(c, s, e) == Some(u) && (e.ThreadStep? || e.ThreadFail? || e.JobStart? || e.JobFinish? || e.Request?)
    ensures Fate(c, s, e, u, t)
  {}

  lemma StepFate(c: Setting, s: State, e: Event, u: State, t: Task)
    requires TableInv(s) && Step(c, s, e) == Some(u)
    ensures Fate(c, s, e, u, t)
  {
    if e.Acquire? {
      AcquireFate(c, s, e, u, t);
    } else if e.LoadReturn? {
      LoadFate(c, s, e, u, t);
    } else if e.JobRelease? || e.JobAbandon? {
      ReleaseFate(c, s, e, u, t);
    } else if e.LoadRaise? || e.CancelLoad? || e.CancelOther? || e.Clear? {
      LeaveFate(c, s, e, u, t);
    } else {
      ThreadFate(c, s, e, u, t);
    }
  }

  // ------------------------------------------------------------------ over whole runs

  lemma {:induction false} RunPrefix(c: Setting, events: seq<Event>, k: nat)
    requires Run(c, events).Some? && k <= |events|
    ensures Run(c, events[..k]).Some?
  {
    if k < |events| {
      RunPrefix(c, events[..|events| - 1], k);
      assert events[..|events| - 1][..k] == events[..k];
    } else {
      assert events[..k] == events;
    }
  }

  /** The state before event `k` of a run. */
  ghost function Before(c: Setting, events: seq<Event>, k: nat): State
    requires Run(c, events).Some? && k <= |events|
  {
    RunPrefix(c, events, k);
    Run(c, events[..k]).value
  }

  lemma BeforeIs(c: Setting, events: seq<Event>, k: nat)
    requires Run(c, events).Some? && k <= |events|
    ensures Run(c, events[..k]) == Some(Before(c, events, k))
  {
    RunPrefix(c, events, k);
  }

  lemma StepAt(c: Setting, events: seq<Event>, k: nat)
    requires Run(c, events).Some? && k < |events|
    ensures Step(c, Before(c, events, k), events[k]) == Some(Before(c, events, k + 1))
  {
    RunPrefix(c, events, k + 1);
    assert events[..k + 1][..k] == events[..k];
  }

  /** From event `i` to just before event `j` the task is on the table for `op`. */
  ghost predicate OnTable(c: Setting, events: seq<Event>, i: nat, j: nat, t: Task, op: Op)
    requires Run(c, events).Some? && i <= j <= |events|
  {
    forall k | i < k <= j :: t in Before(c, events, k).tasks && OpOf(Before(c, events, k).tasks[t]) == op
  }

  lemma FateAt(c: Setting, events: seq<Event>, k: nat, t: Task)
    requires Run(c, events).Some? && k < |events|
    ensures Fate(c, Before(c, events, k), events[k], Before(c, events, k + 1), t)
  {
    StepAt(c, events, k);
    BeforeIs(c, events, k);
    RunTable(c, events[..k], Before(c, events, k));
    StepFate(c, Before(c, events, k), events[k], Before(c, events, k + 1), t);
  }

  lemma {:induction false} RequestFate(c: Setting, events: seq<Event>, i: nat, n: nat, t: Task, op: Op) returns (j: nat)
    requires Run(c, events).Some? && i < n <= |events| && events[i] == Request(t, op)
    ensures i < j <= n && OnTable(c, events, i, j, t, op)
    ensures j < n ==> t !in Before(c, events, j + 1).tasks
    decreases n
  {
    StepAt(c, events, i);
    if n == i + 1 {
      j := n;
    } else {
      j := RequestFate(c, events, i, n - 1, t, op);
      if j == n - 1 {
        FateAt(c, events, j, t);
        if t in Before(c, events, j + 1).tasks { j := n; }
      }
    }
  }

  /** Whoever asked for the model leaves it loaded, whole, and an encode is handed just that. */
  ghost predicate Whole(s: State, u: State, t: Task)
    requires t in s.tasks
  {
    OpOf(s.tasks[t]) != Unload ==> u.loaded && u.weights.Some? && u.weights == u.config == u.tokenizer
  }

  lemma AnsweredWhole(c: Setting, s: State, e: Event, u: State, t: Task)
    requires LoadsKept(c) && Inv(c, s) && Inv(c, u) && Step(c, s, e) == Some(u) && t in s.tasks
    requires Answered(s, e, u, t)
    ensures Whole(s, u, t)
  {
    if e == LoadReturn(t) && c.style.FieldsInThread? {
      assert ThreadInv(s, s.tasks[t].load, s.threads[s.tasks[t].load]);
    }
  }

  lemma InvAt(c: Setting, events: seq<Event>, k: nat)
    requires LoadsKept(c) && Run(c, events).Some? && k <= |events|
    ensures Inv(c, Before(c, events, k))
  {
    BeforeIs(c, events, k);
    RunInv(c, events[..k], Before(c, events, k));
  }

  lemma WholeAt(c: Setting, events: seq<Event>, k: nat, t: Task)
    requires LoadsKept(c) && Run(c, events).Some? && k < |events| && t in Before(c, events, k).tasks
    requires Answered(Before(c, events, k), events[k], Before(c, events, k + 1), t)
    ensures Whole(Before(c, events, k), Before(c, events, k + 1), t)
  {
    StepAt(c, events, k);
    InvAt(c, events, k);
    InvAt(c, events, k + 1);
    AnsweredWhole(c, Before(c, events, k), events[k], Before(c, events, k + 1), t);
  }

  /** Event `k` takes the task of `op` off the table: called off, or answered. */
  ghost predicate EndsAt(c: Setting, events: seq<Event>, k: nat, t: Task, op: Op)
    requires Run(c, events).Some? && k < |events|
  {
    var s, e, u := Before(c, events, k), events[k], Before(c, events, k + 1);
    && t in s.tasks && OpOf(s.tasks[t]) == op && t !in u.tasks
    && (CalledOff(s, e, u, t) || (Answered(s, e, u, t) && Stored(c, s, e, u, t) && (LoadsKept(c) ==> Whole(s, u, t))))
  }

  /** Every request in a run is still on the table, or was called off, by its cancellation or the failure of
      its load, or answered: an encode is admitted once, with the fields as they are then, an unload finds
      nothing loaded or clears the fields. */
  lemma EveryRequestHasItsFate(c: Setting, events: seq<Event>, i: nat, t: Task, op: Op) returns (j: nat)
    requires Run(c, events).Some? && i < |events| && events[i] == Request(t, op)
    ensures i < j <= |events| && OnTable(c, events, i, j, t, op)
    ensures j < |events| ==> EndsAt(c, events, j, t, op)
  {
    j := RequestFate(c, events, i, |events|, t, op);
    if j < |events| {
      FateAt(c, events, j, t);
      var s, e, u := Before(c, events, j), events[j], Before(c, events, j + 1);
      assert t in s.tasks && OpOf(s.tasks[t]) == op;
      if LoadsKept(c) && Answered(s, e, u, t) { WholeAt(c, events, j, t); }
    }
  }
}
