/** What every step of the residency protocol keeps (kaine/text_embedding_numpy.py, kaine/text_embedding.py). */
module ResidencyInvariant {
  import opened Wrappers
  import opened Residency

  ghost predicate LockInv(s: State) {
    && (forall t | t in s.tasks :: s.tasks[t].HoldsLock() <==> s.lock == Some(t))
    && (s.lock.Some? ==> s.lock.value in s.tasks)
    && s.inflight == |s.jobs|
    && (forall j | j in s.jobs :: j < s.admitted)
    && (forall l | l in s.threads :: l < s.loads)
    && (forall t | t in s.tasks && s.tasks[t].Loading? :: s.tasks[t].load in s.threads)
  }

  /** The task that holds the lock for a load, if there is one. */
  predicate LoadHeld(s: State, l: LoadId) {
    s.lock.Some? && s.lock.value in s.tasks && s.tasks[s.lock.value].Loading? && s.tasks[s.lock.value].load == l
  }

  ghost predicate ModelInv(c: Setting, s: State) {
    && (s.loaded ==> s.weights.Some? && s.weights == s.config == s.tokenizer)
    && (forall j | j in s.jobs :: s.jobs[j].Whole())
    && (forall t | t in s.tasks && s.tasks[t].WaitIdle? :: s.loaded)
    && (forall t | t in s.tasks && s.tasks[t].Woken? :: s.jobs == map[])
    && (c.style.FieldsOnLoop? ==> forall t | t in s.tasks && s.tasks[t].Loading? :: !s.loaded)
    && (c.style.FieldsInThread? ==> forall l | l in s.threads :: ThreadInv(s, l, s.threads[l]))
  }

  /** With nobody cancelled, the only load thread is the one the lock holder awaits. */
  ghost predicate ThreadInv(s: State, l: LoadId, th: Thread) {
    && LoadHeld(s, l)
    && (th.Working? ==> && !s.loaded && th.stored <= 3
                        && (th.stored >= 1 ==> s.config == Some(l))
                        && (th.stored >= 2 ==> s.tokenizer == Some(l))
                        && (th.stored >= 3 ==> s.weights == Some(l)))
    && (th.Done? ==> s.loaded)
    && (th.Failed? ==> !s.loaded)
  }

  ghost predicate Inv(c: Setting, s: State) { LockInv(s) && ModelInv(c, s) }

  /** The settings under which the protocol is safe. */
  predicate LoadsKept(c: Setting) { c.style.FieldsOnLoop? || !c.cancelLoads }

  /** Leaving the lock, or the queue for it, disturbs nothing else. */
  lemma LeaveInv(c: Setting, s: State, t: Task)
    requires Inv(c, s) && t in s.tasks
    requires s.tasks[t].Loading? ==> s.tasks[t].load !in s.threads || c.style.FieldsOnLoop?
    ensures ModelInv(c, Leave(s, t))
    ensures LockInv(Leave(s, t))
  {}

  lemma AdmitLockInv(s: State, job: Job, u: State)
    requires LockInv(s)
    requires u == s.(jobs := s.jobs[s.admitted := job], admitted := s.admitted + 1, inflight := s.inflight + 1)
    ensures LockInv(u)
  {}

  lemma AdmitModelInv(c: Setting, s: State, job: Job, u: State)
    requires ModelInv(c, s) && job.Whole()
    requires forall q | q in s.tasks :: !s.tasks[q].Woken?
    requires u == s.(jobs := s.jobs[s.admitted := job], admitted := s.admitted + 1, inflight := s.inflight + 1)
    ensures ModelInv(c, u)
  {
    assert forall l | l in s.threads && ThreadInv(s, l, s.threads[l]) :: ThreadInv(u, l, u.threads[l]);
  }

  lemma AdmitInv(c: Setting, s: State, t: Task)
    requires Inv(c, Leave(s, t)) && s.loaded
    requires forall q | q in s.tasks && q != t :: !s.tasks[q].Woken?
    ensures Inv(c, Admit(s, t))
  {
    var left, job := Leave(s, t), Job(s.weights, s.config, s.tokenizer, Queued);
    AdmitLockInv(left, job, Admit(s, t));
    AdmitModelInv(c, left, job, Admit(s, t));
  }

  lemma StartLoadInv(c: Setting, s: State, t: Task, op: Op)
    requires Inv(c, s) && t in s.tasks && s.tasks[t].WantLock? && s.lock.None? && !s.loaded
    ensures Inv(c, StartLoad(s, t, op))
  {}

  lemma AcquireInv(c: Setting, s: State, t: Task, u: State)
    requires LoadsKept(c) && Inv(c, s) && DoAcquire(s, t) == Some(u)
    ensures Inv(c, u)
  {
    if s.tasks[t].op.Encode? && s.loaded {
      LeaveInv(c, s, t);
      AdmitInv(c, s, t);
    } else if !s.tasks[t].op.Unload? && !s.loaded {
      StartLoadInv(c, s, t, s.tasks[t].op);
    }
  }

  lemma LoopThreadInv(c: Setting, s: State, l: LoadId, u: State)
    requires c.style.FieldsOnLoop? && Inv(c, s) && DoThreadStep(c, s, l) == Some(u)
    ensures Inv(c, u)
  {}

  lemma FieldThreadInv(c: Setting, s: State, l: LoadId, u: State)
    requires c.style.FieldsInThread? && Inv(c, s) && DoThreadStep(c, s, l) == Some(u)
    ensures Inv(c, u)
  {
    assert ThreadInv(s, l, s.threads[l]);
    assert forall m | m in s.threads :: LoadHeld(s, m) && m == l;
  }

  lemma ThreadStepInv(c: Setting, s: State, l: LoadId, u: State)
    requires Inv(c, s) && DoThreadStep(c, s, l) == Some(u)
    ensures Inv(c, u)
  {
    if c.style.FieldsOnLoop? { LoopThreadInv(c, s, l, u); } else { FieldThreadInv(c, s, l, u); }
  }

  lemma ThreadFailInv(c: Setting, s: State, l: LoadId, u: State)
    requires LoadsKept(c) && Inv(c, s) && DoThreadFail(s, l) == Some(u)
    ensures Inv(c, u)
  {}

  /** The loaded model is in place and the thread is gone, as the awaiting task leaves. */
  lemma LoadedInv(c: Setting, s: State, t: Task, v: State)
    requires LoadsKept(c) && Inv(c, s) && t in s.tasks && s.tasks[t].Loading?
    requires var l := s.tasks[t].load;
             && l in s.threads && s.threads[l].Done?
             && var kept := s.(threads := s.threads - {l});
             v == if c.style.FieldsOnLoop?
                  then kept.(weights := Some(l), config := Some(l), tokenizer := Some(l), loaded := true)
                  else kept
    ensures Inv(c, Leave(v, t)) && v.loaded
  {}

  lemma LoadReturnInv(c: Setting, s: State, t: Task, u: State)
    requires LoadsKept(c) && Inv(c, s) && DoLoadReturn(c, s, t) == Some(u)
    ensures Inv(c, u)
  {
    var l := s.tasks[t].load;
    var kept := s.(threads := s.threads - {l});
    var v := if c.style.FieldsOnLoop?
             then kept.(weights := Some(l), config := Some(l), tokenizer := Some(l), loaded := true)
             else kept;
    LoadedInv(c, s, t, v);
    if s.tasks[t].op == Encode { AdmitInv(c, v, t); }
  }

  lemma LoadRaiseInv(c: Setting, s: State, t: Task, u: State)
    requires LoadsKept(c) && Inv(c, s) && DoLoadRaise(s, t) == Some(u)
    ensures Inv(c, u)
  {}

  lemma CancelLoadInv(c: Setting, s: State, t: Task, u: State)
    requires LoadsKept(c) && Inv(c, s) && DoCancelLoad(c, s, t) == Some(u)
    ensures Inv(c, u)
  {}

  lemma CancelOtherInv(c: Setting, s: State, t: Task, u: State)
    requires LoadsKept(c) && Inv(c, s) && DoCancelOther(s, t) == Some(u)
    ensures Inv(c, u)
  {}

  lemma JobMoveInv(c: Setting, s: State, j: JobId, from: Phase, to: Phase, u: State)
    requires LoadsKept(c) && Inv(c, s) && DoJobMove(s, j, from, to) == Some(u)
    ensures Inv(c, u)
  {}

  lemma ReleaseInv(c: Setting, s: State, j: JobId, phase: Phase, u: State)
    requires LoadsKept(c) && Inv(c, s) && DoRelease(s, j, phase) == Some(u)
    ensures Inv(c, u)
  {}

  lemma ClearInv(c: Setting, s: State, t: Task, u: State)
    requires LoadsKept(c) && Inv(c, s) && DoClear(s, t) == Some(u)
    ensures Inv(c, u)
  {}

  lemma RequestInv(c: Setting, s: State, t: Task, op: Op)
    requires Inv(c, s) && t !in s.tasks
    ensures Inv(c, s.(tasks := s.tasks[t := WantLock(op)]))
  {}

  /** Every step keeps the invariant. */
  lemma StepInv(c: Setting, s: State, e: Event, u: State)
    requires LoadsKept(c) && Inv(c, s) && Step(c, s, e) == Some(u)
    ensures Inv(c, u)
  {
    match e
    case Request(t, op) => RequestInv(c, s, t, op);
    case Acquire(t) => AcquireInv(c, s, t, u);
    case ThreadStep(l) => ThreadStepInv(c, s, l, u);
    case ThreadFail(l) => ThreadFailInv(c, s, l, u);
    case LoadReturn(t) => LoadReturnInv(c, s, t, u);
    case LoadRaise(t) => LoadRaiseInv(c, s, t, u);
    case CancelLoad(t) => CancelLoadInv(c, s, t, u);
    case CancelOther(t) => CancelOtherInv(c, s, t, u);
    case JobStart(j) => JobMoveInv(c, s, j, Queued, Running, u);
    case JobFinish(j) => JobMoveInv(c, s, j, Running, Finished, u);
    case JobRelease(j) => ReleaseInv(c, s, j, Finished, u);
    case JobAbandon(j) => ReleaseInv(c, s, j, Queued, u);
    case Clear(t) => ClearInv(c, s, t, u);
  }

  lemma {:induction false} RunInv(c: Setting, events: seq<Event>, s: State)
    requires LoadsKept(c) && Run(c, events) == Some(s)
    ensures Inv(c, s)
  {
    if events != [] {
      var front := events[..|events| - 1];
      RunInv(c, front, Run(c, front).value);
      StepInv(c, Run(c, front).value, events[|events| - 1], s);
    }
  }

  // ------------------------------------------------------------------ one load at a time

  /** Without cancelled loads every thread, whatever the style, is the lock holder's. */
  ghost predicate AwaitedInv(s: State) {
    && (forall t | t in s.tasks :: s.tasks[t].HoldsLock() <==> s.lock == Some(t))
    && (s.lock.Some? ==> s.lock.value in s.tasks)
    && (forall l | l in s.threads :: l < s.loads && LoadHeld(s, l))
  }

  lemma AwaitedLoad(c: Setting, s: State, t: Task, u: State)
    requires AwaitedInv(s)
    requires || DoLoadReturn(c, s, t) == Some(u) || DoLoadRaise(s, t) == Some(u)
    ensures AwaitedInv(u)
  {}

  lemma AwaitedAcquire(s: State, t: Task, u: State)
    requires AwaitedInv(s) && DoAcquire(s, t) == Some(u)
    ensures AwaitedInv(u)
  {}

  lemma AwaitedThread(c: Setting, s: State, l: LoadId, u: State)
    requires AwaitedInv(s) && (DoThreadStep(c, s, l) == Some(u) || DoThreadFail(s, l) == Some(u))
    ensures AwaitedInv(u)
  {}

  lemma AwaitedRelease(s: State, j: JobId, phase: Phase, u: State)
    requires AwaitedInv(s) && DoRelease(s, j, phase) == Some(u)
    ensures AwaitedInv(u)
  {
    assert forall t | t in u.tasks :: u.tasks[t].HoldsLock() == s.tasks[t].HoldsLock();
  }

  lemma AwaitedStep(c: Setting, s: State, e: Event, u: State)
    requires !c.cancelLoads && AwaitedInv(s) && Step(c, s, e) == Some(u)
    ensures AwaitedInv(u)
  {
    match e
    case Acquire(t) => AwaitedAcquire(s, t, u);
    case ThreadStep(l) => AwaitedThread(c, s, l, u);
    case ThreadFail(l) => AwaitedThread(c, s, l, u);
    case LoadReturn(t) => AwaitedLoad(c, s, t, u);
    case LoadRaise(t) => AwaitedLoad(c, s, t, u);
    case JobRelease(j) => AwaitedRelease(s, j, Finished, u);
    case JobAbandon(j) => AwaitedRelease(s, j, Queued, u);
    case _ =>
  }

  lemma {:induction false} AwaitedRun(c: Setting, events: seq<Event>, s: State)
    requires !c.cancelLoads && Run(c, events) == Some(s)
    ensures AwaitedInv(s)
  {
    if events != [] {
      var front := events[..|events| - 1];
      AwaitedRun(c, front, Run(c, front).value);
      AwaitedStep(c, Run(c, front).value, events[|events| - 1], s);
    }
  }
}
