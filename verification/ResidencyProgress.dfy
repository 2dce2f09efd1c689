/** No request and no encode is ever stuck: from every reachable state each can be brought to its end
    (kaine/text_embedding_numpy.py, kaine/text_embedding.py, kaine/residency/inflight.py). */
module ResidencyProgress {
  import opened Wrappers
  import opened Residency
  import opened ResidencyInvariant
  import opened ResidencyGuarantees
  import opened ResidencyFates

  // ------------------------------------------------------------------ admitted encodes

  ghost function NextPhase(e: Event, j: JobId, phase: Phase): Option<Phase> {
    if e == JobStart(j) && phase == Queued then Some(Running)
    else if e == JobFinish(j) && phase == Running then Some(Finished)
    else if e == JobRelease(j) || e == JobAbandon(j) then None
    else Some(phase)
  }

  /** An admitted encode keeps the model it was handed, goes from queued to running to finished, and
      counts in the gate until it is released: finished, or abandoned before it ran. */
  ghost predicate JobFate(s: State, e: Event, u: State, j: JobId)
    requires j in s.jobs
  {
    var job := s.jobs[j];
    match NextPhase(e, j, job.phase)
    case Some(phase) => j in u.jobs && u.jobs[j] == job.(phase := phase)
    case None =>
      && u.jobs == s.jobs - {j} && u.inflight == s.inflight - 1 && SameModel(s, u)
      && (if e.JobRelease? then job.phase == Finished else job.phase == Queued)
  }

  lemma ReleasedFate(c: Setting, s: State, e: Event, u: State, j: JobId)
    requires LockInv(s) && Step(c, s, e) == Some(u) && j in s.jobs && (e.JobRelease? || e.JobAbandon?)
    ensures JobFate(s, e, u, j)
  {}

  lemma MovedFate(c: Setting, s: State, e: Event, u: State, j: JobId)
    requires LockInv(s) && Step(c, s, e) == Some(u) && j in s.jobs && (e.JobStart? || e.JobFinish?)
    ensures JobFate(s, e, u, j)
  {}

  lemma AdmittedFate(c: Setting, s: State, e: Event, u: State, j: JobId)
    requires LockInv(s) && Step(c, s, e) == Some(u) && j in s.jobs && (e.Acquire? || e.LoadReturn?)
    ensures JobFate(s, e, u, j)
  {}

  lemma OtherFate(c: Setting, s: State, e: Event, u: State, j: JobId)
    requires LockInv(s) && Step(c, s, e) == Some(u) && j in s.jobs
    requires e.Request? || e.ThreadStep? || e.ThreadFail? || e.LoadRaise? || e.CancelLoad? || e.CancelOther? || e.Clear?
    ensures JobFate(s, e, u, j)
  {}

  lemma StepJobFate(c: Setting, events: seq<Event>, s: State, e: Event, u: State, j: JobId)
    requires Run(c, events) == Some(s) && Step(c, s, e) == Some(u) && j in s.jobs
    ensures JobFate(s, e, u, j)
  {
    RunTable(c, events, s);
    if e.JobRelease? || e.JobAbandon? {
      ReleasedFate(c, s, e, u, j);
    } else if e.JobStart? || e.JobFinish? {
      MovedFate(c, s, e, u, j);
    } else if e.Acquire? || e.LoadReturn? {
      AdmittedFate(c, s, e, u, j);
    } else {
      OtherFate(c, s, e, u, j);
    }
  }

  // ------------------------------------------------------------------ bringing a task to its end

  /** A load thread can run to its end, beside everybody else. */
  lemma {:induction false} ThreadEnds(c: Setting, events: seq<Event>, s: State, l: LoadId, k: nat)
    returns (more: seq<Event>, u: State)
    requires Run(c, events) == Some(s) && l in s.threads && s.threads[l] == Working(k)
    ensures events <= more && Run(c, more) == Some(u)
    ensures l in u.threads && u.threads[l].Done? && u.tasks == s.tasks && u.lock == s.lock && SameJobs(s, u)
    decreases 4 - k
  {
    more, u := Extend(c, events, s, ThreadStep(l));
    if u.threads[l].Working? { more, u := ThreadEnds(c, more, u, l, k + 1); }
  }

  /** Task `t` is done and the lock is free; nobody else has moved. */
  ghost predicate Served(s: State, u: State, t: Task)
    requires t in s.tasks
  {
    && u.tasks.Keys == s.tasks.Keys - {t} && u.lock.None?
    && (OpOf(s.tasks[t]) == Ensure ==> SameJobs(s, u))
    && (OpOf(s.tasks[t]) == Encode ==> Admitted(s, u))
    && (OpOf(s.tasks[t]) == Unload ==> !u.loaded)
  }

  lemma LoaderCanEnd(c: Setting, events: seq<Event>, s: State, t: Task) returns (more: seq<Event>, u: State)
    requires Run(c, events) == Some(s) && s.lock == Some(t) && t in s.tasks && s.tasks[t].Loading?
    requires s.tasks[t].load in s.threads && s.tasks[t].op != Unload
    ensures events <= more && Run(c, more) == Some(u)
    ensures if s.threads[s.tasks[t].load].Failed? then u.tasks == s.tasks - {t} && u.lock.None? && SameJobs(s, u)
            else Served(s, u, t) && u.tasks == s.tasks - {t}
  {
    var l := s.tasks[t].load;
    if s.threads[l].Failed? {
      more, u := Extend(c, events, s, LoadRaise(t));
    } else {
      more, u := events, s;
      if s.threads[l].Working? { more, u := ThreadEnds(c, events, s, l, s.threads[l].stored); }
      more, u := Extend(c, more, u, LoadReturn(t));
    }
  }

  /** An encode can run to its end, beside everybody else. */
  lemma JobCanFinish(c: Setting, events: seq<Event>, s: State, j: JobId) returns (more: seq<Event>, u: State)
    requires Run(c, events) == Some(s) && j in s.jobs
    ensures events <= more && Run(c, more) == Some(u)
    ensures u == s.(jobs := s.jobs[j := s.jobs[j].(phase := Finished)])
  {
    more, u := events, s;
    if s.jobs[j].phase.Queued? { more, u := Extend(c, more, u, JobStart(j)); }
    if s.jobs[j].phase.Running? || s.jobs[j].phase.Queued? { more, u := Extend(c, more, u, JobFinish(j)); }
    assert u.jobs == s.jobs[j := s.jobs[j].(phase := Finished)];
  }

  lemma JobCanEnd(c: Setting, events: seq<Event>, s: State, j: JobId) returns (more: seq<Event>, u: State)
    requires Run(c, events) == Some(s) && j in s.jobs
    ensures events <= more && Run(c, more) == Some(u)
    ensures u.jobs == s.jobs - {j} && SameModel(s, u) && u.lock == s.lock && u.tasks.Keys == s.tasks.Keys
    ensures forall t | t in s.tasks :: u.tasks[t] == if s.tasks[t].WaitIdle? && u.jobs == map[] then Woken else s.tasks[t]
  {
    var v;
    more, v := JobCanFinish(c, events, s, j);
    more, u := Extend(c, more, v, JobRelease(j));
    RunTable(c, more, u);
    assert u.jobs == s.jobs - {j};
    assert u.inflight == |u.jobs|;
  }

  lemma {:induction false} AllJobsCanEnd(c: Setting, events: seq<Event>, s: State, t: Task)
    returns (more: seq<Event>, u: State)
    requires Run(c, events) == Some(s) && t in s.tasks && s.tasks[t].WaitIdle? && s.jobs != map[]
    ensures events <= more && Run(c, more) == Some(u)
    ensures u.jobs == map[] && u.lock == s.lock && u.tasks.Keys == s.tasks.Keys && u.tasks[t] == Woken
    decreases |s.jobs|
  {
    var j :| j in s.jobs;
    more, u := JobCanEnd(c, events, s, j);
    if u.jobs != map[] { more, u := AllJobsCanEnd(c, more, u, t); }
  }

  lemma UnloaderCanEnd(c: Setting, events: seq<Event>, s: State, t: Task) returns (more: seq<Event>, u: State)
    requires Run(c, events) == Some(s) && s.lock == Some(t) && t in s.tasks && (s.tasks[t].WaitIdle? || s.tasks[t].Woken?)
    ensures events <= more && Run(c, more) == Some(u) && Served(s, u, t)
  {
    RunTable(c, events, s);
    more, u := events, s;
    if s.tasks[t].WaitIdle? {
      assert s.jobs != map[];
      more, u := AllJobsCanEnd(c, events, s, t);
    }
    more, u := Extend(c, more, u, Clear(t));
  }

  // ------------------------------------------------------------------ main results

  /** Whoever holds the lock can be brought to its end without being cancelled: an unload clears the model
      as soon as the admitted encodes have finished, a load that has not failed serves its task. */
  lemma HolderCanEnd(c: Setting, events: seq<Event>, s: State, t: Task) returns (more: seq<Event>, u: State)
    requires Run(c, events) == Some(s) && s.lock == Some(t)
    ensures t in s.tasks && events <= more && Run(c, more) == Some(u) && t !in u.tasks && u.lock.None?
    ensures Served(s, u, t) || (s.tasks[t].Loading? && s.tasks[t].load in s.threads && s.threads[s.tasks[t].load].Failed?)
  {
    RunTable(c, events, s);
    if s.tasks[t].Loading? {
      more, u := LoaderCanEnd(c, events, s, t);
    } else {
      more, u := UnloaderCanEnd(c, events, s, t);
    }
  }

  /** Taking the lock serves the task at once, or makes it wait for its load or for the gate. */
  lemma Acquired(s: State, t: Task, u: State)
    requires DoAcquire(s, t) == Some(u)
    ensures t in s.tasks
    ensures t !in u.tasks ==> Served(s, u, t)
    ensures t in u.tasks ==>
              && u.tasks.Keys == s.tasks.Keys && SameJobs(s, u) && u.lock == Some(t)
              && OpOf(u.tasks[t]) == OpOf(s.tasks[t])
              && (u.tasks[t].Loading? || u.tasks[t].WaitIdle? || u.tasks[t].Woken?)
              && (u.tasks[t].Loading? ==> && u.tasks[t].op != Unload && u.tasks[t].load in u.threads
                                          && !u.threads[u.tasks[t].load].Failed?)
  {}

  lemma ServedOn(s: State, v: State, u: State, t: Task)
    requires t in s.tasks && t in v.tasks && v.tasks.Keys == s.tasks.Keys && SameJobs(s, v)
    requires OpOf(v.tasks[t]) == OpOf(s.tasks[t]) && Served(v, u, t)
    ensures Served(s, u, t)
  {}

  /** Whoever waits for a free lock can be served: an encode is admitted, with a load of its own when nothing
      is loaded, and an unload ends with nothing loaded. */
  lemma WaiterCanBeServed(c: Setting, events: seq<Event>, s: State, t: Task) returns (more: seq<Event>, u: State)
    requires Run(c, events) == Some(s) && t in s.tasks && s.tasks[t].WantLock? && s.lock.None?
    ensures events <= more && Run(c, more) == Some(u) && Served(s, u, t)
  {
    var first, v := Extend(c, events, s, Acquire(t));
    Acquired(s, t, v);
    if t !in v.tasks {
      more, u := first, v;
    } else {
      if v.tasks[t].Loading? {
        more, u := LoaderCanEnd(c, first, v, t);
      } else {
        more, u := UnloaderCanEnd(c, first, v, t);
      }
      ServedOn(s, v, u, t);
    }
  }

  /** Nothing is ruled out: a task can ask at any time, be cancelled while it waits and, where loads can be
      cancelled, while it loads; a load fails before it has stored the tokenizer, and not later; a queued encode
      is abandoned. */
  lemma AnythingCanHappen(c: Setting, s: State, t: Task, op: Op, l: LoadId, j: JobId)
    ensures t !in s.tasks ==> Step(c, s, Request(t, op)).Some?
    ensures t in s.tasks && (c.cancelLoads || !s.tasks[t].Loading?) ==>
              Step(c, s, CancelLoad(t)) == Some(Leave(s, t)) || Step(c, s, CancelOther(t)) == Some(Leave(s, t))
    ensures Step(c, s, ThreadFail(l)) ==
            if l in s.threads && s.threads[l].Working? && s.threads[l].stored < 2
            then Some(s.(threads := s.threads[l := Failed])) else None
    ensures j in s.jobs && s.jobs[j].phase.Queued? ==> Step(c, s, JobAbandon(j)).Some?
  {}
}
