/**
 * Loading, using and unloading a shared embedding model (kaine/text_embedding_numpy.py,
 * kaine/text_embedding.py, kaine/residency/inflight.py).
 *
 * Tasks of one event loop interleave at their awaits; loads and encodes run in worker
 * threads beside the loop.  An asyncio lock serialises load, admission and unload, and a
 * gate counts the admitted encodes until their threads have finished.
 */
module Residency {
  import opened Wrappers

  type Task = nat
  type LoadId = nat
  type JobId = nat

  /** Who stores a loaded model: the worker thread, field by field (NumpyMiniLMEmbedder), or the
      task that awaited the thread, in one go (SentenceTransformerTextEmbedder). */
  datatype Style = FieldsInThread | FieldsOnLoop

  /** `cancelLoads`: whether a task may be cancelled while it awaits the load thread. */
  datatype Setting = Setting(style: Style, cancelLoads: bool)

  datatype Op = Ensure | Encode | Unload

  datatype Pc =
    | WantLock(op: Op)
    | Loading(op: Op, load: LoadId)
    | WaitIdle
    | Woken
  {
    predicate HoldsLock() { !WantLock? }
  }

  /** How far a load thread is: the number of fields it has stored, then its end. */
  datatype Thread = Working(stored: nat) | Done | Failed

  datatype Phase = Queued | Running | Finished

  /** An admitted encode and the model it was handed. */
  datatype Job = Job(weights: Option<LoadId>, config: Option<LoadId>, tokenizer: Option<LoadId>, phase: Phase)
  {
    predicate Whole() { weights.Some? && weights == config == tokenizer }
  }

  datatype State = State(
    loaded: bool,
    weights: Option<LoadId>, config: Option<LoadId>, tokenizer: Option<LoadId>,
    lock: Option<Task>,
    tasks: map<Task, Pc>,
    threads: map<LoadId, Thread>,
    loads: nat,
    jobs: map<JobId, Job>,
    admitted: nat,
    inflight: int)

  const Initial: State := State(false, None, None, None, None, map[], map[], 0, map[], 0, 0)

  datatype Event =
    | Request(t: Task, op: Op)
    | Acquire(t: Task)
    | ThreadStep(l: LoadId)
    | ThreadFail(l: LoadId)
    | LoadReturn(t: Task)
    | LoadRaise(t: Task)
    | CancelLoad(t: Task)
    | CancelOther(t: Task)
    | JobStart(j: JobId)
    | JobFinish(j: JobId)
    | JobRelease(j: JobId)
    | JobAbandon(j: JobId)
    | Clear(t: Task)

  // ------------------------------------------------------------------ the steps

  /** The task leaves its `async with` block. */
  function Leave(s: State, t: Task): State {
    s.(tasks := s.tasks - {t}, lock := if s.lock == Some(t) then None else s.lock)
  }

  /** Under the lock: take the fields, admit, and leave; no await in between. */
  function Admit(s: State, t: Task): State {
    Leave(s.(jobs := s.jobs[s.admitted := Job(s.weights, s.config, s.tokenizer, Queued)],
             admitted := s.admitted + 1, inflight := s.inflight + 1), t)
  }

  function StartLoad(s: State, t: Task, op: Op): State {
    s.(lock := Some(t), tasks := s.tasks[t := Loading(op, s.loads)],
       threads := s.threads[s.loads := Working(0)], loads := s.loads + 1)
  }

  /** The body of each operation from the acquired lock to its first await. */
  function DoAcquire(s: State, t: Task): Option<State> {
    if t !in s.tasks || !s.tasks[t].WantLock? || s.lock.Some? then None
    else match s.tasks[t].op
      case Ensure => Some(if s.loaded then Leave(s, t) else StartLoad(s, t, Ensure))
      case Encode => Some(if s.loaded then Admit(s, t) else StartLoad(s, t, Encode))
      case Unload =>
        Some(if !s.loaded then Leave(s, t)
             else s.(lock := Some(t), tasks := s.tasks[t := if s.inflight <= 0 then Woken else WaitIdle]))
  }

  /** One assignment of `_load_sync`, in the worker thread: config, tokenizer, weights, the flag. */
  function DoThreadStep(c: Setting, s: State, l: LoadId): Option<State> {
    if l !in s.threads || !s.threads[l].Working? then None
    else if c.style.FieldsOnLoop? then Some(s.(threads := s.threads[l := Done]))
    else match s.threads[l].stored
      case 0 => Some(s.(config := Some(l), threads := s.threads[l := Working(1)]))
      case 1 => Some(s.(tokenizer := Some(l), threads := s.threads[l := Working(2)]))
      case 2 => Some(s.(weights := Some(l), threads := s.threads[l := Working(3)]))
      case _ => Some(s.(loaded := true, threads := s.threads[l := Done]))
  }

  /** The checks, and then the tokenizer's constructor, may raise. */
  function DoThreadFail(s: State, l: LoadId): Option<State> {
    if l !in s.threads || !s.threads[l].Working? || s.threads[l].stored > 1 then None
    else Some(s.(threads := s.threads[l := Failed]))
  }

  function DoLoadReturn(c: Setting, s: State, t: Task): Option<State> {
    if t !in s.tasks || !s.tasks[t].Loading? then None
    else
      var l := s.tasks[t].load;
      if l !in s.threads || !s.threads[l].Done? then None
      else
        var kept := s.(threads := s.threads - {l});
        var u := if c.style.FieldsOnLoop?
                 then kept.(weights := Some(l), config := Some(l), tokenizer := Some(l), loaded := true)
                 else kept;
        Some(if s.tasks[t].op == Encode then Admit(u, t) else Leave(u, t))
  }

  function DoLoadRaise(s: State, t: Task): Option<State> {
    if t !in s.tasks || !s.tasks[t].Loading? then None
    else
      var l := s.tasks[t].load;
      if l !in s.threads || !s.threads[l].Failed? then None
      else Some(Leave(s.(threads := s.threads - {l}), t))
  }

  /** Cancelling `await asyncio.to_thread(...)` frees the lock; the thread runs on. */
  function DoCancelLoad(c: Setting, s: State, t: Task): Option<State> {
    if !c.cancelLoads || t !in s.tasks || !s.tasks[t].Loading? then None
    else Some(Leave(s, t))
  }

  function DoCancelOther(s: State, t: Task): Option<State> {
    if t !in s.tasks || s.tasks[t].Loading? then None else Some(Leave(s, t))
  }

  function DoJobMove(s: State, j: JobId, from: Phase, to: Phase): Option<State> {
    if j !in s.jobs || s.jobs[j].phase != from then None
    else Some(s.(jobs := s.jobs[j := s.jobs[j].(phase := to)]))
  }

  /** The gate counts down; reaching zero wakes every task that waits for it. */
  function DoRelease(s: State, j: JobId, phase: Phase): Option<State> {
    if j !in s.jobs || s.jobs[j].phase != phase then None
    else
      var n := s.inflight - 1;
      Some(s.(jobs := s.jobs - {j}, inflight := n,
              tasks := if n <= 0 then map t | t in s.tasks :: if s.tasks[t].WaitIdle? then Woken else s.tasks[t]
                       else s.tasks))
  }

  function DoClear(s: State, t: Task): Option<State> {
    if t !in s.tasks || !s.tasks[t].Woken? then None
    else Some(Leave(s.(loaded := false, weights := None, config := None, tokenizer := None), t))
  }

  function Step(c: Setting, s: State, e: Event): Option<State> {
    match e
    case Request(t, op) =>
      if t in s.tasks then None else Some(s.(tasks := s.tasks[t := WantLock(op)]))
    case Acquire(t) => DoAcquire(s, t)
    case ThreadStep(l) => DoThreadStep(c, s, l)
    case ThreadFail(l) => DoThreadFail(s, l)
    case LoadReturn(t) => DoLoadReturn(c, s, t)
    case LoadRaise(t) => DoLoadRaise(s, t)
    case CancelLoad(t) => DoCancelLoad(c, s, t)
    case CancelOther(t) => DoCancelOther(s, t)
    case JobStart(j) => DoJobMove(s, j, Queued, Running)
    case JobFinish(j) => DoJobMove(s, j, Running, Finished)
    case JobRelease(j) => DoRelease(s, j, Finished)
    case JobAbandon(j) => DoRelease(s, j, Queued)
    case Clear(t) => DoClear(s, t)
  }

  function Run(c: Setting, events: seq<Event>): Option<State> {
    if events == [] then Some(Initial)
    else match Run(c, events[..|events| - 1])
      case None => None
      case Some(s) => Step(c, s, events[|events| - 1])
  }

  // ------------------------------------------------------------------ what is promised

  /** Every admitted encode holds a whole model from one load, and a task about to clear the
      fields faces no admitted encode. */
  ghost predicate Safe(s: State) {
    && (forall j | j in s.jobs :: s.jobs[j].Whole())
    && (forall t | t in s.tasks && s.tasks[t].Woken? :: s.jobs == map[])
  }

  ghost predicate OneLoad(s: State) {
    forall l, m | l in s.threads && m in s.threads && s.threads[l].Working? && s.threads[m].Working? :: l == m
  }
}
