/**
 * The locked read-modify-write of a JSON file shared by several processes
 * (kaine/state_io.py): an exclusive flock, a read of the current bytes, a unique
 * temporary file filled by short writes, fsync, rename.
 *
 * Any number of processes run interleaved.  A process may fail or die at every
 * step, and the whole machine may lose power.  Files are inodes reached through
 * directory entries, so a reader that opened the file before a rename goes on
 * reading the old inode.
 */
module StateIo {
  import opened Wrappers

  newtype byte = x: int | 0 <= x < 256
  type Bytes = seq<byte>
  type Pid = nat
  type CallId = nat
  type Inode = nat

  /** What the calls compute: the codec, and the `fn` and `default` of each call.
      `fn` and `encode` return None where the Python raises.  On a host without `fcntl`
      (`flock` false) the lock is a no-op. */
  datatype Host<!J> = Host(
    flock: bool,
    encode: J -> Option<Bytes>,
    decode: Bytes -> Option<J>,
    fn: (CallId, J) -> Option<J>,
    default: CallId -> J)

  /** Where a process is inside `update_json_locked`; Peeking is a reader that takes no lock. */
  datatype Pc<J> =
    | Waiting(call: CallId)
    | Locked(call: CallId)
    | Reading(call: CallId, file: Inode, buf: Bytes)
    | Loaded(call: CallId, current: J, readFailed: bool)
    | Encoded(call: CallId, data: Bytes, readFailed: bool)
    | Writing(call: CallId, data: Bytes, readFailed: bool, tmp: Inode, view: Bytes)
    | Synced(call: CallId, data: Bytes, readFailed: bool, tmp: Inode)
    | Replaced(call: CallId)
    | Failing(call: CallId, tmp: Inode)
    | Raising(call: CallId)
    | Peeking(version: nat, file: Inode, buf: Bytes)
  {
    predicate HoldsLock() { !Waiting? && !Peeking? }
    predicate OwnsTemp() { Writing? || Synced? || Failing? }
  }

  /** A committed update: its call, its place in the order of lock acquisitions,
      and whether reading the old file failed with an I/O error. */
  datatype Entry = Entry(call: CallId, ticket: nat, readFailed: bool)

  /** What a lock-free reader got: the number of commits when it opened the file, and the bytes. */
  datatype Sight = Sight(version: nat, bytes: Bytes)

  datatype State<J> = State(
    inodes: map<Inode, Bytes>,
    synced: set<Inode>,
    origin: Option<Inode>,
    main: Option<Inode>,
    temps: set<Inode>,
    lock: Option<Pid>,
    procs: map<Pid, Pc<J>>,
    started: set<CallId>,
    acquired: seq<CallId>,
    published: seq<Inode>,
    committed: seq<Entry>,
    values: map<CallId, J>,
    returned: map<CallId, J>,
    raised: set<CallId>,
    dropped: set<CallId>,
    leaked: set<Inode>,
    seen: seq<Sight>)

  datatype Event =
    | Start(p: Pid, call: CallId)
    | Acquire(p: Pid)
    | Open(p: Pid)
    | ReadChunk(p: Pid, n: nat)
    | ReadEnd(p: Pid)
    | ReadError(p: Pid)
    | Compute(p: Pid)
    | CreateTemp(p: Pid, tmp: Inode)
    | WriteChunk(p: Pid, n: nat)
    | Fsync(p: Pid)
    | Replace(p: Pid)
    | Return(p: Pid)
    | Fail(p: Pid)
    | Unlink(p: Pid, removed: bool)
    | Raise(p: Pid)
    | Crash(p: Pid)
    | Peek(p: Pid)
    | PeekChunk(p: Pid, n: nat)
    | PeekEnd(p: Pid)
    | PowerLoss(kept: nat, cut: map<Inode, nat>)

  // ------------------------------------------------------------------ specification

  /** The value `fn` is given: the decoded file, or `default` when missing or unreadable. */
  function ReadValue<J>(h: Host<J>, call: CallId, file: Option<Bytes>, readFailed: bool): J {
    if readFailed || file.None? then h.default(call)
    else match h.decode(file.value)
      case Some(v) => v
      case None => h.default(call)
  }

  /** The bytes one update leaves, or None when `fn` or the serialisation raises. */
  function Update<J>(h: Host<J>, e: Entry, file: Option<Bytes>): Option<Bytes> {
    match h.fn(e.call, ReadValue(h, e.call, file, e.readFailed))
    case None => None
    case Some(u) => h.encode(u)
  }

  /** The file after the updates of `log`, applied one after another to `file`. */
  function Fold<J>(h: Host<J>, file: Option<Bytes>, log: seq<Entry>): Option<Bytes> {
    if log == [] then file
    else
      var before := Fold(h, file, log[..|log| - 1]);
      match Update(h, log[|log| - 1], before)
      case None => before
      case Some(b) => Some(b)
  }

  function Contents<J>(s: State<J>, i: Option<Inode>): Option<Bytes> {
    if i.Some? && i.value in s.inodes then Some(s.inodes[i.value]) else None
  }

  /** What a process opening the file now would read. */
  function MainFile<J>(s: State<J>): Option<Bytes> { Contents(s, s.main) }

  function Calls(log: seq<Entry>): set<CallId> { set e | e in log :: e.call }

  /** The calls some process is still running. */
  function Pending<J>(s: State<J>): set<CallId> {
    set p | p in s.procs && !s.procs[p].Peeking? :: s.procs[p].call
  }

  /** The temporary files some process still owns. */
  function Owned<J>(s: State<J>): set<Inode> {
    set p | p in s.procs && s.procs[p].OwnsTemp() :: s.procs[p].tmp
  }

  // ------------------------------------------------------------------ the steps

  function Put<J>(s: State<J>, p: Pid, pc: Pc<J>): State<J> { s.(procs := s.procs[p := pc]) }

  function Take(b: Bytes, from: nat, n: nat): Bytes
    requires from <= |b|
  { if from + n <= |b| then b[from..from + n] else b[from..] }

  function Cut(b: Bytes, n: nat): Bytes { if n <= |b| then b[..n] else b }

  function DoAcquire<J>(h: Host<J>, s: State<J>, p: Pid, pc: Pc<J>): Option<State<J>> {
    if !pc.Waiting? || (h.flock && s.lock.Some?) then None
    else Some(Put(s, p, Locked(pc.call)).(lock := Some(p), acquired := s.acquired + [pc.call]))
  }

  function DoOpen<J>(h: Host<J>, s: State<J>, p: Pid, pc: Pc<J>): Option<State<J>> {
    if !pc.Locked? then None
    else if s.main.None? then Some(Put(s, p, Loaded(pc.call, h.default(pc.call), false)))
    else Some(Put(s, p, Reading(pc.call, s.main.value, [])))
  }

  function DoReadChunk<J>(s: State<J>, p: Pid, pc: Pc<J>, n: nat): Option<State<J>> {
    if !pc.Reading? || pc.file !in s.inodes || |pc.buf| > |s.inodes[pc.file]| then None
    else Some(Put(s, p, Reading(pc.call, pc.file, pc.buf + Take(s.inodes[pc.file], |pc.buf|, n))))
  }

  function DoReadEnd<J>(h: Host<J>, s: State<J>, p: Pid, pc: Pc<J>): Option<State<J>> {
    if !pc.Reading? || pc.file !in s.inodes || |pc.buf| != |s.inodes[pc.file]| then None
    else Some(Put(s, p, Loaded(pc.call, ReadValue(h, pc.call, Some(pc.buf), false), false)))
  }

  function DoReadError<J>(h: Host<J>, s: State<J>, p: Pid, pc: Pc<J>): Option<State<J>> {
    if !pc.Reading? then None else Some(Put(s, p, Loaded(pc.call, h.default(pc.call), true)))
  }

  function DoCompute<J>(h: Host<J>, s: State<J>, p: Pid, pc: Pc<J>): Option<State<J>> {
    if !pc.Loaded? then None
    else match h.fn(pc.call, pc.current)
      case None => Some(Put(s, p, Raising(pc.call)))
      case Some(u) =>
        match h.encode(u)
        case None => Some(Put(s, p, Raising(pc.call)))
        case Some(data) => Some(Put(s, p, Encoded(pc.call, data, pc.readFailed)).(values := s.values[pc.call := u]))
  }

  /** `os.open` with O_EXCL: the inode is new. */
  function DoCreateTemp<J>(s: State<J>, p: Pid, pc: Pc<J>, tmp: Inode): Option<State<J>> {
    if !pc.Encoded? || tmp in s.inodes then None
    else Some(Put(s, p, Writing(pc.call, pc.data, pc.readFailed, tmp, pc.data))
              .(inodes := s.inodes[tmp := []], temps := s.temps + {tmp}))
  }

  /** `os.write` takes any prefix of the view. */
  function DoWriteChunk<J>(s: State<J>, p: Pid, pc: Pc<J>, n: nat): Option<State<J>> {
    if !pc.Writing? || n > |pc.view| || pc.tmp !in s.inodes then None
    else Some(Put(s, p, Writing(pc.call, pc.data, pc.readFailed, pc.tmp, pc.view[n..]))
              .(inodes := s.inodes[pc.tmp := s.inodes[pc.tmp] + pc.view[..n]]))
  }

  function DoFsync<J>(s: State<J>, p: Pid, pc: Pc<J>): Option<State<J>> {
    if !pc.Writing? || pc.view != [] then None
    else Some(Put(s, p, Synced(pc.call, pc.data, pc.readFailed, pc.tmp)).(synced := s.synced + {pc.tmp}))
  }

  function DoReplace<J>(s: State<J>, p: Pid, pc: Pc<J>): Option<State<J>> {
    if !pc.Synced? || s.acquired == [] then None
    else Some(Put(s, p, Replaced(pc.call))
              .(main := Some(pc.tmp), temps := s.temps - {pc.tmp}, published := s.published + [pc.tmp],
                committed := s.committed + [Entry(pc.call, |s.acquired| - 1, pc.readFailed)]))
  }

  function DoReturn<J>(s: State<J>, p: Pid, pc: Pc<J>): Option<State<J>> {
    if !pc.Replaced? || pc.call !in s.values then None
    else Some(s.(procs := s.procs - {p}, lock := None, returned := s.returned[pc.call := s.values[pc.call]]))
  }

  /** An exception: before the temporary file exists it only has to release the lock. */
  function DoFail<J>(s: State<J>, p: Pid, pc: Pc<J>): Option<State<J>> {
    if pc.Writing? || pc.Synced? then Some(Put(s, p, Failing(pc.call, pc.tmp)))
    else if pc.Locked? || pc.Reading? || pc.Loaded? || pc.Encoded? then Some(Put(s, p, Raising(pc.call)))
    else None
  }

  function DoUnlink<J>(s: State<J>, p: Pid, pc: Pc<J>, removed: bool): Option<State<J>> {
    if !pc.Failing? then None
    else if removed then Some(Put(s, p, Raising(pc.call)).(temps := s.temps - {pc.tmp}))
    else Some(Put(s, p, Raising(pc.call)).(leaked := s.leaked + {pc.tmp}))
  }

  /** The exception leaves the call.  Before the lock is taken making the directory or opening the lock
      file may raise. */
  function DoRaise<J>(s: State<J>, p: Pid, pc: Pc<J>): Option<State<J>> {
    if pc.Waiting? then Some(s.(procs := s.procs - {p}, raised := s.raised + {pc.call}))
    else if pc.Raising? then Some(s.(procs := s.procs - {p}, lock := None, raised := s.raised + {pc.call}))
    else None
  }

  /** The process dies; closing its descriptors releases the flock, its temporary file stays. */
  function DoCrash<J>(s: State<J>, p: Pid, pc: Pc<J>): Option<State<J>> {
    Some(s.(procs := s.procs - {p}, lock := if s.lock == Some(p) then None else s.lock,
            dropped := if pc.Peeking? then s.dropped else s.dropped + {pc.call},
            leaked := if pc.OwnsTemp() then s.leaked + {pc.tmp} else s.leaked))
  }

  function DoPeekChunk<J>(s: State<J>, p: Pid, pc: Pc<J>, n: nat): Option<State<J>> {
    if !pc.Peeking? || pc.file !in s.inodes || |pc.buf| > |s.inodes[pc.file]| then None
    else Some(Put(s, p, Peeking(pc.version, pc.file, pc.buf + Take(s.inodes[pc.file], |pc.buf|, n))))
  }

  function DoPeekEnd<J>(s: State<J>, p: Pid, pc: Pc<J>): Option<State<J>> {
    if !pc.Peeking? || pc.file !in s.inodes || |pc.buf| != |s.inodes[pc.file]| then None
    else Some(s.(procs := s.procs - {p}, seen := s.seen + [Sight(pc.version, pc.buf)]))
  }

  /** Power fails: what was not fsynced may be truncated, and since the directory is never
      fsynced, the file may be back at any earlier published version. */
  function DoPowerLoss<J>(s: State<J>, kept: nat, cut: map<Inode, nat>): Option<State<J>> {
    if kept > |s.published| || kept > |s.committed| then None
    else Some(s.(inodes := map i | i in s.inodes ::
                   if i in s.synced || i !in cut then s.inodes[i] else Cut(s.inodes[i], cut[i]),
                 main := if kept == 0 then s.origin else Some(s.published[kept - 1]),
                 lock := None, procs := map[],
                 published := s.published[..kept], committed := s.committed[..kept],
                 returned := map[], seen := [],
                 dropped := s.dropped + Calls(s.committed[kept..]) + Pending(s),
                 leaked := s.leaked + s.temps))
  }

  /** One step of the system; None when the event cannot happen in `s`. */
  function Step<J>(h: Host<J>, s: State<J>, e: Event): Option<State<J>> {
    match e
    case PowerLoss(kept, cut) => DoPowerLoss(s, kept, cut)
    case Start(p, call) =>
      if p in s.procs || call in s.started then None
      else Some(Put(s, p, Waiting(call)).(started := s.started + {call}))
    case Peek(p) =>
      if p in s.procs || s.main.None? then None
      else Some(Put(s, p, Peeking(|s.committed|, s.main.value, [])))
    case _ => if e.p in s.procs then ProcStep(h, s, e, s.procs[e.p]) else None
  }

  function ProcStep<J>(h: Host<J>, s: State<J>, e: Event, pc: Pc<J>): Option<State<J>>
    requires !e.PowerLoss? && !e.Start? && !e.Peek?
  {
    match e
    case Acquire(p) => DoAcquire(h, s, p, pc)
    case Open(p) => DoOpen(h, s, p, pc)
    case ReadChunk(p, n) => DoReadChunk(s, p, pc, n)
    case ReadEnd(p) => DoReadEnd(h, s, p, pc)
    case ReadError(p) => DoReadError(h, s, p, pc)
    case Compute(p) => DoCompute(h, s, p, pc)
    case CreateTemp(p, tmp) => DoCreateTemp(s, p, pc, tmp)
    case WriteChunk(p, n) => DoWriteChunk(s, p, pc, n)
    case Fsync(p) => DoFsync(s, p, pc)
    case Replace(p) => DoReplace(s, p, pc)
    case Return(p) => DoReturn(s, p, pc)
    case Fail(p) => DoFail(s, p, pc)
    case Unlink(p, removed) => DoUnlink(s, p, pc, removed)
    case Raise(p) => DoRaise(s, p, pc)
    case Crash(p) => DoCrash(s, p, pc)
    case PeekChunk(p, n) => DoPeekChunk(s, p, pc, n)
    case PeekEnd(p) => DoPeekEnd(s, p, pc)
  }

  /** The state after a whole run, or None when some event of it cannot happen. */
  function Run<J>(h: Host<J>, s: State<J>, events: seq<Event>): Option<State<J>> {
    if events == [] then Some(s)
    else match Run(h, s, events[..|events| - 1])
      case None => None
      case Some(t) => Step(h, t, events[|events| - 1])
  }

  /** A quiet system over an existing file, or over no file at all. */
  predicate Init<J>(s: State<J>) {
    && s.main == s.origin && s.lock.None? && s.procs == map[] && s.temps == {}
    && (s.origin.Some? ==> s.origin.value in s.inodes && s.origin.value in s.synced)
    && s.synced <= s.inodes.Keys
    && s.started == {} && s.acquired == [] && s.published == [] && s.committed == []
    && s.values == map[] && s.returned == map[] && s.raised == {} && s.dropped == {} && s.leaked == {} && s.seen == []
  }
}
