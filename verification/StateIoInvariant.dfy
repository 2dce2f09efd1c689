/** What every step of the locked read-modify-write keeps (kaine/state_io.py). */
module StateIoInvariant {
  import opened Wrappers
  import opened StateIo

  function InodeAfter<J>(s: State<J>, k: nat): Option<Inode>
    requires k <= |s.published|
  { if k == 0 then s.origin else Some(s.published[k - 1]) }

  function FileAfter<J>(h: Host<J>, s: State<J>, k: nat): Option<Bytes>
    requires k <= |s.committed|
  { Fold(h, Contents(s, s.origin), s.committed[..k]) }

  ghost predicate FilesInv<J>(h: Host<J>, s: State<J>) {
    && |s.published| == |s.committed|
    && s.main == InodeAfter(s, |s.published|)
    && s.synced <= s.inodes.Keys && s.temps <= s.inodes.Keys
    && (s.origin.Some? ==> s.origin.value in s.synced && s.origin.value !in s.temps)
    && (forall i | i in s.published :: i in s.synced && i !in s.temps)
    && (forall k | 0 < k <= |s.published| :: FileAfter(h, s, k) == Some(s.inodes[s.published[k - 1]]))
    && (forall k | 0 <= k < |s.committed| :: Update(h, s.committed[k], FileAfter(h, s, k)).Some?)
  }

  ghost predicate OrderInv<J>(s: State<J>) {
    && (forall e | e in s.committed :: e.ticket < |s.acquired| && s.acquired[e.ticket] == e.call)
    && (forall i, j | 0 <= i < j < |s.committed| :: s.committed[i].ticket < s.committed[j].ticket)
    && (forall i, j | 0 <= i < j < |s.acquired| :: s.acquired[i] != s.acquired[j])
    && (forall c | c in s.acquired :: c in s.started)
    && s.returned.Keys <= Calls(s.committed)
    && s.raised !! Calls(s.committed)
    && s.raised <= s.started
  }

  /** What holds of one process wherever it stands. */
  ghost predicate PcInv<J>(h: Host<J>, s: State<J>, p: Pid, pc: Pc<J>)
    requires |s.published| == |s.committed|
  {
    && (pc.HoldsLock() <==> s.lock == Some(p))
    && (pc.Waiting? ==> pc.call in s.started && pc.call !in s.acquired && pc.call !in s.raised)
    && (pc.HoldsLock() ==> && s.acquired != [] && s.acquired[|s.acquired| - 1] == pc.call
                           && pc.call !in s.raised
                           && (pc.call in Calls(s.committed) <==> pc.Replaced?)
                           && (pc.Replaced? || forall e | e in s.committed :: e.ticket < |s.acquired| - 1))
    && (pc.Reading? ==> s.main == Some(pc.file) && pc.file in s.inodes && pc.buf <= s.inodes[pc.file])
    && (pc.Loaded? ==> pc.current == ReadValue(h, pc.call, MainFile(s), pc.readFailed))
    && (pc.Encoded? || pc.Writing? || pc.Synced? ==>
          Update(h, Entry(pc.call, 0, pc.readFailed), MainFile(s)) == Some(pc.data))
    && (pc.OwnsTemp() ==> pc.tmp in s.temps)
    && (pc.Writing? ==> pc.tmp in s.inodes && s.inodes[pc.tmp] + pc.view == pc.data)
    && (pc.Synced? ==> pc.tmp in s.inodes && s.inodes[pc.tmp] == pc.data && pc.tmp in s.synced)
    && (pc.Peeking? ==> && pc.version <= |s.committed| && InodeAfter(s, pc.version) == Some(pc.file)
                        && pc.file in s.inodes && pc.buf <= s.inodes[pc.file])
  }

  ghost predicate SeenInv<J>(h: Host<J>, s: State<J>) {
    forall x | x in s.seen :: x.version <= |s.committed| && FileAfter(h, s, x.version) == Some(x.bytes)
  }

  ghost predicate ProcsInv<J>(h: Host<J>, s: State<J>)
    requires |s.published| == |s.committed|
  {
    && (forall p | p in s.procs :: PcInv(h, s, p, s.procs[p]))
    && (forall p, q | p in s.procs && q in s.procs && p != q && s.procs[p].Waiting? && s.procs[q].Waiting? ::
          s.procs[p].call != s.procs[q].call)
    && (s.lock.Some? ==> s.lock.value in s.procs)
  }

  ghost predicate Inv<J>(h: Host<J>, s: State<J>) {
    FilesInv(h, s) && OrderInv(s) && ProcsInv(h, s) && SeenInv(h, s)
  }

  lemma InitInv<J>(h: Host<J>, s: State<J>)
    requires Init(s)
    ensures Inv(h, s)
  {}

  /** The history of files does not move while the origin's bytes and the log stay. */
  lemma FileAfterFrame<J>(h: Host<J>, s: State<J>, t: State<J>, k: nat)
    requires k <= |s.committed| && k <= |t.committed|
    requires s.committed[..k] == t.committed[..k]
    requires Contents(s, s.origin) == Contents(t, t.origin)
    ensures FileAfter(h, s, k) == FileAfter(h, t, k)
  {}

  /** In a good state, the file is the fold of all the committed updates. */
  lemma MainIsFold<J>(h: Host<J>, s: State<J>)
    requires FilesInv(h, s)
    ensures MainFile(s) == Fold(h, Contents(s, s.origin), s.committed)
  {
    assert s.committed[..|s.committed|] == s.committed;
    if |s.committed| == 0 {
      assert s.main == s.origin;
    } else {
      assert FileAfter(h, s, |s.committed|) == Some(s.inodes[s.published[|s.committed| - 1]]);
    }
  }

  /** Nothing about the shared file or the log of updates changed. */
  ghost predicate SameFile<J>(s: State<J>, t: State<J>) {
    && t.inodes == s.inodes && t.synced == s.synced && t.origin == s.origin && t.main == s.main
    && t.published == s.published && t.committed == s.committed
  }

  lemma SameFileInv<J>(h: Host<J>, s: State<J>, t: State<J>)
    requires FilesInv(h, s) && SameFile(s, t) && t.temps <= s.temps
    ensures FilesInv(h, t)
    ensures SeenInv(h, s) && t.seen == s.seen ==> SeenInv(h, t)
  {
    assert forall k | 0 <= k <= |s.committed| :: FileAfter(h, s, k) == FileAfter(h, t, k);
  }

  /** A process keeps its own invariant when another one moves and leaves the file alone. */
  lemma OtherPcInv<J>(h: Host<J>, s: State<J>, t: State<J>, q: Pid, pc: Pc<J>)
    requires FilesInv(h, s) && PcInv(h, s, q, pc) && SameFile(s, t)
    requires s.lock == Some(q) <==> t.lock == Some(q)
    requires t.acquired == s.acquired && s.started <= t.started
    requires (pc.Waiting? || pc.HoldsLock()) && pc.call in t.raised ==> pc.call in s.raised
    requires pc.OwnsTemp() ==> pc.tmp in t.temps
    ensures PcInv(h, t, q, pc)
  {}

  lemma StartInv<J>(h: Host<J>, s: State<J>, p: Pid, call: CallId, t: State<J>)
    requires Inv(h, s) && p !in s.procs && call !in s.started
    requires t == Put(s, p, Waiting(call)).(started := s.started + {call})
    ensures Inv(h, t)
  {
    SameFileInv(h, s, t);
    forall q | q in t.procs ensures PcInv(h, t, q, t.procs[q]) {
      if q != p { OtherPcInv(h, s, t, q, s.procs[q]); }
    }
  }

  lemma PeekInv<J>(h: Host<J>, s: State<J>, p: Pid, t: State<J>)
    requires Inv(h, s) && p !in s.procs && s.main.Some?
    requires t == Put(s, p, Peeking(|s.committed|, s.main.value, []))
    ensures Inv(h, t)
  {
    SameFileInv(h, s, t);
    forall q | q in t.procs ensures PcInv(h, t, q, t.procs[q]) {
      if q != p { OtherPcInv(h, s, t, q, s.procs[q]); }
    }
  }

  /** One process moves; the lock, the file and everyone else stay. */
  lemma MoveInv<J>(h: Host<J>, s: State<J>, p: Pid, pc: Pc<J>, t: State<J>)
    requires Inv(h, s) && p in s.procs && t == Put(s, p, pc).(values := t.values)
    requires !pc.Waiting? && PcInv(h, t, p, pc)
    ensures Inv(h, t)
  {
    SameFileInv(h, s, t);
    forall q | q in t.procs ensures PcInv(h, t, q, t.procs[q]) {
      if q != p { OtherPcInv(h, s, t, q, s.procs[q]); }
    }
  }

  /** One process leaves; the file stays. */
  lemma LeaveInv<J>(h: Host<J>, s: State<J>, p: Pid, t: State<J>)
    requires Inv(h, s) && p in s.procs && t.procs == s.procs - {p}
    requires SameFile(s, t) && t.temps == s.temps && t.seen == s.seen
    requires t.started == s.started && t.acquired == s.acquired
    requires t.lock == if s.lock == Some(p) then None else s.lock
    requires || t.returned.Keys == s.returned.Keys
             || (s.procs[p].Replaced? && t.returned.Keys == s.returned.Keys + {s.procs[p].call})
    requires || t.raised == s.raised
             || ((s.procs[p].Raising? || s.procs[p].Waiting?) && t.raised == s.raised + {s.procs[p].call})
    ensures Inv(h, t)
  {
    SameFileInv(h, s, t);
    assert PcInv(h, s, p, s.procs[p]);
    forall q | q in t.procs ensures PcInv(h, t, q, t.procs[q]) {
      assert PcInv(h, s, q, s.procs[q]);
      OtherPcInv(h, s, t, q, s.procs[q]);
    }
  }

  lemma OpenPc<J>(h: Host<J>, s: State<J>, p: Pid, t: State<J>)
    requires Inv(h, s) && p in s.procs && DoOpen(h, s, p, s.procs[p]) == Some(t)
    ensures p in t.procs && t == Put(s, p, t.procs[p]) && !t.procs[p].Waiting? && PcInv(h, t, p, t.procs[p])
  {
    assert PcInv(h, s, p, s.procs[p]);
  }

  lemma OpenInv<J>(h: Host<J>, s: State<J>, p: Pid, t: State<J>)
    requires Inv(h, s) && p in s.procs && DoOpen(h, s, p, s.procs[p]) == Some(t)
    ensures Inv(h, t)
  {
    OpenPc(h, s, p, t);
    MoveInv(h, s, p, t.procs[p], t);
  }

  lemma ChunkInv<J>(h: Host<J>, s: State<J>, p: Pid, n: nat, t: State<J>)
    requires Inv(h, s) && p in s.procs
    requires DoReadChunk(s, p, s.procs[p], n) == Some(t) || DoPeekChunk(s, p, s.procs[p], n) == Some(t)
    ensures Inv(h, t)
  {
    assert PcInv(h, s, p, s.procs[p]);
    MoveInv(h, s, p, t.procs[p], t);
  }

  lemma ReadEndInv<J>(h: Host<J>, s: State<J>, p: Pid, t: State<J>)
    requires Inv(h, s) && p in s.procs
    requires DoReadEnd(h, s, p, s.procs[p]) == Some(t) || DoReadError(h, s, p, s.procs[p]) == Some(t)
    ensures Inv(h, t)
  {
    var pc := s.procs[p];
    assert PcInv(h, s, p, pc);
    if DoReadEnd(h, s, p, pc) == Some(t) { assert pc.buf == s.inodes[pc.file]; }
    MoveInv(h, s, p, t.procs[p], t);
  }

  /** `fn` or the serialisation raised. */
  lemma RaisingPc<J>(h: Host<J>, s: State<J>, p: Pid, t: State<J>)
    requires Inv(h, s) && p in s.procs && s.procs[p].Loaded? && t == Put(s, p, Raising(s.procs[p].call))
    ensures |t.published| == |t.committed| && PcInv(h, t, p, t.procs[p])
  {
    assert PcInv(h, s, p, s.procs[p]);
  }

  lemma EncodedPc<J>(h: Host<J>, s: State<J>, p: Pid, u: J, data: Bytes, t: State<J>)
    requires Inv(h, s) && p in s.procs && s.procs[p].Loaded?
    requires h.fn(s.procs[p].call, s.procs[p].current) == Some(u) && h.encode(u) == Some(data)
    requires t == Put(s, p, Encoded(s.procs[p].call, data, s.procs[p].readFailed)).(values := t.values)
    ensures |t.published| == |t.committed| && PcInv(h, t, p, t.procs[p])
  {
    assert PcInv(h, s, p, s.procs[p]);
    assert MainFile(t) == MainFile(s);
  }

  lemma ComputeInv<J>(h: Host<J>, s: State<J>, p: Pid, t: State<J>)
    requires Inv(h, s) && p in s.procs && DoCompute(h, s, p, s.procs[p]) == Some(t)
    ensures Inv(h, t)
  {
    var pc := s.procs[p];
    if t.procs[p].Encoded? {
      var u := h.fn(pc.call, pc.current).value;
      EncodedPc(h, s, p, u, h.encode(u).value, t);
    } else {
      RaisingPc(h, s, p, t);
    }
    MoveInv(h, s, p, t.procs[p], t);
  }

  lemma FailPc<J>(h: Host<J>, s: State<J>, p: Pid, t: State<J>)
    requires Inv(h, s) && p in s.procs && DoFail(s, p, s.procs[p]) == Some(t)
    ensures p in t.procs && t == Put(s, p, t.procs[p]) && !t.procs[p].Waiting? && PcInv(h, t, p, t.procs[p])
  {
    assert PcInv(h, s, p, s.procs[p]);
  }

  lemma FailInv<J>(h: Host<J>, s: State<J>, p: Pid, t: State<J>)
    requires Inv(h, s) && p in s.procs && DoFail(s, p, s.procs[p]) == Some(t)
    ensures Inv(h, t)
  {
    FailPc(h, s, p, t);
    MoveInv(h, s, p, t.procs[p], t);
  }

  lemma ReturnInv<J>(h: Host<J>, s: State<J>, p: Pid, t: State<J>)
    requires Inv(h, s) && p in s.procs && DoReturn(s, p, s.procs[p]) == Some(t)
    ensures Inv(h, t)
  {
    assert PcInv(h, s, p, s.procs[p]);
    LeaveInv(h, s, p, t);
  }

  lemma RaiseInv<J>(h: Host<J>, s: State<J>, p: Pid, t: State<J>)
    requires Inv(h, s) && p in s.procs && DoRaise(s, p, s.procs[p]) == Some(t)
    ensures Inv(h, t)
  {
    assert PcInv(h, s, p, s.procs[p]);
    LeaveInv(h, s, p, t);
  }

  lemma CrashInv<J>(h: Host<J>, s: State<J>, p: Pid, t: State<J>)
    requires Inv(h, s) && p in s.procs && DoCrash(s, p, s.procs[p]) == Some(t)
    ensures Inv(h, t)
  {
    assert PcInv(h, s, p, s.procs[p]);
    LeaveInv(h, s, p, t);
  }

  lemma PeekEndInv<J>(h: Host<J>, s: State<J>, p: Pid, t: State<J>)
    requires Inv(h, s) && p in s.procs && DoPeekEnd(s, p, s.procs[p]) == Some(t)
    ensures Inv(h, t)
  {
    var pc := s.procs[p];
    assert PcInv(h, s, p, pc);
    assert pc.buf == s.inodes[pc.file];
    assert pc.version == 0 ==> Contents(s, s.origin) == Some(pc.buf);
    assert FileAfter(h, s, pc.version) == Some(pc.buf);
    var u := t.(seen := s.seen);
    LeaveInv(h, s, p, u);
    SameFileInv(h, u, t);
    assert forall x | x in t.seen :: FileAfter(h, u, x.version) == FileAfter(h, t, x.version);
    forall q | q in t.procs ensures PcInv(h, t, q, t.procs[q]) {
      assert PcInv(h, u, q, u.procs[q]);
      OtherPcInv(h, u, t, q, u.procs[q]);
    }
  }

  lemma UnlinkInv<J>(h: Host<J>, s: State<J>, p: Pid, removed: bool, t: State<J>)
    requires Inv(h, s) && p in s.procs && DoUnlink(s, p, s.procs[p], removed) == Some(t)
    ensures Inv(h, t)
  {
    SameFileInv(h, s, t);
    assert PcInv(h, s, p, s.procs[p]);
    forall q | q in t.procs ensures PcInv(h, t, q, t.procs[q]) {
      if q != p {
        assert PcInv(h, s, q, s.procs[q]);
        OtherPcInv(h, s, t, q, s.procs[q]);
      }
    }
  }

  /** A call that joins the lock order joins it last, and has committed nothing yet. */
  lemma AcquireOrderInv<J>(h: Host<J>, s: State<J>, p: Pid, t: State<J>)
    requires Inv(h, s) && p in s.procs && s.lock.None? && s.procs[p].Waiting?
    requires DoAcquire(h, s, p, s.procs[p]) == Some(t)
    ensures OrderInv(t) && |t.published| == |t.committed| && PcInv(h, t, p, t.procs[p])
  {
    assert PcInv(h, s, p, s.procs[p]);
    assert forall e | e in s.committed :: s.acquired[e.ticket] in s.acquired;
  }

  /** Nobody else stood in front of the lock with the same call. */
  lemma AcquireOtherPcInv<J>(h: Host<J>, s: State<J>, p: Pid, t: State<J>, q: Pid)
    requires Inv(h, s) && p in s.procs && s.lock.None? && s.procs[p].Waiting?
    requires DoAcquire(h, s, p, s.procs[p]) == Some(t) && q in s.procs && q != p
    ensures |t.published| == |t.committed| && PcInv(h, t, q, s.procs[q])
  {
    assert PcInv(h, s, q, s.procs[q]);
    SameFileInv(h, s, t);
  }

  lemma AcquireInv<J>(h: Host<J>, s: State<J>, p: Pid, t: State<J>)
    requires h.flock && Inv(h, s) && p in s.procs && DoAcquire(h, s, p, s.procs[p]) == Some(t)
    ensures Inv(h, t)
  {
    SameFileInv(h, s, t);
    AcquireOrderInv(h, s, p, t);
    forall q | q in t.procs ensures PcInv(h, t, q, t.procs[q]) {
      if q != p { AcquireOtherPcInv(h, s, p, t, q); }
    }
  }

  /** The bytes of every file that anyone can open stay as they were. */
  ghost predicate OpenFilesKept<J>(s: State<J>, t: State<J>) {
    && s.inodes.Keys <= t.inodes.Keys
    && (forall i | i in s.published || s.origin == Some(i) :: i in s.inodes ==> t.inodes[i] == s.inodes[i])
  }

  /** Writing a temporary file touches no file anyone else can open. */
  lemma TempFilesInv<J>(h: Host<J>, s: State<J>, t: State<J>, tmp: Inode)
    requires FilesInv(h, s) && SeenInv(h, s)
    requires tmp in s.temps || tmp !in s.inodes
    requires t.origin == s.origin && t.main == s.main && t.seen == s.seen
    requires t.published == s.published && t.committed == s.committed
    requires t.inodes.Keys == s.inodes.Keys + {tmp}
    requires forall i | i in s.inodes && i != tmp :: t.inodes[i] == s.inodes[i]
    requires s.synced <= t.synced <= s.synced + {tmp} && t.temps == s.temps + {tmp}
    ensures FilesInv(h, t) && SeenInv(h, t) && OpenFilesKept(s, t) && MainFile(t) == MainFile(s)
  {
    assert tmp !in s.published && s.origin != Some(tmp);
    assert forall k | 0 <= k <= |s.committed| :: FileAfter(h, s, k) == FileAfter(h, t, k);
    assert s.main.Some? ==> s.main.value in s.published || s.main == s.origin;
  }

  /** A process without the lock keeps its invariant while a lock holder works on its temp file. */
  lemma BystanderInv<J>(h: Host<J>, s: State<J>, t: State<J>, q: Pid, pc: Pc<J>)
    requires FilesInv(h, s) && FilesInv(h, t) && PcInv(h, s, q, pc) && !pc.HoldsLock()
    requires t.lock == s.lock && t.acquired == s.acquired && t.started == s.started && t.raised == s.raised
    requires s.published <= t.published && t.origin == s.origin
    requires OpenFilesKept(s, t)
    ensures PcInv(h, t, q, pc)
  {
    if pc.Peeking? {
      assert InodeAfter(t, pc.version) == InodeAfter(s, pc.version);
      assert pc.file in s.published || s.origin == Some(pc.file);
    }
  }

  /** The lock holder `p` moved and only touched its temporary file or published it. */
  lemma HolderInv<J>(h: Host<J>, s: State<J>, p: Pid, pc: Pc<J>, t: State<J>)
    requires Inv(h, s) && p in s.procs && s.procs[p].HoldsLock() && t.procs == s.procs[p := pc]
    requires FilesInv(h, t) && OpenFilesKept(s, t) && t.origin == s.origin
    requires t.lock == s.lock && t.acquired == s.acquired && t.started == s.started && t.raised == s.raised
    requires s.published <= t.published
    requires PcInv(h, t, p, pc) && pc.HoldsLock()
    ensures ProcsInv(h, t)
  {
    assert PcInv(h, s, p, s.procs[p]);
    forall q | q in t.procs ensures PcInv(h, t, q, t.procs[q]) {
      if q != p {
        assert PcInv(h, s, q, s.procs[q]);
        BystanderInv(h, s, t, q, s.procs[q]);
      }
    }
  }

  /** The lock holder `p` went to `pc` and touched only its temporary file `tmp`. */
  ghost predicate TempStep<J>(s: State<J>, p: Pid, tmp: Inode, pc: Pc<J>, t: State<J>) {
    && p in s.procs && s.procs[p].HoldsLock() && pc.HoldsLock()
    && t == s.(inodes := t.inodes, synced := t.synced, temps := t.temps, procs := s.procs[p := pc])
    && (tmp in s.temps || tmp !in s.inodes)
    && t.inodes.Keys == s.inodes.Keys + {tmp} && t.temps == s.temps + {tmp}
    && (forall i | i in s.inodes && i != tmp :: t.inodes[i] == s.inodes[i])
    && s.synced <= t.synced <= s.synced + {tmp}
  }

  lemma TempStepInv<J>(h: Host<J>, s: State<J>, p: Pid, tmp: Inode, pc: Pc<J>, t: State<J>)
    requires Inv(h, s) && TempStep(s, p, tmp, pc, t)
    requires |t.published| == |t.committed| && PcInv(h, t, p, pc)
    ensures Inv(h, t)
  {
    TempFilesInv(h, s, t, tmp);
    HolderInv(h, s, p, pc, t);
  }

  lemma CreateTempInv<J>(h: Host<J>, s: State<J>, p: Pid, tmp: Inode, t: State<J>)
    requires Inv(h, s) && p in s.procs && DoCreateTemp(s, p, s.procs[p], tmp) == Some(t)
    ensures Inv(h, t)
  {
    assert PcInv(h, s, p, s.procs[p]);
    assert TempStep(s, p, tmp, t.procs[p], t);
    TempFilesInv(h, s, t, tmp);
    TempStepInv(h, s, p, tmp, t.procs[p], t);
  }

  lemma WriteChunkStep<J>(h: Host<J>, s: State<J>, p: Pid, n: nat, t: State<J>)
    requires Inv(h, s) && p in s.procs && DoWriteChunk(s, p, s.procs[p], n) == Some(t)
    ensures TempStep(s, p, s.procs[p].tmp, t.procs[p], t)
    ensures |t.published| == |t.committed| && MainFile(t) == MainFile(s) ==> PcInv(h, t, p, t.procs[p])
  {
    var pc := s.procs[p];
    assert PcInv(h, s, p, pc);
    assert pc.view[..n] + pc.view[n..] == pc.view;
    assert t.temps == s.temps + {pc.tmp};
  }

  lemma WriteChunkInv<J>(h: Host<J>, s: State<J>, p: Pid, n: nat, t: State<J>)
    requires Inv(h, s) && p in s.procs && DoWriteChunk(s, p, s.procs[p], n) == Some(t)
    ensures Inv(h, t)
  {
    WriteChunkStep(h, s, p, n, t);
    TempFilesInv(h, s, t, s.procs[p].tmp);
    TempStepInv(h, s, p, s.procs[p].tmp, t.procs[p], t);
  }

  lemma FsyncInv<J>(h: Host<J>, s: State<J>, p: Pid, t: State<J>)
    requires Inv(h, s) && p in s.procs && DoFsync(s, p, s.procs[p]) == Some(t)
    ensures Inv(h, t)
  {
    var pc := s.procs[p];
    assert PcInv(h, s, p, pc);
    assert t.temps == s.temps + {pc.tmp};
    TempFilesInv(h, s, t, pc.tmp);
    TempStepInv(h, s, p, pc.tmp, t.procs[p], t);
  }

  /** One more committed update leaves the earlier versions as they were and adds one: the update
      applied to the newest of them. */
  lemma OneMoreUpdate<J>(h: Host<J>, s: State<J>, t: State<J>, e: Entry, data: Bytes)
    requires Contents(t, t.origin) == Contents(s, s.origin) && t.committed == s.committed + [e]
    requires Update(h, e, FileAfter(h, s, |s.committed|)) == Some(data)
    ensures forall k | 0 <= k <= |s.committed| :: FileAfter(h, t, k) == FileAfter(h, s, k)
    ensures FileAfter(h, t, |t.committed|) == Some(data)
  {
    var n := |s.committed|;
    forall k | 0 <= k <= n ensures FileAfter(h, t, k) == FileAfter(h, s, k) {
      assert t.committed[..k] == s.committed[..k];
      FileAfterFrame(h, s, t, k);
    }
    assert t.committed[..n + 1] == t.committed && t.committed[..n] == s.committed;
    assert s.committed[..n] == s.committed;
  }

  /** One more published inode, holding the bytes of the newest version. */
  lemma OneMoreInode<J>(h: Host<J>, s: State<J>, t: State<J>, tmp: Inode)
    requires FilesInv(h, s) && t.inodes == s.inodes && tmp in s.inodes
    requires t.published == s.published + [tmp] && |t.committed| == |s.committed| + 1
    requires forall k | 0 <= k <= |s.committed| :: FileAfter(h, t, k) == FileAfter(h, s, k)
    requires FileAfter(h, t, |t.committed|) == Some(s.inodes[tmp])
    ensures forall k | 0 < k <= |t.published| :: FileAfter(h, t, k) == Some(t.inodes[t.published[k - 1]])
  {
    forall k | 0 < k <= |t.published| ensures FileAfter(h, t, k) == Some(t.inodes[t.published[k - 1]]) {
      if k <= |s.published| {
        assert FileAfter(h, s, k) == Some(s.inodes[s.published[k - 1]]);
      }
    }
  }

  /** One more update that could be computed. */
  lemma OneMoreResult<J>(h: Host<J>, s: State<J>, t: State<J>, e: Entry)
    requires forall k | 0 <= k < |s.committed| :: Update(h, s.committed[k], FileAfter(h, s, k)).Some?
    requires t.committed == s.committed + [e] && Update(h, e, FileAfter(h, s, |s.committed|)).Some?
    requires forall k | 0 <= k <= |s.committed| :: FileAfter(h, t, k) == FileAfter(h, s, k)
    ensures forall k | 0 <= k < |t.committed| :: Update(h, t.committed[k], FileAfter(h, t, k)).Some?
  {
    forall k | 0 <= k < |t.committed| ensures Update(h, t.committed[k], FileAfter(h, t, k)).Some? {
      if k < |s.committed| {
        assert Update(h, s.committed[k], FileAfter(h, s, k)).Some?;
      }
    }
  }

  /** The history of the file in `t` is that in `s`, one version longer: the newest update applied to the
      main file of `s`, which makes `data` of it. */
  ghost predicate OneVersionLonger<J>(h: Host<J>, s: State<J>, t: State<J>, data: Bytes) {
    && |t.published| == |t.committed| == |s.committed| + 1
    && (forall k | 0 <= k <= |s.committed| :: FileAfter(h, t, k) == FileAfter(h, s, k))
    && FileAfter(h, s, |s.committed|) == MainFile(s)
    && Update(h, t.committed[|s.committed|], MainFile(s)) == Some(data)
    && FileAfter(h, t, |t.committed|) == Some(data)
    && (forall k | 0 < k <= |t.published| ::
          t.published[k - 1] in t.inodes && FileAfter(h, t, k) == Some(t.inodes[t.published[k - 1]]))
    && (forall k | 0 <= k < |t.committed| :: Update(h, t.committed[k], FileAfter(h, t, k)).Some?)
  }

  /** The rename leaves the history of the file as it was, one version longer: the update of the call
      applied to the file it replaces. */
  lemma ReplaceHistory<J>(h: Host<J>, s: State<J>, p: Pid, t: State<J>)
    requires Inv(h, s) && p in s.procs && s.procs[p].Synced? && DoReplace(s, p, s.procs[p]) == Some(t)
    ensures OneVersionLonger(h, s, t, s.procs[p].data) && SeenInv(h, t)
  {
    var pc := s.procs[p];
    assert PcInv(h, s, p, pc);
    MainIsFold(h, s);
    assert s.committed[..|s.committed|] == s.committed;
    OneMoreUpdate(h, s, t, t.committed[|s.committed|], pc.data);
    OneMoreInode(h, s, t, pc.tmp);
    OneMoreResult(h, s, t, t.committed[|s.committed|]);
  }

  /** The rename publishes exactly one more update of the fold. */
  lemma ReplaceFilesInv<J>(h: Host<J>, s: State<J>, p: Pid, t: State<J>)
    requires Inv(h, s) && p in s.procs && DoReplace(s, p, s.procs[p]) == Some(t)
    ensures FilesInv(h, t) && SeenInv(h, t)
  {
    assert PcInv(h, s, p, s.procs[p]);
    ReplaceHistory(h, s, p, t);
  }

  lemma CallsOfAppend(log: seq<Entry>, e: Entry)
    ensures Calls(log + [e]) == Calls(log) + {e.call}
  {
    assert e in log + [e];
    assert forall x | x in log + [e] :: x in log || x == e;
    assert forall x | x in log :: x in log + [e];
  }

  lemma OrderOfAppend<J>(s: State<J>, t: State<J>, entry: Entry)
    requires OrderInv(s) && t.committed == s.committed + [entry]
    requires t.acquired == s.acquired && t.started == s.started && t.returned == s.returned && t.raised == s.raised
    requires 0 < |s.acquired| && entry.ticket == |s.acquired| - 1 && s.acquired[entry.ticket] == entry.call
    requires entry.call !in s.raised && (forall e | e in s.committed :: e.ticket < entry.ticket)
    requires Calls(t.committed) == Calls(s.committed) + {entry.call}
    ensures OrderInv(t)
  {
    assert forall e | e in t.committed :: e in s.committed || e == entry;
  }

  /** The newest committed update holds the newest place in the lock order. */
  lemma ReplaceOrderInv<J>(h: Host<J>, s: State<J>, p: Pid, t: State<J>)
    requires Inv(h, s) && p in s.procs && DoReplace(s, p, s.procs[p]) == Some(t)
    ensures OrderInv(t)
    ensures s.procs[p].call in Calls(t.committed)
  {
    var pc := s.procs[p];
    assert PcInv(h, s, p, pc);
    var entry := Entry(pc.call, |s.acquired| - 1, pc.readFailed);
    CallsOfAppend(s.committed, entry);
    OrderOfAppend(s, t, entry);
  }

  lemma ReplacePcInv<J>(h: Host<J>, s: State<J>, p: Pid, t: State<J>)
    requires Inv(h, s) && p in s.procs && DoReplace(s, p, s.procs[p]) == Some(t)
    requires s.procs[p].call in Calls(t.committed)
    ensures |t.published| == |t.committed| && PcInv(h, t, p, t.procs[p]) && OpenFilesKept(s, t)
  {
    assert PcInv(h, s, p, s.procs[p]);
  }

  lemma ReplaceInv<J>(h: Host<J>, s: State<J>, p: Pid, t: State<J>)
    requires Inv(h, s) && p in s.procs && DoReplace(s, p, s.procs[p]) == Some(t)
    ensures Inv(h, t)
  {
    assert PcInv(h, s, p, s.procs[p]);
    ReplaceFilesInv(h, s, p, t);
    ReplaceOrderInv(h, s, p, t);
    ReplacePcInv(h, s, p, t);
    HolderInv(h, s, p, t.procs[p], t);
  }

  lemma KeptVersions<J>(h: Host<J>, s: State<J>, kept: nat, t: State<J>)
    requires kept <= |s.committed| && t.committed == s.committed[..kept]
    requires Contents(t, t.origin) == Contents(s, s.origin)
    ensures forall k | 0 <= k <= kept :: FileAfter(h, s, k) == FileAfter(h, t, k)
  {
    forall k | 0 <= k <= kept ensures FileAfter(h, s, k) == FileAfter(h, t, k) {
      assert t.committed[..k] == s.committed[..k];
      FileAfterFrame(h, s, t, k);
    }
  }

  lemma PowerLossFilesInv<J>(h: Host<J>, s: State<J>, kept: nat, cut: map<Inode, nat>, t: State<J>)
    requires FilesInv(h, s) && DoPowerLoss(s, kept, cut) == Some(t)
    ensures FilesInv(h, t)
  {
    assert forall i | i in s.synced :: t.inodes[i] == s.inodes[i];
    KeptVersions(h, s, kept, t);
    assert forall i | i in t.published :: i in s.published;
  }

  lemma PowerLossOrderInv<J>(s: State<J>, kept: nat, cut: map<Inode, nat>, t: State<J>)
    requires OrderInv(s) && DoPowerLoss(s, kept, cut) == Some(t)
    ensures OrderInv(t)
  {
    assert forall e | e in t.committed :: e in s.committed;
    assert Calls(t.committed) <= Calls(s.committed);
  }

  lemma PowerLossInv<J>(h: Host<J>, s: State<J>, kept: nat, cut: map<Inode, nat>, t: State<J>)
    requires Inv(h, s) && DoPowerLoss(s, kept, cut) == Some(t)
    ensures Inv(h, t)
  {
    PowerLossFilesInv(h, s, kept, cut, t);
    PowerLossOrderInv(s, kept, cut, t);
  }

  /** Steps that only read. */
  predicate Reads(e: Event) {
    e.Acquire? || e.Open? || e.ReadChunk? || e.PeekChunk? || e.ReadEnd? || e.ReadError?
  }

  lemma ReadPathInv<J>(h: Host<J>, s: State<J>, e: Event, t: State<J>)
    requires Inv(h, s) && Step(h, s, e) == Some(t) && Reads(e) && !e.Acquire?
    ensures Inv(h, t)
  {
    match e
    case Open(p) => OpenInv(h, s, p, t);
    case ReadChunk(p, n) => ChunkInv(h, s, p, n, t);
    case PeekChunk(p, n) => ChunkInv(h, s, p, n, t);
    case ReadEnd(p) => ReadEndInv(h, s, p, t);
    case ReadError(p) => ReadEndInv(h, s, p, t);
  }

  lemma HolderPathInv<J>(h: Host<J>, s: State<J>, e: Event, t: State<J>)
    requires h.flock && Inv(h, s) && Step(h, s, e) == Some(t) && (e.Acquire? || e.Compute? || e.Fail?)
    ensures Inv(h, t)
  {
    match e
    case Acquire(p) => AcquireInv(h, s, p, t);
    case Compute(p) => ComputeInv(h, s, p, t);
    case Fail(p) => FailInv(h, s, p, t);
  }

  /** Steps that write or publish the temporary file. */
  predicate Writes(e: Event) { e.CreateTemp? || e.WriteChunk? || e.Fsync? || e.Replace? }

  lemma WritePathInv<J>(h: Host<J>, s: State<J>, e: Event, t: State<J>)
    requires Inv(h, s) && Step(h, s, e) == Some(t) && Writes(e)
    ensures Inv(h, t)
  {
    match e
    case CreateTemp(p, tmp) => CreateTempInv(h, s, p, tmp, t);
    case WriteChunk(p, n) => WriteChunkInv(h, s, p, n, t);
    case Fsync(p) => FsyncInv(h, s, p, t);
    case Replace(p) => ReplaceInv(h, s, p, t);
  }

  /** Steps with which a process leaves, or cleans up before it does. */
  predicate Leaves(e: Event) { e.Return? || e.Raise? || e.Crash? || e.Unlink? || e.PeekEnd? }

  lemma LeavePathInv<J>(h: Host<J>, s: State<J>, e: Event, t: State<J>)
    requires Inv(h, s) && Step(h, s, e) == Some(t) && Leaves(e)
    ensures Inv(h, t)
  {
    if e.Return? {
      ReturnInv(h, s, e.p, t);
    } else if e.Raise? {
      RaiseInv(h, s, e.p, t);
    } else if e.Crash? {
      CrashInv(h, s, e.p, t);
    } else if e.Unlink? {
      UnlinkInv(h, s, e.p, e.removed, t);
    } else {
      PeekEndInv(h, s, e.p, t);
    }
  }

  /** Every step keeps the invariant. */
  lemma StepInv<J>(h: Host<J>, s: State<J>, e: Event, t: State<J>)
    requires h.flock && Inv(h, s) && Step(h, s, e) == Some(t)
    ensures Inv(h, t)
  {
    if e.Start? {
      StartInv(h, s, e.p, e.call, t);
    } else if e.Peek? {
      PeekInv(h, s, e.p, t);
    } else if e.PowerLoss? {
      PowerLossInv(h, s, e.kept, e.cut, t);
    } else if Writes(e) {
      WritePathInv(h, s, e, t);
    } else if Leaves(e) {
      LeavePathInv(h, s, e, t);
    } else if e.Acquire? || e.Compute? || e.Fail? {
      HolderPathInv(h, s, e, t);
    } else {
      ReadPathInv(h, s, e, t);
    }
  }

  lemma ReadKeepsInodes<J>(h: Host<J>, s: State<J>, e: Event, t: State<J>)
    requires Step(h, s, e) == Some(t) && Reads(e)
    ensures t.inodes == s.inodes && t.origin == s.origin
  {}

  lemma LeaveKeepsInodes<J>(h: Host<J>, s: State<J>, e: Event, t: State<J>)
    requires Step(h, s, e) == Some(t) && Leaves(e)
    ensures t.inodes == s.inodes && t.origin == s.origin
  {}

  lemma MoveKeepsInodes<J>(h: Host<J>, s: State<J>, e: Event, t: State<J>)
    requires Step(h, s, e) == Some(t) && (e.Start? || e.Peek? || e.Compute? || e.Fail? || e.Fsync? || e.Replace?)
    ensures t.inodes == s.inodes && t.origin == s.origin
  {}

  lemma StepKeepsOrigin<J>(h: Host<J>, s: State<J>, e: Event, t: State<J>)
    requires Inv(h, s) && Step(h, s, e) == Some(t)
    ensures t.origin == s.origin && Contents(t, t.origin) == Contents(s, s.origin)
  {
    if e.WriteChunk? {
      assert PcInv(h, s, e.p, s.procs[e.p]);
    } else if Reads(e) {
      ReadKeepsInodes(h, s, e, t);
    } else if Leaves(e) {
      LeaveKeepsInodes(h, s, e, t);
    } else if !e.CreateTemp? && !e.PowerLoss? {
      MoveKeepsInodes(h, s, e, t);
    }
  }
}
