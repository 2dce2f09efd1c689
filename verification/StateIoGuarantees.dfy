/** What the locked read-modify-write guarantees over whole runs, and why the lock is needed
    (kaine/state_io.py). */
module StateIoGuarantees {
  import opened Wrappers
  import opened StateIo
  import opened StateIoInvariant
  import opened StateIoReads

  // ------------------------------------------------------------------ accounting

  /** Every call is accounted for, and every temporary file has an owner or a reason to be left. */
  ghost predicate Account<J>(s: State<J>) {
    && (forall c | c in s.started ::
          c in Calls(s.committed) || c in s.raised || c in s.dropped || c in Pending(s))
    && (forall i | i in s.temps :: i in s.leaked || i in Owned(s))
  }

  /** The process table after one process moved or left. */
  lemma PendingStep<J>(s: State<J>, t: State<J>, p: Pid)
    requires p in s.procs
    requires forall q | q in s.procs && q != p :: q in t.procs && t.procs[q] == s.procs[q]
    ensures forall c | c in Pending(s) ::
              c in Pending(t) || (!s.procs[p].Peeking? && c == s.procs[p].call)
    ensures forall i | i in Owned(s) :: i in Owned(t) || (s.procs[p].OwnsTemp() && i == s.procs[p].tmp)
    ensures p in t.procs && !t.procs[p].Peeking? ==> t.procs[p].call in Pending(t)
    ensures p in t.procs && t.procs[p].OwnsTemp() ==> t.procs[p].tmp in Owned(t)
  {
    forall c | c in Pending(s) ensures c in Pending(t) || (!s.procs[p].Peeking? && c == s.procs[p].call) {
      var q :| q in s.procs && !s.procs[q].Peeking? && s.procs[q].call == c;
      assert q != p ==> q in t.procs && t.procs[q].call in Pending(t);
    }
    forall i | i in Owned(s) ensures i in Owned(t) || (s.procs[p].OwnsTemp() && i == s.procs[p].tmp) {
      var q :| q in s.procs && s.procs[q].OwnsTemp() && s.procs[q].tmp == i;
      assert q != p ==> q in t.procs && t.procs[q].tmp in Owned(t);
    }
  }

  /** A process moved and kept its call, or left for a reason that is on the books. */
  lemma MoveAccount<J>(s: State<J>, t: State<J>, p: Pid)
    requires Account(s) && p in s.procs && t.started == s.started
    requires forall q | q in s.procs && q != p :: q in t.procs && t.procs[q] == s.procs[q]
    requires Calls(s.committed) <= Calls(t.committed) && s.raised <= t.raised && s.dropped <= t.dropped
    requires s.leaked <= t.leaked
    requires var c := s.procs[p];
             c.Peeking? || c.call in Calls(t.committed) || c.call in t.raised || c.call in t.dropped
             || (p in t.procs && !t.procs[p].Peeking? && t.procs[p].call == c.call)
    requires forall i | i in t.temps :: i in s.temps || (p in t.procs && t.procs[p].OwnsTemp() && t.procs[p].tmp == i)
    requires s.procs[p].OwnsTemp() && s.procs[p].tmp in t.temps ==>
               || s.procs[p].tmp in t.leaked
               || (p in t.procs && t.procs[p].OwnsTemp() && t.procs[p].tmp == s.procs[p].tmp)
    ensures Account(t)
  {
    PendingStep(s, t, p);
  }

  /** A process moved, and kept its call and any temporary file. */
  lemma SameCallAccount<J>(s: State<J>, p: Pid, pc: Pc<J>, t: State<J>)
    requires Account(s) && p in s.procs && t == Put(s, p, pc).(values := t.values)
    requires !pc.Peeking? && !s.procs[p].Peeking? && pc.call == s.procs[p].call
    requires s.procs[p].OwnsTemp() ==> pc.OwnsTemp() && pc.tmp == s.procs[p].tmp
    ensures Account(t)
  {
    MoveAccount(s, t, p);
  }

  lemma ReadAccount<J>(h: Host<J>, s: State<J>, e: Event, t: State<J>)
    requires Account(s) && Step(h, s, e) == Some(t) && Reads(e)
    ensures Account(t)
  {
    if e.Acquire? || e.PeekChunk? {
      MoveAccount(s, t, e.p);
    } else {
      SameCallAccount(s, e.p, t.procs[e.p], t);
    }
  }

  lemma ComputeAccount<J>(h: Host<J>, s: State<J>, p: Pid, t: State<J>)
    requires Account(s) && p in s.procs && DoCompute(h, s, p, s.procs[p]) == Some(t)
    ensures Account(t)
  {
    SameCallAccount(s, p, t.procs[p], t);
  }

  lemma FailAccount<J>(s: State<J>, p: Pid, t: State<J>)
    requires Account(s) && p in s.procs && DoFail(s, p, s.procs[p]) == Some(t)
    ensures Account(t)
  {
    SameCallAccount(s, p, t.procs[p], t);
  }

  lemma WriteAccount<J>(h: Host<J>, s: State<J>, e: Event, t: State<J>)
    requires Account(s) && Step(h, s, e) == Some(t) && (e.CreateTemp? || e.WriteChunk? || e.Fsync?)
    ensures Account(t)
  {
    MoveAccount(s, t, e.p);
  }

  lemma ReplaceAccount<J>(h: Host<J>, s: State<J>, p: Pid, t: State<J>)
    requires Inv(h, s) && Account(s) && p in s.procs && DoReplace(s, p, s.procs[p]) == Some(t)
    ensures Account(t)
  {
    assert PcInv(h, s, p, s.procs[p]);
    ReplaceOrderInv(h, s, p, t);
    assert forall x | x in s.committed :: x in t.committed;
    MoveAccount(s, t, p);
  }

  lemma FinishAccount<J>(h: Host<J>, s: State<J>, p: Pid, t: State<J>)
    requires Inv(h, s) && Account(s) && p in s.procs
    requires DoReturn(s, p, s.procs[p]) == Some(t) || DoRaise(s, p, s.procs[p]) == Some(t)
    ensures Account(t)
  {
    assert PcInv(h, s, p, s.procs[p]);
    MoveAccount(s, t, p);
  }

  lemma LeaveAccount<J>(s: State<J>, p: Pid, removed: bool, t: State<J>)
    requires Account(s) && p in s.procs
    requires || DoCrash(s, p, s.procs[p]) == Some(t) || DoPeekEnd(s, p, s.procs[p]) == Some(t)
             || DoUnlink(s, p, s.procs[p], removed) == Some(t)
    ensures Account(t)
  {
    MoveAccount(s, t, p);
  }

  lemma NewAccount<J>(s: State<J>, t: State<J>, p: Pid)
    requires Account(s) && p !in s.procs && p in t.procs && t == s.(procs := t.procs, started := t.started)
    requires t.procs == s.procs[p := t.procs[p]]
    requires t.started == s.started || (!t.procs[p].Peeking? && t.started == s.started + {t.procs[p].call})
    ensures Account(t)
  {
    assert !t.procs[p].Peeking? ==> t.procs[p].call in Pending(t);
    assert forall q | q in s.procs :: q in t.procs && t.procs[q] == s.procs[q];
  }

  lemma PowerLossAccount<J>(s: State<J>, kept: nat, cut: map<Inode, nat>, t: State<J>)
    requires Account(s) && DoPowerLoss(s, kept, cut) == Some(t)
    ensures Account(t)
  {
    assert s.committed == s.committed[..kept] + s.committed[kept..];
  }

  lemma ExitAccount<J>(h: Host<J>, s: State<J>, e: Event, t: State<J>)
    requires Inv(h, s) && Account(s) && Step(h, s, e) == Some(t)
    requires e.Replace? || Leaves(e)
    ensures Account(t)
  {
    if e.Replace? {
      ReplaceAccount(h, s, e.p, t);
    } else if e.Return? || e.Raise? {
      FinishAccount(h, s, e.p, t);
    } else {
      LeaveAccount(s, e.p, e.Unlink? && e.removed, t);
    }
  }

  lemma StepAccount<J>(h: Host<J>, s: State<J>, e: Event, t: State<J>)
    requires Inv(h, s) && Account(s) && Step(h, s, e) == Some(t)
    ensures Account(t)
  {
    if e.PowerLoss? {
      PowerLossAccount(s, e.kept, e.cut, t);
    } else if e.Start? || e.Peek? {
      NewAccount(s, t, e.p);
    } else if e.Replace? || Leaves(e) {
      ExitAccount(h, s, e, t);
    } else if Reads(e) {
      ReadAccount(h, s, e, t);
    } else if e.Compute? {
      ComputeAccount(h, s, e.p, t);
    } else if e.Fail? {
      FailAccount(s, e.p, t);
    } else {
      WriteAccount(h, s, e, t);
    }
  }

  lemma {:induction false} RunInv<J>(h: Host<J>, s: State<J>, events: seq<Event>, t: State<J>)
    requires h.flock && Init(s) && Run(h, s, events) == Some(t)
    ensures Inv(h, t) && Account(t) && t.origin == s.origin && Contents(t, t.origin) == Contents(s, s.origin)
  {
    if events == [] {
      InitInv(h, s);
    } else {
      var front := events[..|events| - 1];
      var u := Run(h, s, front).value;
      RunInv(h, s, front, u);
      StepInv(h, u, events[|events| - 1], t);
      StepAccount(h, u, events[|events| - 1], t);
      StepKeepsOrigin(h, u, events[|events| - 1], t);
    }
  }

  /** A version is what its call made of the one before. */
  lemma NextVersion<J>(h: Host<J>, s: State<J>, k: nat)
    requires Inv(h, s) && k < |s.committed|
    ensures FileAfter(h, s, k + 1) == Update(h, s.committed[k], FileAfter(h, s, k)) && FileAfter(h, s, k + 1).Some?
  {
    assert Update(h, s.committed[k], FileAfter(h, s, k)).Some?;
    FoldNext(h, Contents(s, s.origin), s.committed, k);
  }

  lemma FoldNext<J>(h: Host<J>, file: Option<Bytes>, log: seq<Entry>, k: nat)
    requires k < |log| && Update(h, log[k], Fold(h, file, log[..k])).Some?
    ensures Fold(h, file, log[..k + 1]) == Update(h, log[k], Fold(h, file, log[..k]))
  {
    assert log[..k + 1][..k] == log[..k] && log[..k + 1][k] == log[k];
  }

  lemma {:induction false} RunFlag<J>(h: Host<J>, s: State<J>, events: seq<Event>, t: State<J>)
    requires h.flock && Init(s) && Run(h, s, events) == Some(t)
    ensures FlagInv(t, FailedReads(h, s, events))
  {
    if events != [] {
      var front := events[..|events| - 1];
      var u := Run(h, s, front).value;
      RunFlag(h, s, front, u);
      RunInv(h, s, front, u);
      StepFlag(h, u, events[|events| - 1], t, FailedReads(h, s, front));
    }
  }

  // ------------------------------------------------------------------ main results

  /**
   * In every run, however the processes interleave, split their writes, fail, die or lose
   * power, the shared file holds exactly the committed updates applied one after another to
   * the file the run started with, in the order in which they took the lock.  Each version is
   * the encoding of what the `fn` of its call makes of the value of the version before, or of the
   * default where there is no such value or the call failed to read it.  A call is
   * applied at most once; one that returned since the last power loss is applied, one that
   * raised is not; every other started call is still running or died with its process.
   */
  lemma ExactlyOnceInLockOrder<J>(h: Host<J>, s: State<J>, events: seq<Event>, t: State<J>)
    requires h.flock && Init(s) && Run(h, s, events) == Some(t)
    ensures MainFile(t) == Fold(h, MainFile(s), t.committed)
    ensures forall k | 0 <= k < |t.committed| ::
              Follows(h, t.committed[k].call, t.committed[k].call in FailedReads(h, s, events),
                      Fold(h, MainFile(s), t.committed[..k]), Fold(h, MainFile(s), t.committed[..k + 1]))
    ensures Fold(h, MainFile(s), []) == MainFile(s)
    ensures forall i, j | 0 <= i < j < |t.committed| ::
              t.committed[i].ticket < t.committed[j].ticket && t.committed[i].call != t.committed[j].call
    ensures forall e | e in t.committed :: e.ticket < |t.acquired| && t.acquired[e.ticket] == e.call
    ensures t.returned.Keys <= Calls(t.committed) && t.raised !! Calls(t.committed)
    ensures forall c | c in t.started ::
              c in Calls(t.committed) || c in t.raised || c in t.dropped || c in Pending(t)
  {
    RunInv(h, s, events, t);
    MainIsFold(h, t);
    RunFlag(h, s, events, t);
    forall k | 0 <= k < |t.committed|
      ensures Follows(h, t.committed[k].call, t.committed[k].call in FailedReads(h, s, events),
                      Fold(h, MainFile(s), t.committed[..k]), Fold(h, MainFile(s), t.committed[..k + 1]))
    {
      NextVersion(h, t, k);
      assert t.committed[k] in t.committed;
      UpdateFollows(h, t.committed[k], FileAfter(h, t, k), FileAfter(h, t, k + 1));
    }
    forall i, j | 0 <= i < j < |t.committed|
      ensures t.committed[i].ticket < t.committed[j].ticket && t.committed[i].call != t.committed[j].call
    {
      assert t.committed[i] in t.committed && t.committed[j] in t.committed;
    }
  }

  /** A reader that takes no lock sees the whole payload of one committed version, the one
      current when it opened the file, whatever happens while it reads. */
  lemma ReadersSeeWholePayloads<J>(h: Host<J>, s: State<J>, events: seq<Event>, t: State<J>)
    requires h.flock && Init(s) && Run(h, s, events) == Some(t)
    ensures forall x | x in t.seen :: x.version <= |t.committed|
                                      && Fold(h, MainFile(s), t.committed[..x.version]) == Some(x.bytes)
  {
    RunInv(h, s, events, t);
    forall x | x in t.seen
      ensures x.version <= |t.committed| && Fold(h, MainFile(s), t.committed[..x.version]) == Some(x.bytes)
    {
      assert FileAfter(h, t, x.version) == Some(x.bytes);
    }
  }

  /** When nobody is running, no temporary file is left, except where a process died, the power
      failed or the unlink itself failed. */
  lemma QuietLeavesNoTemp<J>(h: Host<J>, s: State<J>, events: seq<Event>, t: State<J>)
    requires h.flock && Init(s) && Run(h, s, events) == Some(t) && t.procs == map[]
    ensures t.temps <= t.leaked
  {
    RunInv(h, s, events, t);
  }

  // ------------------------------------------------------------------ the lock is needed

  /** One more event at the end of a run. */
  lemma Extend<J>(h: Host<J>, s: State<J>, events: seq<Event>, t: State<J>, e: Event) returns (u: State<J>)
    requires Run(h, s, events) == Some(t) && Step(h, t, e).Some?
    ensures Run(h, s, events + [e]) == Some(u) && Step(h, t, e) == Some(u)
  {
    assert (events + [e])[..|events|] == events;
    u := Step(h, t, e).value;
  }

  /** A counter file on a host whose lock is a no-op. */
  function Counter(): Host<int> {
    Host(false,
         n => if 0 <= n < 256 then Some([n as byte]) else None,
         b => if |b| == 1 then Some(b[0] as int) else None,
         (c, n) => Some(n + 1),
         c => 0)
  }

  function NoFile(): State<int> {
    State(map[], {}, None, None, {}, None, map[], {}, [], [], [], map[], map[], {}, {}, {}, [])
  }

  /** Two processes take the no-op lock together and both read the missing file. */
  lemma BothRead() returns (events: seq<Event>, t: State<int>)
    ensures Run(Counter(), NoFile(), events) == Some(t)
    ensures t.procs.Keys == {0, 1} && t.procs[0] == Loaded(10, 0, false) && t.procs[1] == Loaded(11, 0, false)
    ensures t.inodes == map[] && t.main.None? && t.acquired == [10, 11] && t.committed == []
  {
    events, t := [], NoFile();
    t := Extend(Counter(), NoFile(), events, t, Start(0, 10));
    events := events + [Start(0, 10)];
    t := Extend(Counter(), NoFile(), events, t, Start(1, 11));
    events := events + [Start(1, 11)];
    t := Extend(Counter(), NoFile(), events, t, Acquire(0));
    events := events + [Acquire(0)];
    t := Extend(Counter(), NoFile(), events, t, Acquire(1));
    events := events + [Acquire(1)];
    t := Extend(Counter(), NoFile(), events, t, Open(0));
    events := events + [Open(0)];
    t := Extend(Counter(), NoFile(), events, t, Open(1));
    events := events + [Open(1)];
  }

  /** A process that has read 0 writes 1 into a temporary file of its own. */
  lemma WriteOne(p: Pid, before: seq<Event>, s: State<int>) returns (events: seq<Event>, t: State<int>)
    requires Run(Counter(), NoFile(), before) == Some(s)
    requires p in s.procs && s.procs[p].Loaded? && s.procs[p].current == 0 && p !in s.inodes
    ensures Run(Counter(), NoFile(), events) == Some(t)
    ensures p in t.procs && t.procs[p] == Writing(s.procs[p].call, [1], s.procs[p].readFailed, p, [1])
    ensures t.procs == s.procs[p := t.procs[p]] && t.acquired == s.acquired
    ensures t.inodes == s.inodes[p := []] && t.committed == s.committed
  {
    t := Extend(Counter(), NoFile(), before, s, Compute(p));
    events := before + [Compute(p)];
    t := Extend(Counter(), NoFile(), events, t, CreateTemp(p, p));
    events := events + [CreateTemp(p, p)];
  }

  /** ... finishes it ... */
  lemma FlushOne(p: Pid, before: seq<Event>, s: State<int>) returns (events: seq<Event>, t: State<int>)
    requires Run(Counter(), NoFile(), before) == Some(s)
    requires p in s.procs && s.procs[p].Writing? && s.procs[p].tmp == p && s.procs[p].view == [1]
    requires p in s.inodes && s.inodes[p] == []
    ensures Run(Counter(), NoFile(), events) == Some(t)
    ensures t.procs == s.procs[p := Synced(s.procs[p].call, s.procs[p].data, s.procs[p].readFailed, p)]
    ensures t.acquired == s.acquired && t.inodes == s.inodes[p := [1]] && t.committed == s.committed
  {
    t := Extend(Counter(), NoFile(), before, s, WriteChunk(p, 1));
    events := before + [WriteChunk(p, 1)];
    assert t.inodes[p] == [] + [1][..1] == [1];
    t := Extend(Counter(), NoFile(), events, t, Fsync(p));
    events := events + [Fsync(p)];
  }

  /** ... and publishes it, whatever was published in between. */
  lemma PublishOne(p: Pid, before: seq<Event>, s: State<int>) returns (events: seq<Event>, t: State<int>)
    requires Run(Counter(), NoFile(), before) == Some(s) && s.acquired != []
    requires p in s.procs && s.procs[p].Synced? && s.procs[p].tmp == p
    requires p in s.inodes && s.inodes[p] == [1]
    ensures Run(Counter(), NoFile(), events) == Some(t)
    ensures t.procs == s.procs[p := Replaced(s.procs[p].call)] && t.acquired == s.acquired
    ensures MainFile(t) == Some([1]) && t.inodes.Keys == s.inodes.Keys
    ensures exists e :: t.committed == s.committed + [e] && e.readFailed == s.procs[p].readFailed
  {
    t := Extend(Counter(), NoFile(), before, s, Replace(p));
    events := before + [Replace(p)];
  }

  lemma TwoIncrements(a: Entry, b: Entry)
    requires !a.readFailed && !b.readFailed
    ensures Fold(Counter(), None, [a, b]) == Some([2])
  {
    assert [a, b][..1] == [a] && [a][..0] == [];
    assert Fold(Counter(), None, [a]) == Some([1]);
  }

  lemma LostUpdate() returns (events: seq<Event>, t: State<int>)
    ensures Run(Counter(), NoFile(), events) == Some(t) && MainFile(t) == Some([1])
    ensures |t.committed| == 2 && Fold(Counter(), None, t.committed) == Some([2])
  {
    var e0, s0 := BothRead();
    var e1, s1 := WriteOne(0, e0, s0);
    var e2, s2 := FlushOne(0, e1, s1);
    var e3, s3 := PublishOne(0, e2, s2);
    var e4, s4 := WriteOne(1, e3, s3);
    var e5, s5 := FlushOne(1, e4, s4);
    events, t := PublishOne(1, e5, s5);
    var a :| s3.committed == [] + [a] && !a.readFailed;
    var b :| t.committed == s5.committed + [b] && !b.readFailed;
    assert t.committed == [a, b];
    TwoIncrements(a, b);
  }

  /** Without the lock the guarantee fails: two increments of a missing counter leave 1, not 2. */
  lemma LockIsNeeded()
    ensures exists events, t ::
              && Init(NoFile()) && Run(Counter(), NoFile(), events) == Some(t)
              && MainFile(t) != Fold(Counter(), MainFile(NoFile()), t.committed)
  {
    var events, t := LostUpdate();
    assert Init(NoFile()) && MainFile(NoFile()) == None;
  }
}
