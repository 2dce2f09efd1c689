/** Which calls could not read the old file, and what each version owes to the one before it
    (kaine/state_io.py:102-109). */
module StateIoReads {
  import opened Wrappers
  import opened StateIo
  import opened StateIoInvariant

  /** The calls during which reading the old file failed with an I/O error. */
  ghost function FailedReads<J>(h: Host<J>, s: State<J>, events: seq<Event>): set<CallId> {
    if events == [] then {}
    else
      var front, last := events[..|events| - 1], events[|events| - 1];
      match Run(h, s, front)
      case None => {}
      case Some(u) => FailedReads(h, s, front) + NewFailure(u, last)
  }

  ghost function NewFailure<J>(s: State<J>, e: Event): set<CallId> {
    if e.ReadError? && e.p in s.procs && s.procs[e.p].Reading? then {s.procs[e.p].call} else {}
  }

  /** `after` is what `fn` makes of the file `before`: of its value, or of the default when the file is
      missing, does not decode, or could not be read. */
  ghost predicate Follows<J>(h: Host<J>, call: CallId, unread: bool, before: Option<Bytes>, after: Option<Bytes>) {
    var current := if unread || before.None? || h.decode(before.value).None? then h.default(call)
                   else h.decode(before.value).value;
    after.Some? && h.fn(call, current).Some? && h.encode(h.fn(call, current).value) == after
  }

  // ------------------------------------------------------------------ the steps

  ghost predicate HasRead<J>(pc: Pc<J>) { pc.Loaded? || pc.Encoded? || pc.Writing? || pc.Synced? }

  ghost predicate PcFlag<J>(pc: Pc<J>, failed: set<CallId>) {
    && (HasRead(pc) ==> (pc.readFailed <==> pc.call in failed))
    && (pc.Waiting? || pc.Locked? || pc.Reading? ==> pc.call !in failed)
  }

  /** `failed` are the calls whose read failed, as the processes and the log have it. */
  ghost predicate FlagInv<J>(s: State<J>, failed: set<CallId>) {
    && failed <= s.started
    && (forall p | p in s.procs :: PcFlag(s.procs[p], failed))
    && (forall e | e in s.committed :: e.readFailed <==> e.call in failed)
  }

  /** One process moved, and no read failed. */
  lemma FlagMove<J>(s: State<J>, t: State<J>, p: Pid, failed: set<CallId>)
    requires FlagInv(s, failed) && t.started == s.started && t.committed == s.committed
    requires forall q | q in t.procs && q != p :: q in s.procs && t.procs[q] == s.procs[q]
    requires p in t.procs ==> PcFlag(t.procs[p], failed)
    ensures FlagInv(t, failed)
  {}

  lemma FlagRead<J>(h: Host<J>, s: State<J>, e: Event, t: State<J>, failed: set<CallId>)
    requires FlagInv(s, failed) && Step(h, s, e) == Some(t) && Reads(e) && !e.ReadError?
    ensures FlagInv(t, failed)
  {
    assert PcFlag(s.procs[e.p], failed);
    FlagMove(s, t, e.p, failed);
  }

  lemma FlagCompute<J>(h: Host<J>, s: State<J>, e: Event, t: State<J>, failed: set<CallId>)
    requires FlagInv(s, failed) && Step(h, s, e) == Some(t) && (e.Compute? || e.Fail?)
    ensures FlagInv(t, failed)
  {
    assert PcFlag(s.procs[e.p], failed);
    FlagMove(s, t, e.p, failed);
  }

  lemma FlagTemp<J>(h: Host<J>, s: State<J>, e: Event, t: State<J>, failed: set<CallId>)
    requires FlagInv(s, failed) && Step(h, s, e) == Some(t) && (e.CreateTemp? || e.WriteChunk? || e.Fsync?)
    ensures FlagInv(t, failed)
  {
    assert PcFlag(s.procs[e.p], failed);
    FlagMove(s, t, e.p, failed);
  }

  lemma FlagExit<J>(h: Host<J>, s: State<J>, e: Event, t: State<J>, failed: set<CallId>)
    requires FlagInv(s, failed) && Step(h, s, e) == Some(t) && (e.Return? || e.Raise? || e.PeekEnd?)
    ensures FlagInv(t, failed)
  {
    assert PcFlag(s.procs[e.p], failed);
    FlagMove(s, t, e.p, failed);
  }

  lemma FlagDie<J>(h: Host<J>, s: State<J>, e: Event, t: State<J>, failed: set<CallId>)
    requires FlagInv(s, failed) && Step(h, s, e) == Some(t) && (e.Crash? || e.Unlink?)
    ensures FlagInv(t, failed)
  {
    assert PcFlag(s.procs[e.p], failed);
    FlagMove(s, t, e.p, failed);
  }

  lemma FlagReplace<J>(s: State<J>, p: Pid, t: State<J>, failed: set<CallId>)
    requires FlagInv(s, failed) && p in s.procs && DoReplace(s, p, s.procs[p]) == Some(t)
    ensures FlagInv(t, failed)
  {
    assert PcFlag(s.procs[p], failed);
  }

  /** The call that failed to read is nobody else's and has committed nothing. */
  lemma FlagError<J>(h: Host<J>, s: State<J>, p: Pid, t: State<J>, failed: set<CallId>)
    requires Inv(h, s) && FlagInv(s, failed) && p in s.procs && DoReadError(h, s, p, s.procs[p]) == Some(t)
    ensures FlagInv(t, failed + {s.procs[p].call})
  {
    var pc := s.procs[p];
    assert PcInv(h, s, p, pc);
    assert pc.call in s.acquired;
    forall q | q in t.procs ensures PcFlag(t.procs[q], failed + {pc.call}) {
      if q != p { assert PcInv(h, s, q, s.procs[q]); }
    }
    forall e | e in t.committed ensures e.readFailed <==> e.call in failed + {pc.call} {
      assert e.call in Calls(s.committed);
    }
  }

  lemma FlagNew<J>(s: State<J>, p: Pid, pc: Pc<J>, t: State<J>, failed: set<CallId>)
    requires FlagInv(s, failed) && (pc.Peeking? || (pc.Waiting? && pc.call !in s.started))
    requires t == Put(s, p, pc).(started := t.started) && s.started <= t.started
    ensures FlagInv(t, failed)
  {}

  lemma FlagPowerLoss<J>(s: State<J>, kept: nat, cut: map<Inode, nat>, t: State<J>, failed: set<CallId>)
    requires FlagInv(s, failed) && DoPowerLoss(s, kept, cut) == Some(t)
    ensures FlagInv(t, failed)
  {
    assert forall e | e in t.committed :: e in s.committed;
  }

  /** Every step keeps the flags in agreement with the failures there have been. */
  lemma StepFlag<J>(h: Host<J>, s: State<J>, e: Event, t: State<J>, failed: set<CallId>)
    requires Inv(h, s) && FlagInv(s, failed) && Step(h, s, e) == Some(t)
    ensures FlagInv(t, failed + NewFailure(s, e))
  {
    assert !e.ReadError? ==> failed + NewFailure(s, e) == failed;
    if e.ReadError? {
      FlagError(h, s, e.p, t, failed);
    } else if e.PowerLoss? {
      FlagPowerLoss(s, e.kept, e.cut, t, failed);
    } else if e.Start? || e.Peek? {
      FlagNew(s, e.p, t.procs[e.p], t, failed);
    } else if e.Replace? {
      FlagReplace(s, e.p, t, failed);
    } else if Reads(e) {
      FlagRead(h, s, e, t, failed);
    } else if e.Crash? || e.Unlink? {
      FlagDie(h, s, e, t, failed);
    } else if Leaves(e) {
      FlagExit(h, s, e, t, failed);
    } else if e.Compute? || e.Fail? {
      FlagCompute(h, s, e, t, failed);
    } else {
      FlagTemp(h, s, e, t, failed);
    }
  }

  /** An update that could be computed follows from the file it was computed on. */
  lemma UpdateFollows<J>(h: Host<J>, e: Entry, before: Option<Bytes>, after: Option<Bytes>)
    requires Update(h, e, before) == after && after.Some?
    ensures Follows(h, e.call, e.readFailed, before, after)
  {}
}
