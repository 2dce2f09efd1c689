/** A call that nothing disturbs completes, from wherever it stands, and no failure is ruled out
    (kaine/state_io.py). */
module StateIoProgress {
  import opened Wrappers
  import opened StateIo
  import opened StateIoInvariant
  import opened StateIoReads
  import opened StateIoGuarantees
  import opened StateIoValues

  lemma {:induction false} FreshInode(used: set<Inode>) returns (i: Inode)
    ensures forall u | u in used :: u < i
  {
    if used == {} {
      i := 0;
    } else {
      var u :| u in used;
      var j := FreshInode(used - {u});
      i := if u < j then j else u + 1;
      assert forall v | v in used :: v == u || v in used - {u};
    }
  }

  /** A run goes on from the state another one has reached. */
  lemma {:induction false} RunOn<J>(h: Host<J>, s: State<J>, events: seq<Event>, t: State<J>, more: seq<Event>)
    requires Run(h, s, events) == Some(t)
    ensures Run(h, s, events + more) == Run(h, t, more)
  {
    if more == [] {
      assert events + more == events;
    } else {
      RunOn(h, s, events, t, more[..|more| - 1]);
      assert (events + more)[..|events + more| - 1] == events + more[..|more| - 1];
    }
  }

  // ------------------------------------------------------------------ the end of a call

  /** The call of `p` has returned: its value is in the file and was given back, the lock is free, and
      everybody else is where they were. */
  ghost predicate Completed<J>(h: Host<J>, s: State<J>, p: Pid, value: J, t: State<J>)
    requires p in s.procs && !s.procs[p].Peeking?
  {
    var c := s.procs[p].call;
    && t.procs == s.procs - {p} && t.lock.None?
    && t.returned == s.returned[c := value]
    && h.encode(value).Some? && MainFile(t) == h.encode(value)
    && (exists e :: e in t.committed && t.committed == s.committed + [e] && e.call == c)
    && t.temps == (if s.procs[p].OwnsTemp() then s.temps - {s.procs[p].tmp} else s.temps)
    && t.leaked == s.leaked && t.dropped == s.dropped && t.raised == s.raised
  }

  /** The value of `p` is serialised, and what its temporary file still lacks is at hand. */
  ghost predicate Ready<J>(h: Host<J>, s: State<J>, p: Pid, value: J) {
    && p in s.procs && HasData(s.procs[p]) && s.acquired != []
    && h.encode(value) == Some(s.procs[p].data)
    && s.procs[p].call in s.values && s.values[s.procs[p].call] == value
    && (s.procs[p].Encoded? ==> s.temps <= s.inodes.Keys)
    && (s.procs[p].OwnsTemp() ==> s.procs[p].tmp in s.inodes)
    && (s.procs[p].Writing? ==> s.inodes[s.procs[p].tmp] + s.procs[p].view == s.procs[p].data)
    && (s.procs[p].Synced? ==> s.inodes[s.procs[p].tmp] == s.procs[p].data)
  }

  lemma ReadyNow<J>(h: Host<J>, s: State<J>, p: Pid, value: J)
    requires Inv(h, s) && ValueInv(h, s) && p in s.procs && HasData(s.procs[p])
    requires s.procs[p].call in s.values && s.values[s.procs[p].call] == value
    ensures Ready(h, s, p, value)
  {
    assert PcInv(h, s, p, s.procs[p]);
  }

  /** A run of one event. */
  lemma Once<J>(h: Host<J>, s: State<J>, e: Event, t: State<J>)
    requires Step(h, s, e) == Some(t)
    ensures Run(h, s, [e]) == Some(t)
  {
    assert [e][..0] == [] && Run(h, s, []) == Some(s);
  }

  /** One event, and then a run. */
  lemma Then<J>(h: Host<J>, s: State<J>, e: Event, t: State<J>, rest: seq<Event>, u: State<J>)
    requires Step(h, s, e) == Some(t) && Run(h, t, rest) == Some(u)
    ensures Run(h, s, [e] + rest) == Some(u)
  {
    Once(h, s, e, t);
    RunOn(h, s, [e], t, rest);
  }

  lemma FromSynced<J>(h: Host<J>, s: State<J>, p: Pid, value: J) returns (more: seq<Event>, t: State<J>)
    requires Ready(h, s, p, value) && s.procs[p].Synced?
    ensures Run(h, s, more) == Some(t) && Completed(h, s, p, value, t)
  {
    var u := DoReplace(s, p, s.procs[p]).value;
    t := DoReturn(u, p, u.procs[p]).value;
    Once(h, u, Return(p), t);
    more := [Replace(p)] + [Return(p)];
    Then(h, s, Replace(p), u, [Return(p)], t);
    assert t.procs == s.procs - {p};
    assert t.committed[|s.committed|] in t.committed;
  }

  lemma FromFlushed<J>(h: Host<J>, s: State<J>, p: Pid, value: J) returns (more: seq<Event>, t: State<J>)
    requires Ready(h, s, p, value) && s.procs[p].Writing? && s.procs[p].view == []
    ensures Run(h, s, more) == Some(t) && Completed(h, s, p, value, t)
  {
    var u := DoFsync(s, p, s.procs[p]).value;
    more, t := FromSynced(h, u, p, value);
    Then(h, s, Fsync(p), u, more, t);
    more := [Fsync(p)] + more;
    assert u.procs - {p} == s.procs - {p};
  }

  lemma FromWriting<J>(h: Host<J>, s: State<J>, p: Pid, value: J) returns (more: seq<Event>, t: State<J>)
    requires Ready(h, s, p, value) && s.procs[p].Writing?
    ensures Run(h, s, more) == Some(t) && Completed(h, s, p, value, t)
  {
    var pc := s.procs[p];
    assert pc.view[..|pc.view|] == pc.view && pc.view[|pc.view|..] == [];
    var u := DoWriteChunk(s, p, pc, |pc.view|).value;
    more, t := FromFlushed(h, u, p, value);
    Then(h, s, WriteChunk(p, |pc.view|), u, more, t);
    more := [WriteChunk(p, |pc.view|)] + more;
    assert u.procs - {p} == s.procs - {p};
  }

  lemma FromEncoded<J>(h: Host<J>, s: State<J>, p: Pid, value: J) returns (more: seq<Event>, t: State<J>)
    requires Ready(h, s, p, value) && s.procs[p].Encoded?
    ensures Run(h, s, more) == Some(t) && Completed(h, s, p, value, t)
  {
    var tmp := FreshInode(s.inodes.Keys);
    var u := DoCreateTemp(s, p, s.procs[p], tmp).value;
    more, t := FromWriting(h, u, p, value);
    Then(h, s, CreateTemp(p, tmp), u, more, t);
    more := [CreateTemp(p, tmp)] + more;
    assert u.procs - {p} == s.procs - {p} && tmp !in s.temps;
  }

  /** The call of `p` has raised: the file is as it was, the lock is free and no temporary file is left. */
  ghost predicate Gone<J>(s: State<J>, p: Pid, t: State<J>)
    requires p in s.procs && !s.procs[p].Peeking?
  {
    && t.procs == s.procs - {p} && t.lock.None? && t.raised == s.raised + {s.procs[p].call}
    && MainFile(t) == MainFile(s) && t.committed == s.committed && t.returned == s.returned
    && t.temps == (if s.procs[p].OwnsTemp() then s.temps - {s.procs[p].tmp} else s.temps)
    && t.leaked == s.leaked && t.dropped == s.dropped
  }

  lemma FromRaising<J>(h: Host<J>, s: State<J>, p: Pid) returns (more: seq<Event>, t: State<J>)
    requires p in s.procs && s.procs[p].Raising?
    ensures Run(h, s, more) == Some(t) && Gone(s, p, t)
  {
    t := DoRaise(s, p, s.procs[p]).value;
    more := [Raise(p)];
    Once(h, s, Raise(p), t);
  }

  lemma FromFailing<J>(h: Host<J>, s: State<J>, p: Pid) returns (more: seq<Event>, t: State<J>)
    requires p in s.procs && s.procs[p].Failing?
    ensures Run(h, s, more) == Some(t) && Gone(s, p, t)
  {
    var u := DoUnlink(s, p, s.procs[p], true).value;
    more, t := FromRaising(h, u, p);
    Then(h, s, Unlink(p, true), u, more, t);
    more := [Unlink(p, true)] + more;
    assert u.procs - {p} == s.procs - {p};
  }

  /** A call that fails before it has published anything removes its temporary file and raises. */
  lemma FailedCallCleansUp<J>(h: Host<J>, s: State<J>, p: Pid) returns (more: seq<Event>, t: State<J>)
    requires p in s.procs && s.procs[p].HoldsLock()
    requires !s.procs[p].Replaced? && !s.procs[p].Failing? && !s.procs[p].Raising?
    ensures more != [] && more[0] == Fail(p) && Run(h, s, more) == Some(t) && Gone(s, p, t)
  {
    var u := DoFail(s, p, s.procs[p]).value;
    if u.procs[p].Failing? {
      more, t := FromFailing(h, u, p);
    } else {
      more, t := FromRaising(h, u, p);
    }
    Then(h, s, Fail(p), u, more, t);
    more := [Fail(p)] + more;
    assert u.procs - {p} == s.procs - {p};
  }

  // ------------------------------------------------------------------ the whole call

  /** What becomes of a call that is given `current`: it completes, or it raises as `fn` or the
      serialisation does. */
  ghost predicate Ended<J>(h: Host<J>, s: State<J>, p: Pid, current: J, t: State<J>)
    requires p in s.procs && !s.procs[p].Peeking?
  {
    match h.fn(s.procs[p].call, current)
    case None => Gone(s, p, t)
    case Some(u) => if h.encode(u).None? then Gone(s, p, t) else Completed(h, s, p, u, t)
  }

  lemma FromLoaded<J>(h: Host<J>, s: State<J>, p: Pid) returns (more: seq<Event>, t: State<J>)
    requires p in s.procs && s.procs[p].Loaded? && s.acquired != [] && s.temps <= s.inodes.Keys
    ensures Run(h, s, more) == Some(t) && Ended(h, s, p, s.procs[p].current, t)
  {
    var u := DoCompute(h, s, p, s.procs[p]).value;
    if u.procs[p].Raising? {
      more, t := FromRaising(h, u, p);
    } else {
      more, t := FromEncoded(h, u, p, u.values[u.procs[p].call]);
    }
    Then(h, s, Compute(p), u, more, t);
    more := [Compute(p)] + more;
    assert u.procs - {p} == s.procs - {p};
  }

  lemma FromReading<J>(h: Host<J>, s: State<J>, p: Pid) returns (more: seq<Event>, t: State<J>)
    requires p in s.procs && s.procs[p].Reading? && s.acquired != [] && s.temps <= s.inodes.Keys
    requires s.procs[p].file in s.inodes && s.procs[p].buf <= s.inodes[s.procs[p].file]
    requires s.main == Some(s.procs[p].file)
    ensures Run(h, s, more) == Some(t) && Ended(h, s, p, ReadValue(h, s.procs[p].call, MainFile(s), false), t)
  {
    var pc := s.procs[p];
    var bytes := s.inodes[pc.file];
    var u := DoReadChunk(s, p, pc, |bytes|).value;
    assert u.procs[p].buf == bytes;
    var v := DoReadEnd(h, u, p, u.procs[p]).value;
    more, t := FromLoaded(h, v, p);
    Then(h, u, ReadEnd(p), v, more, t);
    Then(h, s, ReadChunk(p, |bytes|), u, [ReadEnd(p)] + more, t);
    more := [ReadChunk(p, |bytes|)] + ([ReadEnd(p)] + more);
    assert v.procs - {p} == s.procs - {p};
  }

  lemma FromLocked<J>(h: Host<J>, s: State<J>, p: Pid) returns (more: seq<Event>, t: State<J>)
    requires p in s.procs && s.procs[p].Locked? && s.acquired != [] && s.temps <= s.inodes.Keys
    requires s.main.Some? ==> s.main.value in s.inodes
    ensures Run(h, s, more) == Some(t) && Ended(h, s, p, ReadValue(h, s.procs[p].call, MainFile(s), false), t)
  {
    var u := DoOpen(h, s, p, s.procs[p]).value;
    if s.main.Some? {
      more, t := FromReading(h, u, p);
    } else {
      more, t := FromLoaded(h, u, p);
    }
    Then(h, s, Open(p), u, more, t);
    more := [Open(p)] + more;
    assert u.procs - {p} == s.procs - {p};
  }

  lemma FromWaiting<J>(h: Host<J>, s: State<J>, p: Pid) returns (more: seq<Event>, t: State<J>)
    requires p in s.procs && s.procs[p].Waiting? && s.lock.None? && s.temps <= s.inodes.Keys
    requires s.main.Some? ==> s.main.value in s.inodes
    ensures Run(h, s, more) == Some(t) && Ended(h, s, p, ReadValue(h, s.procs[p].call, MainFile(s), false), t)
  {
    var u := DoAcquire(h, s, p, s.procs[p]).value;
    more, t := FromLocked(h, u, p);
    Then(h, s, Acquire(p), u, more, t);
    more := [Acquire(p)] + more;
    assert u.procs - {p} == s.procs - {p};
  }

  lemma EndedFollows<J>(h: Host<J>, s: State<J>, p: Pid, t: State<J>)
    requires p in s.procs && !s.procs[p].Peeking?
    requires Ended(h, s, p, ReadValue(h, s.procs[p].call, MainFile(s), false), t)
    ensures if exists after :: Follows(h, s.procs[p].call, false, MainFile(s), after)
            then exists value :: Completed(h, s, p, value, t) && Follows(h, s.procs[p].call, false, MainFile(s), MainFile(t))
            else Gone(s, p, t)
  {
    var c := s.procs[p].call;
    var u := h.fn(c, ReadValue(h, c, MainFile(s), false));
    if u.Some? && h.encode(u.value).Some? {
      assert Follows(h, c, false, MainFile(s), h.encode(u.value));
      assert Completed(h, s, p, u.value, t);
    }
  }

  // ------------------------------------------------------------------ main results

  /** From every reachable state a call that has not read yet, and whose lock is free or its own, can run
      to its end when nothing disturbs it: it leaves in the file what `fn` makes of the file, returns
      that value and frees the lock, or, when `fn` or the serialisation raises, it raises and leaves the
      file as it was. */
  lemma UndisturbedCallEnds<J>(h: Host<J>, s: State<J>, events: seq<Event>, t: State<J>, p: Pid)
    returns (more: seq<Event>, u: State<J>)
    requires h.flock && Init(s) && Run(h, s, events) == Some(t) && p in t.procs
    requires (t.procs[p].Waiting? && t.lock.None?) || t.procs[p].Locked? || t.procs[p].Reading?
    ensures Run(h, t, more) == Some(u)
    ensures if exists after :: Follows(h, t.procs[p].call, false, MainFile(t), after)
            then exists value :: Completed(h, t, p, value, u) && Follows(h, t.procs[p].call, false, MainFile(t), MainFile(u))
            else Gone(t, p, u)
  {
    RunInv(h, s, events, t);
    assert PcInv(h, t, p, t.procs[p]);
    MainHere(h, t);
    if t.procs[p].Waiting? {
      more, u := FromWaiting(h, t, p);
    } else if t.procs[p].Locked? {
      more, u := FromLocked(h, t, p);
    } else {
      more, u := FromReading(h, t, p);
    }
    EndedFollows(h, t, p, u);
  }

  lemma MainHere<J>(h: Host<J>, s: State<J>)
    requires FilesInv(h, s)
    ensures s.temps <= s.inodes.Keys && (s.main.Some? ==> s.main.value in s.inodes)
  {
    if |s.published| > 0 { assert s.published[|s.published| - 1] in s.published; }
  }

  /** How the lock holder `p` ends its call when nothing disturbs it: with the value it has serialised, or as
      `fn` makes of the value it has read, or as it was about to. */
  ghost predicate EndOf<J>(h: Host<J>, s: State<J>, p: Pid, t: State<J>)
    requires p in s.procs && !s.procs[p].Peeking?
  {
    var pc := s.procs[p];
    && t.procs == s.procs - {p} && t.lock.None?
    && (pc.Loaded? ==> Ended(h, s, p, pc.current, t))
    && (HasData(pc) ==> pc.call in s.values && Completed(h, s, p, s.values[pc.call], t))
    && (pc.Replaced? ==> pc.call in s.values && t.returned == s.returned[pc.call := s.values[pc.call]])
    && (pc.Failing? || pc.Raising? ==> Gone(s, p, t))
  }

  lemma ReaderEnds<J>(h: Host<J>, s: State<J>, p: Pid) returns (more: seq<Event>, t: State<J>)
    requires p in s.procs && (s.procs[p].Locked? || s.procs[p].Reading? || s.procs[p].Loaded?)
    requires s.acquired != [] && s.temps <= s.inodes.Keys && (s.main.Some? ==> s.main.value in s.inodes)
    requires s.procs[p].Reading? ==> && s.procs[p].file in s.inodes && s.procs[p].buf <= s.inodes[s.procs[p].file]
                                     && s.main == Some(s.procs[p].file)
    ensures Run(h, s, more) == Some(t) && EndOf(h, s, p, t)
  {
    if s.procs[p].Loaded? {
      more, t := FromLoaded(h, s, p);
    } else if s.procs[p].Locked? {
      more, t := FromLocked(h, s, p);
    } else {
      more, t := FromReading(h, s, p);
    }
  }

  lemma LeaverEnds<J>(h: Host<J>, s: State<J>, p: Pid) returns (more: seq<Event>, t: State<J>)
    requires p in s.procs && (s.procs[p].Replaced? || s.procs[p].Failing? || s.procs[p].Raising?)
    requires s.procs[p].Replaced? ==> DoReturn(s, p, s.procs[p]).Some?
    ensures Run(h, s, more) == Some(t) && EndOf(h, s, p, t)
  {
    if s.procs[p].Replaced? {
      t := DoReturn(s, p, s.procs[p]).value;
      more := [Return(p)];
      Once(h, s, Return(p), t);
    } else if s.procs[p].Failing? {
      more, t := FromFailing(h, s, p);
    } else {
      more, t := FromRaising(h, s, p);
    }
  }

  /** Nor is the lock ever stuck: whoever holds it, wherever in its call, can run to the end of it. */
  lemma HolderCanEnd<J>(h: Host<J>, s: State<J>, events: seq<Event>, t: State<J>, p: Pid)
    returns (more: seq<Event>, u: State<J>)
    requires h.flock && Init(s) && Run(h, s, events) == Some(t) && t.lock == Some(p)
    ensures p in t.procs && !t.procs[p].Peeking? && Run(h, t, more) == Some(u) && EndOf(h, t, p, u)
  {
    RunInv(h, s, events, t);
    assert PcInv(h, t, p, t.procs[p]);
    if HasData(t.procs[p]) {
      RunValue(h, s, events, t);
      more, u := FromData(h, t, p);
    } else if t.procs[p].Locked? || t.procs[p].Reading? || t.procs[p].Loaded? {
      MainHere(h, t);
      more, u := ReaderEnds(h, t, p);
    } else {
      if t.procs[p].Replaced? { CanReturn(h, s, events, t, p); }
      more, u := LeaverEnds(h, t, p);
    }
  }

  lemma FromData<J>(h: Host<J>, s: State<J>, p: Pid) returns (more: seq<Event>, t: State<J>)
    requires Inv(h, s) && ValueInv(h, s) && p in s.procs && HasData(s.procs[p])
    ensures s.procs[p].call in s.values && Run(h, s, more) == Some(t)
    ensures Completed(h, s, p, s.values[s.procs[p].call], t)
  {
    var value := s.values[s.procs[p].call];
    ReadyNow(h, s, p, value);
    if s.procs[p].Encoded? {
      more, t := FromEncoded(h, s, p, value);
    } else if s.procs[p].Writing? {
      more, t := FromWriting(h, s, p, value);
    } else {
      more, t := FromSynced(h, s, p, value);
    }
  }

  lemma PeekToEnd<J>(h: Host<J>, s: State<J>, p: Pid) returns (more: seq<Event>, t: State<J>)
    requires p in s.procs && s.procs[p].Peeking? && s.procs[p].buf == [] && s.procs[p].file in s.inodes
    ensures Run(h, s, more) == Some(t)
    ensures t == s.(procs := s.procs - {p}, seen := s.seen + [Sight(s.procs[p].version, s.inodes[s.procs[p].file])])
  {
    var bytes := s.inodes[s.procs[p].file];
    var u := DoPeekChunk(s, p, s.procs[p], |bytes|).value;
    assert u.procs[p].buf == bytes;
    t := DoPeekEnd(u, p, u.procs[p]).value;
    Once(h, u, PeekEnd(p), t);
    Then(h, s, PeekChunk(p, |bytes|), u, [PeekEnd(p)], t);
    more := [PeekChunk(p, |bytes|)] + [PeekEnd(p)];
    assert t.procs == s.procs - {p};
  }

  /** A reader that takes no lock can open the file at any time and read it to the end, and is then on
      record with the bytes of the file it opened. */
  lemma ReaderCanEnd<J>(h: Host<J>, s: State<J>, p: Pid) returns (more: seq<Event>, t: State<J>)
    requires p !in s.procs && s.main.Some? && s.main.value in s.inodes
    ensures Run(h, s, more) == Some(t)
    ensures MainFile(s).Some? && t == s.(seen := s.seen + [Sight(|s.committed|, MainFile(s).value)])
  {
    var u := Step(h, s, Peek(p)).value;
    more, t := PeekToEnd(h, u, p);
    Then(h, s, Peek(p), u, more, t);
    more := [Peek(p)] + more;
    assert t.procs == s.procs;
  }

  /** No failure is ruled out: in every state a process can die, a read can fail while the file is open, any
      call can start, and any part of what is left to write can be written. */
  lemma FaultsStayPossible<J>(h: Host<J>, s: State<J>, p: Pid, call: CallId, n: nat)
    ensures p !in s.procs && call !in s.started ==> Step(h, s, Start(p, call)).Some?
    ensures p in s.procs ==> Step(h, s, Crash(p)).Some?
    ensures p in s.procs && s.procs[p].Reading? ==> Step(h, s, ReadError(p)).Some?
    ensures p in s.procs && s.procs[p].Failing? ==> Step(h, s, Unlink(p, false)).Some?
    ensures p in s.procs && s.procs[p].Waiting? ==> Step(h, s, Raise(p)).Some?
    ensures p in s.procs && s.procs[p].Writing? && s.procs[p].tmp in s.inodes && n <= |s.procs[p].view| ==>
              Step(h, s, WriteChunk(p, n)).Some?
  {}

  /** Power can fail in every state: nobody runs on, any of the published versions can be the file
      afterwards, and what was not synced can be cut at any place. */
  lemma PowerCanFail<J>(h: Host<J>, s: State<J>, events: seq<Event>, t: State<J>, kept: nat, cut: map<Inode, nat>)
    returns (u: State<J>)
    requires h.flock && Init(s) && Run(h, s, events) == Some(t) && kept <= |t.committed|
    ensures Step(h, t, PowerLoss(kept, cut)) == Some(u)
    ensures u.procs == map[] && u.lock.None? && u.committed == t.committed[..kept]
    ensures MainFile(u) == Fold(h, MainFile(s), t.committed[..kept])
    ensures forall i | i in t.inodes && i !in t.synced && i in cut && cut[i] <= |t.inodes[i]| ::
              i in u.inodes && u.inodes[i] == t.inodes[i][..cut[i]]
  {
    RunInv(h, s, events, t);
    u := DoPowerLoss(t, kept, cut).value;
    Once(h, t, PowerLoss(kept, cut), u);
    RunOn(h, s, events, t, [PowerLoss(kept, cut)]);
    RunInv(h, s, events + [PowerLoss(kept, cut)], u);
    MainIsFold(h, u);
  }

  ghost predicate SameBooks<J>(s: State<J>, t: State<J>) {
    t.dropped == s.dropped && t.leaked == s.leaked && t.raised == s.raised
  }

  lemma ReadKeepsBooks<J>(h: Host<J>, s: State<J>, e: Event, t: State<J>)
    requires Step(h, s, e) == Some(t) && Reads(e)
    ensures SameBooks(s, t)
  {}

  lemma WriteKeepsBooks<J>(h: Host<J>, s: State<J>, e: Event, t: State<J>)
    requires Step(h, s, e) == Some(t) && Writes(e)
    ensures SameBooks(s, t)
  {}

  lemma MoveKeepsBooks<J>(h: Host<J>, s: State<J>, e: Event, t: State<J>)
    requires Step(h, s, e) == Some(t)
    requires e.Start? || e.Peek? || e.Compute? || e.Fail? || e.Return? || e.PeekEnd?
    ensures SameBooks(s, t)
  {}

  /** The books are honest: a call is dropped only when its process dies or power fails, a file leaked only
      then or when its unlink fails, and a call raises only by its own exception. */
  ghost predicate HonestBooks<J>(s: State<J>, e: Event, t: State<J>) {
    match e
    case Crash(p) =>
      && p in s.procs && t.raised == s.raised
      && t.dropped == (if s.procs[p].Peeking? then s.dropped else s.dropped + {s.procs[p].call})
      && t.leaked == (if s.procs[p].OwnsTemp() then s.leaked + {s.procs[p].tmp} else s.leaked)
    case PowerLoss(kept, _) =>
      && kept <= |s.committed| && t.raised == s.raised
      && t.dropped == s.dropped + Calls(s.committed[kept..]) + Pending(s) && t.leaked == s.leaked + s.temps
    case Unlink(p, removed) =>
      && p in s.procs && s.procs[p].Failing? && t.dropped == s.dropped && t.raised == s.raised
      && t.leaked == (if removed then s.leaked else s.leaked + {s.procs[p].tmp})
    case Raise(p) =>
      && p in s.procs && (s.procs[p].Waiting? || s.procs[p].Raising?)
      && t.dropped == s.dropped && t.leaked == s.leaked && t.raised == s.raised + {s.procs[p].call}
    case _ => SameBooks(s, t)
  }

  lemma LossesHaveCauses<J>(h: Host<J>, s: State<J>, e: Event, t: State<J>)
    requires Step(h, s, e) == Some(t)
    ensures HonestBooks(s, e, t)
  {
    if Reads(e) {
      ReadKeepsBooks(h, s, e, t);
    } else if Writes(e) {
      WriteKeepsBooks(h, s, e, t);
    } else if !e.Crash? && !e.PowerLoss? && !e.Unlink? && !e.Raise? {
      MoveKeepsBooks(h, s, e, t);
    }
  }

  /** A run can start over any file, or over none. */
  lemma AnyFileStarts<J>(file: Option<Bytes>) returns (s: State<J>)
    ensures Init(s) && MainFile(s) == file
  {
    var inodes: map<Inode, Bytes> := if file.Some? then map[0 := file.value] else map[];
    var origin := if file.Some? then Some(0) else None;
    s := State(inodes, inodes.Keys, origin, origin, {}, None, map[], {}, [], [], [], map[], map[], {}, {}, {}, []);
  }
}
