/** What `update_json_locked` returns (kaine/state_io.py:93-111): the value whose encoding the call has
    made the content of the file. */
module StateIoValues {
  import opened Wrappers
  import opened StateIo
  import opened StateIoInvariant
  import opened StateIoReads
  import opened StateIoGuarantees

  /** The call has a serialised value that it has not published yet. */
  predicate HasData<J>(pc: Pc<J>) { pc.Encoded? || pc.Writing? || pc.Synced? }

  ghost predicate DataInv<J>(h: Host<J>, s: State<J>) {
    forall p | p in s.procs && HasData(s.procs[p]) ::
      s.procs[p].call in s.values && h.encode(s.values[s.procs[p].call]) == Some(s.procs[p].data)
  }

  /** Each version is the encoding of the value its call has computed. */
  ghost predicate VersionInv<J>(h: Host<J>, s: State<J>) {
    forall k | 0 <= k < |s.committed| ::
      s.committed[k].call in s.values && h.encode(s.values[s.committed[k].call]) == FileAfter(h, s, k + 1)
  }

  ghost predicate ResultInv<J>(s: State<J>) {
    forall c | c in s.returned :: c in s.values && s.returned[c] == s.values[c]
  }

  ghost predicate ValueInv<J>(h: Host<J>, s: State<J>) { DataInv(h, s) && VersionInv(h, s) && ResultInv(s) }

  // ------------------------------------------------------------------ the steps

  /** A step that computes, publishes and returns nothing. */
  predicate Quiet(e: Event) { !e.Compute? && !e.Replace? && !e.Return? && !e.PowerLoss? }

  /** The values, versions and results stay, and so does the data of each call. */
  ghost predicate SameValues<J>(s: State<J>, t: State<J>) {
    && t.values == s.values && t.returned == s.returned && t.committed == s.committed
    && (forall q | q in t.procs && HasData(t.procs[q]) ::
          && q in s.procs && HasData(s.procs[q])
          && s.procs[q].call == t.procs[q].call && s.procs[q].data == t.procs[q].data)
  }

  /** One process moved to a place where it has no data. */
  lemma NoDataSameValues<J>(s: State<J>, p: Pid, t: State<J>)
    requires p in s.procs && p in t.procs && t.procs == s.procs[p := t.procs[p]] && !HasData(t.procs[p])
    requires t.values == s.values && t.returned == s.returned && t.committed == s.committed
    ensures SameValues(s, t)
  {}

  lemma ReadSameValues<J>(h: Host<J>, s: State<J>, e: Event, t: State<J>)
    requires Step(h, s, e) == Some(t) && Reads(e)
    ensures SameValues(s, t)
  {
    NoDataSameValues(s, e.p, t);
  }

  lemma WriteSameValues<J>(h: Host<J>, s: State<J>, e: Event, t: State<J>)
    requires Step(h, s, e) == Some(t) && (e.CreateTemp? || e.WriteChunk? || e.Fsync? || e.Fail?)
    ensures SameValues(s, t)
  {}

  lemma RaiseSameValues<J>(s: State<J>, p: Pid, t: State<J>)
    requires p in s.procs && DoRaise(s, p, s.procs[p]) == Some(t)
    ensures SameValues(s, t)
  {}

  lemma UnlinkSameValues<J>(s: State<J>, p: Pid, removed: bool, t: State<J>)
    requires p in s.procs && DoUnlink(s, p, s.procs[p], removed) == Some(t)
    ensures SameValues(s, t)
  {}

  lemma LeaveSameValues<J>(h: Host<J>, s: State<J>, e: Event, t: State<J>)
    requires Step(h, s, e) == Some(t) && (e.Crash? || e.PeekEnd?)
    ensures SameValues(s, t)
  {}

  lemma QuietStep<J>(h: Host<J>, s: State<J>, e: Event, t: State<J>)
    requires Quiet(e) && Step(h, s, e) == Some(t)
    ensures SameValues(s, t)
  {
    if Reads(e) {
      ReadSameValues(h, s, e, t);
    } else if e.CreateTemp? || e.WriteChunk? || e.Fsync? || e.Fail? {
      WriteSameValues(h, s, e, t);
    } else if e.Raise? {
      RaiseSameValues(s, e.p, t);
    } else if e.Unlink? {
      UnlinkSameValues(s, e.p, e.removed, t);
    } else if e.Crash? || e.PeekEnd? {
      LeaveSameValues(h, s, e, t);
    }
  }

  /** The versions there were stay as they were. */
  lemma SameVersions<J>(h: Host<J>, s: State<J>, t: State<J>)
    requires Contents(t, t.origin) == Contents(s, s.origin) && s.committed <= t.committed
    ensures forall k | 0 <= k <= |s.committed| :: FileAfter(h, t, k) == FileAfter(h, s, k)
  {
    forall k | 0 <= k <= |s.committed| ensures FileAfter(h, t, k) == FileAfter(h, s, k) {
      assert t.committed[..k] == s.committed[..k];
      FileAfterFrame(h, s, t, k);
    }
  }

  lemma QuietValue<J>(h: Host<J>, s: State<J>, e: Event, t: State<J>)
    requires Inv(h, s) && ValueInv(h, s) && Quiet(e) && Step(h, s, e) == Some(t)
    ensures ValueInv(h, t)
  {
    QuietStep(h, s, e, t);
    StepKeepsOrigin(h, s, e, t);
    SameVersions(h, s, t);
  }

  /** A call computes its value while it holds the lock, before it has committed or returned. */
  lemma ComputedCall<J>(h: Host<J>, s: State<J>, p: Pid)
    requires Inv(h, s) && p in s.procs && s.procs[p].Loaded?
    ensures s.procs[p].call !in Calls(s.committed) && s.procs[p].call !in s.returned
    ensures forall q | q in s.procs && q != p :: !HasData(s.procs[q])
  {
    assert PcInv(h, s, p, s.procs[p]);
    forall q | q in s.procs && q != p ensures !HasData(s.procs[q]) { assert PcInv(h, s, q, s.procs[q]); }
  }

  lemma ComputeValue<J>(h: Host<J>, s: State<J>, p: Pid, t: State<J>)
    requires Inv(h, s) && ValueInv(h, s) && p in s.procs && DoCompute(h, s, p, s.procs[p]) == Some(t)
    ensures ValueInv(h, t)
  {
    ComputedCall(h, s, p);
    SameVersions(h, s, t);
    OtherValue(h, s, t, s.procs[p].call);
    OnlyData(h, s, p, t);
  }

  /** Nobody else has data, and what the process has is the encoding of its value. */
  lemma OnlyData<J>(h: Host<J>, s: State<J>, p: Pid, t: State<J>)
    requires p in s.procs && DoCompute(h, s, p, s.procs[p]) == Some(t)
    requires forall q | q in s.procs && q != p :: !HasData(s.procs[q])
    ensures DataInv(h, t)
  {}

  /** A value of a call that has committed nothing is no version's. */
  lemma OtherValue<J>(h: Host<J>, s: State<J>, t: State<J>, c: CallId)
    requires VersionInv(h, s) && t.committed == s.committed && c !in Calls(s.committed)
    requires forall d | d in s.values && d != c :: d in t.values && t.values[d] == s.values[d]
    requires forall k | 0 <= k <= |s.committed| :: FileAfter(h, t, k) == FileAfter(h, s, k)
    ensures VersionInv(h, t)
  {
    forall k | 0 <= k < |t.committed|
      ensures t.committed[k].call in t.values && h.encode(t.values[t.committed[k].call]) == FileAfter(h, t, k + 1)
    {
      assert s.committed[k] in s.committed && s.committed[k].call in Calls(s.committed);
    }
  }

  lemma ReplaceValue<J>(h: Host<J>, s: State<J>, p: Pid, t: State<J>)
    requires Inv(h, s) && ValueInv(h, s) && p in s.procs && DoReplace(s, p, s.procs[p]) == Some(t)
    ensures ValueInv(h, t)
  {
    var pc := s.procs[p];
    ReplaceHistory(h, s, p, t);
    MoreVersions(h, s, t, t.committed[|s.committed|], pc.data);
  }

  /** One more version, the encoding of the value of its call. */
  lemma MoreVersions<J>(h: Host<J>, s: State<J>, t: State<J>, e: Entry, data: Bytes)
    requires VersionInv(h, s) && t.committed == s.committed + [e] && t.values == s.values
    requires e.call in s.values && h.encode(s.values[e.call]) == Some(data)
    requires forall k | 0 <= k <= |s.committed| :: FileAfter(h, t, k) == FileAfter(h, s, k)
    requires FileAfter(h, t, |t.committed|) == Some(data)
    ensures VersionInv(h, t)
  {
    forall k | 0 <= k < |t.committed|
      ensures t.committed[k].call in t.values && h.encode(t.values[t.committed[k].call]) == FileAfter(h, t, k + 1)
    {
      if k < |s.committed| { assert t.committed[k] == s.committed[k]; }
    }
  }

  lemma ReturnValue<J>(h: Host<J>, s: State<J>, p: Pid, t: State<J>)
    requires Inv(h, s) && ValueInv(h, s) && p in s.procs && DoReturn(s, p, s.procs[p]) == Some(t)
    ensures ValueInv(h, t)
  {
    SameVersions(h, s, t);
  }

  lemma PowerLossValue<J>(h: Host<J>, s: State<J>, kept: nat, cut: map<Inode, nat>, t: State<J>)
    requires Inv(h, s) && ValueInv(h, s) && DoPowerLoss(s, kept, cut) == Some(t)
    requires Contents(t, t.origin) == Contents(s, s.origin)
    ensures ValueInv(h, t)
  {
    SameVersions(h, t, s);
  }

  /** Every step keeps the values, versions and results in agreement. */
  lemma StepValue<J>(h: Host<J>, s: State<J>, e: Event, t: State<J>)
    requires Inv(h, s) && ValueInv(h, s) && Step(h, s, e) == Some(t)
    ensures ValueInv(h, t)
  {
    if Quiet(e) {
      QuietValue(h, s, e, t);
    } else if e.PowerLoss? {
      StepKeepsOrigin(h, s, e, t);
      PowerLossValue(h, s, e.kept, e.cut, t);
    } else {
      HolderValue(h, s, e, t);
    }
  }

  lemma HolderValue<J>(h: Host<J>, s: State<J>, e: Event, t: State<J>)
    requires Inv(h, s) && ValueInv(h, s) && Step(h, s, e) == Some(t) && (e.Compute? || e.Replace? || e.Return?)
    ensures ValueInv(h, t)
  {
    match e
    case Compute(p) => ComputeValue(h, s, p, t);
    case Replace(p) => ReplaceValue(h, s, p, t);
    case Return(p) => ReturnValue(h, s, p, t);
  }

  lemma {:induction false} RunValue<J>(h: Host<J>, s: State<J>, events: seq<Event>, t: State<J>)
    requires h.flock && Init(s) && Run(h, s, events) == Some(t)
    ensures ValueInv(h, t)
  {
    if events != [] {
      var front := events[..|events| - 1];
      var u := Run(h, s, front).value;
      RunValue(h, s, front, u);
      RunInv(h, s, front, u);
      StepValue(h, u, events[|events| - 1], t);
    }
  }

  // ------------------------------------------------------------------ main results

  /** A call that has returned since the last power loss has committed exactly one version, and has
      returned the value whose encoding that version is: what its `fn` made of the version before, or of
      the default where it could not read a value. */
  lemma ReturnedValue<J>(h: Host<J>, s: State<J>, events: seq<Event>, t: State<J>, c: CallId) returns (k: nat)
    requires h.flock && Init(s) && Run(h, s, events) == Some(t) && c in t.returned
    ensures k < |t.committed| && t.committed[k].call == c
    ensures forall j | 0 <= j < |t.committed| && t.committed[j].call == c :: j == k
    ensures h.encode(t.returned[c]) == Fold(h, MainFile(s), t.committed[..k + 1])
    ensures Follows(h, c, c in FailedReads(h, s, events), Fold(h, MainFile(s), t.committed[..k]), h.encode(t.returned[c]))
  {
    RunInv(h, s, events, t);
    RunValue(h, s, events, t);
    k := CommittedAt(h, t, c);
    assert h.encode(t.values[c]) == FileAfter(h, t, k + 1);
    ExactlyOnceInLockOrder(h, s, events, t);
  }

  /** A committed call has one place in the log. */
  lemma CommittedAt<J>(h: Host<J>, s: State<J>, c: CallId) returns (k: nat)
    requires Inv(h, s) && c in Calls(s.committed)
    ensures k < |s.committed| && s.committed[k].call == c
    ensures forall j | 0 <= j < |s.committed| && s.committed[j].call == c :: j == k
  {
    var e :| e in s.committed && e.call == c;
    k :| 0 <= k < |s.committed| && s.committed[k] == e;
    forall j | 0 <= j < |s.committed| && s.committed[j].call == c ensures j == k {
      assert s.committed[j] in s.committed && s.committed[k] in s.committed;
      var a, b := s.committed[j].ticket, s.committed[k].ticket;
      assert s.acquired[a] == s.acquired[b] == c;
      assert a == b;
    }
  }

  /** A call that has published its value can always return. */
  lemma CanReturn<J>(h: Host<J>, s: State<J>, events: seq<Event>, t: State<J>, p: Pid)
    requires h.flock && Init(s) && Run(h, s, events) == Some(t) && p in t.procs && t.procs[p].Replaced?
    ensures DoReturn(t, p, t.procs[p]).Some?
  {
    RunInv(h, s, events, t);
    RunValue(h, s, events, t);
    assert PcInv(h, t, p, t.procs[p]);
    var e :| e in t.committed && e.call == t.procs[p].call;
    var k :| 0 <= k < |t.committed| && t.committed[k] == e;
  }
}
