/**
 * The desired perceptual state (kaine/perception_state.py): the locus, its lock and who holds it,
 * read from and written to one file by several processes without a lock on the file.
 */
module Perception {
  import opened Wrappers
  import opened AliasTable

  // ------------------------------------------------------------------ the file

  /** One entry of the JSON object as it is read. */
  datatype Field = Absent | Text(s: string) | Flag(b: bool) | Other(truthy: bool)

  datatype Fields = Fields(audio: Field, video: Field, locus: Field, locked: Field, lockedBy: Field)

  /** The file: absent, unreadable or not JSON; an object; a list of pairs, which `dict()` also takes;
      an empty value; or a value `dict()` refuses. */
  datatype File = Missing | Unreadable | Object(fields: Fields) | PairList(fields: Fields) | Falsy | Refused

  datatype Desired = Desired(audio: bool, video: bool, locus: string, locked: bool, lockedBy: string)

  const Loci: set<string> := {"physical", "virtual", "off"}

  const Default := Desired(false, false, "physical", false, "operator")

  predicate Valid(d: Desired) { d.locus in Loci && d.lockedBy in {"operator", "development"} }

  /** The stored-value aliases leave the two holders alone. */
  ghost predicate StoredOk(stored: seq<Alias>) { "operator" !in Olds(stored) && "development" !in Olds(stored) }

  function Truth(f: Field): bool {
    match f
    case Absent => false
    case Text(s) => s != ""
    case Flag(b) => b
    case Other(t) => t
  }

  predicate NamesLocus(f: Field) { f.Text? && f.s in Loci }

  function CoerceLocus(f: Field): string { if NamesLocus(f) then f.s else "physical" }

  function CoerceLockedBy(stored: seq<Alias>, f: Field): string {
    if f.Text? && NewName(stored, f.s) == "development" then "development" else "operator"
  }

  function FromDict(stored: seq<Alias>, f: Fields): (d: Desired)
    ensures Valid(d)
  {
    Desired(Truth(f.audio), Truth(f.video), CoerceLocus(f.locus), Truth(f.locked), CoerceLockedBy(stored, f.lockedBy))
  }

  function ToDict(d: Desired): Fields {
    Fields(Flag(d.audio), Flag(d.video), Text(d.locus), Flag(d.locked), Text(d.lockedBy))
  }

  predicate DevLocked(d: Desired) { d.locked && d.lockedBy == "development" }

  /** A development lock with no valid locus reads as the virtual locus; None when reading raises. */
  function ReadDesired(stored: seq<Alias>, file: File): Option<Desired> {
    match file
    case Missing => Some(Default)
    case Unreadable => Some(Default)
    case Falsy => Some(Default)
    case Refused => None
    case Object(f) =>
      var d := FromDict(stored, f);
      Some(if DevLocked(d) && !NamesLocus(f.locus) then d.(locus := "virtual") else d)
    case PairList(f) =>
      var d := FromDict(stored, f);
      Some(if DevLocked(d) then d.(locus := "virtual") else d)
  }

  lemma ReadValid(stored: seq<Alias>, file: File)
    requires ReadDesired(stored, file).Some?
    ensures Valid(ReadDesired(stored, file).value)
  {}

  /** What is written is what is read. */
  lemma RoundTrip(stored: seq<Alias>, d: Desired)
    requires StoredOk(stored) && Valid(d)
    ensures ReadDesired(stored, Object(ToDict(d))) == Some(d)
  {
    NewNameCases(stored, d.lockedBy);
  }

  // ------------------------------------------------------------------ the writers

  datatype Op =
    | Audio(active: bool)
    | Video(active: bool)
    | Locus(locus: string, locked: Option<bool>, holder: Option<string>)
    | Feed

  /** What a writer that has read `cur` writes; None when it returns `cur` and writes nothing. */
  function Written(stored: seq<Alias>, op: Op, cur: Desired): Option<Desired> {
    match op
    case Audio(active) => Some(cur.(audio := active))
    case Video(active) => Some(cur.(video := active))
    case Locus(locus, locked, holder) =>
      if DevLocked(cur) && holder != Some("development") then None
      else Some(cur.(locus := CoerceLocus(Text(locus)),
                     locked := if locked.Some? then locked.value else cur.locked,
                     lockedBy := if holder.Some? then CoerceLockedBy(stored, Text(holder.value)) else cur.lockedBy))
    case Feed =>
      if cur.locked then None else Some(cur.(locus := "virtual", audio := true, video := true))
  }

  /** The state file, with the source's four writers. */
  class DesiredFile {
    const stored: seq<Alias>
    var file: File

    constructor (stored: seq<Alias>, file: File)
      ensures this.stored == stored && this.file == file
    {
      this.stored, this.file := stored, file;
    }

    /** One writer that nobody interleaves with; None when reading raises. */
    method Write(op: Op) returns (result: Option<Desired>)
      modifies this`file
      ensures ReadDesired(stored, old(file)).None? ==> result == None && file == old(file)
      ensures ReadDesired(stored, old(file)).Some? ==>
                var cur := ReadDesired(stored, old(file)).value;
                && file == After(stored, op, old(file))
                && result == Some(if Written(stored, op, cur).Some? then Written(stored, op, cur).value else cur)
    {
      var read := ReadDesired(stored, file);
      if read.None? {
        return None;
      }
      var cur := read.value;
      match op {
        case Audio(active) =>
          cur := cur.(audio := active);
        case Video(active) =>
          cur := cur.(video := active);
        case Locus(locus, locked, holder) =>
          if DevLocked(cur) && holder != Some("development") {
            return Some(cur);
          }
          cur := cur.(locus := CoerceLocus(Text(locus)));
          if locked.Some? {
            cur := cur.(locked := locked.value);
          }
          if holder.Some? {
            cur := cur.(lockedBy := CoerceLockedBy(stored, Text(holder.value)));
          }
        case Feed =>
          if cur.locked {
            return Some(cur);
          }
          cur := cur.(locus := "virtual", audio := true, video := true);
      }
      file := Object(ToDict(cur));
      result := Some(cur);
    }
  }

  function After(stored: seq<Alias>, op: Op, file: File): File {
    match ReadDesired(stored, file)
    case None => file
    case Some(cur) => match Written(stored, op, cur) case Some(d) => Object(ToDict(d)) case None => file
  }

  /** What each writer, alone, changes of the state as it is read: a toggle its flag and nothing else; a feed,
      unless any lock is held, the locus and both flags; a locus change the locus, and the lock and the
      holder when it names them, unless the development gate holds the locus against it. */
  lemma WritersChange(stored: seq<Alias>, op: Op, file: File)
    requires StoredOk(stored) && ReadDesired(stored, file).Some?
    ensures ReadDesired(stored, After(stored, op, file)).Some?
    ensures var d, e := ReadDesired(stored, file).value, ReadDesired(stored, After(stored, op, file)).value;
            match op
            case Audio(active) => e == Desired(active, d.video, d.locus, d.locked, d.lockedBy)
            case Video(active) => e == Desired(d.audio, active, d.locus, d.locked, d.lockedBy)
            case Feed => e == if d.locked then d else Desired(true, true, "virtual", false, d.lockedBy)
            case Locus(l, locked, holder) =>
              if d.locked && d.lockedBy == "development" && holder != Some("development") then e == d
              else
                && e.audio == d.audio && e.video == d.video
                && e.locus == (if l == "virtual" || l == "off" then l else "physical")
                && e.locked == (if locked == None then d.locked else locked == Some(true))
                && (holder == None ==> e.lockedBy == d.lockedBy)
                && (holder == Some("development") ==> e.lockedBy == "development")
                && (holder == Some("operator") ==> e.lockedBy == "operator")
  {
    var d := ReadDesired(stored, file).value;
    ReadValid(stored, file);
    if op.Locus? {
      NewNameCases(stored, "development");
      NewNameCases(stored, "operator");
    }
    match Written(stored, op, d)
    case Some(e) => RoundTrip(stored, e);
    case None =>
  }

  /** How an object is read: what is absent, empty or false is false; a locus is one of the three or the
      physical one, but the virtual one under a development lock. */
  lemma ObjectReads(stored: seq<Alias>, f: Fields)
    requires StoredOk(stored)
    ensures ReadDesired(stored, Object(f)).Some?
    ensures var d, names := ReadDesired(stored, Object(f)).value,
                            f.locus == Text("physical") || f.locus == Text("virtual") || f.locus == Text("off");
            && (d.audio <==> f.audio !in {Absent, Text(""), Flag(false), Other(false)})
            && (d.video <==> f.video !in {Absent, Text(""), Flag(false), Other(false)})
            && (d.locked <==> f.locked !in {Absent, Text(""), Flag(false), Other(false)})
            && (names ==> Text(d.locus) == f.locus)
            && (!names ==> d.locus == if d.locked && d.lockedBy == "development" then "virtual" else "physical")
            && (f.lockedBy == Text("development") ==> d.lockedBy == "development")
            && (f.lockedBy == Text("operator") || !f.lockedBy.Text? ==> d.lockedBy == "operator")
  {
    NewNameCases(stored, "development");
    NewNameCases(stored, "operator");
  }

  /** Without a file, or with one that says nothing, both modalities are off, the locus is physical and
      nobody holds a lock. */
  lemma NothingReads(stored: seq<Alias>, file: File)
    ensures file.Missing? || file.Unreadable? || file.Falsy? ==>
              ReadDesired(stored, file) == Some(Desired(false, false, "physical", false, "operator"))
    ensures ReadDesired(stored, file) == None <==> file.Refused?
    ensures file.PairList? && StoredOk(stored) ==>
              var d, o := ReadDesired(stored, file).value, ReadDesired(stored, Object(file.fields)).value;
              d == if o.locked && o.lockedBy == "development" then o.(locus := "virtual") else o
  {}

  // ------------------------------------------------------------------ capture

  predicate RealAudio(d: Desired) { d.audio && d.locus == "physical" }
  predicate RealVideo(d: Desired) { d.video && d.locus == "physical" }
  predicate VirtualAudio(d: Desired) { d.audio && d.locus == "virtual" }
  predicate VirtualVideo(d: Desired) { d.video && d.locus == "virtual" }

  /** Exactly one of real capture, virtual capture and no capture, for each modality: a wanted
      modality captures unless the locus is off. */
  lemma CaptureExactly(stored: seq<Alias>, file: File)
    requires ReadDesired(stored, file).Some?
    ensures var d := ReadDesired(stored, file).value;
            && !(RealAudio(d) && VirtualAudio(d)) && !(RealVideo(d) && VirtualVideo(d))
            && (RealAudio(d) || VirtualAudio(d) <==> d.audio && d.locus != "off")
            && (RealVideo(d) || VirtualVideo(d) <==> d.video && d.locus != "off")
  {
    ReadValid(stored, file);
  }

  // ------------------------------------------------------------------ the lock, one writer at a time

  /** The development gate holds the locus at `locus`. */
  ghost predicate Held(stored: seq<Alias>, file: File, locus: string) {
    match ReadDesired(stored, file)
    case Some(d) => DevLocked(d) && d.locus == locus
    case None => false
  }

  /** Not the development holder itself. */
  ghost predicate Outside(op: Op) { op.Locus? ==> op.holder != Some("development") }

  lemma OutsideWriteKeeps(stored: seq<Alias>, op: Op, file: File, locus: string)
    requires StoredOk(stored) && Held(stored, file, locus) && Outside(op)
    ensures Held(stored, After(stored, op, file), locus)
  {
    var cur := ReadDesired(stored, file).value;
    ReadValid(stored, file);
    match Written(stored, op, cur)
    case Some(d) => RoundTrip(stored, d);
    case None =>
  }

  /** Whatever others write, one at a time, the development lock, its holder and the locus stay, and
      away from the physical locus the real microphone and camera stay off: `files` is the file after
      each of the writes `ops`. */
  lemma {:induction false} HeldThroughout(
      stored: seq<Alias>, ops: seq<Op>, files: seq<File>, i: nat, locus: string)
    requires StoredOk(stored) && i < |files| == |ops| + 1 && Held(stored, files[0], locus)
    requires forall j | 0 <= j < |ops| :: Outside(ops[j]) && files[j + 1] == After(stored, ops[j], files[j])
    ensures Held(stored, files[i], locus)
    ensures locus != "physical" ==>
              var d := ReadDesired(stored, files[i]).value; !RealAudio(d) && !RealVideo(d)
  {
    if i > 0 {
      HeldThroughout(stored, ops, files, i - 1, locus);
      OutsideWriteKeeps(stored, ops[i - 1], files[i - 1], locus);
    }
  }

  /** A development lock whose locus cannot be read confines to the virtual locus. */
  lemma UnreadableLocusConfines(stored: seq<Alias>, f: Fields)
    requires StoredOk(stored) && Truth(f.locked) && f.lockedBy == Text("development") && !NamesLocus(f.locus)
    ensures Held(stored, Object(f), "virtual")
  {
    NewNameCases(stored, "development");
  }

  // ------------------------------------------------------------------ writers that interleave

  /** A writer between its read and its write. */
  datatype Pending = Pending(op: Op, read: Desired)

  datatype State = State(file: File, pending: map<nat, Pending>)

  datatype Event = Begin(pid: nat, op: Op) | Commit(pid: nat)

  function Step(stored: seq<Alias>, s: State, e: Event): Option<State> {
    match e
    case Begin(pid, op) =>
      if pid in s.pending || ReadDesired(stored, s.file).None? then None
      else Some(s.(pending := s.pending[pid := Pending(op, ReadDesired(stored, s.file).value)]))
    case Commit(pid) =>
      if pid !in s.pending then None
      else
        var w := Written(stored, s.pending[pid].op, s.pending[pid].read);
        Some(State(if w.Some? then Object(ToDict(w.value)) else s.file, s.pending - {pid}))
  }

  function Run(stored: seq<Alias>, s: State, es: seq<Event>): Option<State>
    decreases es
  {
    if es == [] then Some(s)
    else match Step(stored, s, es[0]) case Some(t) => Run(stored, t, es[1..]) case None => None
  }

  ghost predicate OutsideEvent(e: Event) { e.Begin? ==> Outside(e.op) }

  /** What the writer will write does not lift the lock or move the locus. */
  ghost predicate Keeps(stored: seq<Alias>, p: Pending, locus: string) {
    var w := Written(stored, p.op, p.read);
    w.Some? ==> Held(stored, Object(ToDict(w.value)), locus)
  }

  /** Which reads are not stale: with the lock and the locus as they are held, or, for the feed selection,
      with any lock; a locus writer may also set all three itself. */
  ghost predicate FreshEnough(stored: seq<Alias>, p: Pending, locus: string) {
    match p.op
    case Audio(_) => DevLocked(p.read) && p.read.locus == locus
    case Video(_) => DevLocked(p.read) && p.read.locus == locus
    case Feed => p.read.locked
    case Locus(l, locked, holder) =>
      if DevLocked(p.read) && holder != Some("development") then true
      else
        && CoerceLocus(Text(l)) == locus
        && (locked == Some(true) || (locked.None? && p.read.locked))
        && (if holder.Some? then NewName(stored, holder.value) else p.read.lockedBy) == "development"
  }

  /** A pending write keeps the lock exactly when what the writer has read is fresh enough for it. */
  lemma KeepsExactly(stored: seq<Alias>, p: Pending, locus: string)
    requires StoredOk(stored) && Valid(p.read)
    ensures Keeps(stored, p, locus) <==> FreshEnough(stored, p, locus)
  {
    var w := Written(stored, p.op, p.read);
    if w.Some? { RoundTrip(stored, w.value); }
  }

  ghost predicate AllKeep(stored: seq<Alias>, s: State, locus: string) {
    forall pid | pid in s.pending :: Keeps(stored, s.pending[pid], locus)
  }

  lemma OutsideBeginKeeps(stored: seq<Alias>, file: File, op: Op, locus: string)
    requires StoredOk(stored) && Held(stored, file, locus) && Outside(op)
    ensures Keeps(stored, Pending(op, ReadDesired(stored, file).value), locus)
  {
    OutsideWriteKeeps(stored, op, file, locus);
  }

  lemma {:induction false} KeptThroughRun(stored: seq<Alias>, s: State, es: seq<Event>, locus: string)
    requires StoredOk(stored) && Held(stored, s.file, locus) && AllKeep(stored, s, locus)
    requires Run(stored, s, es).Some? && forall e | e in es :: OutsideEvent(e)
    ensures Held(stored, Run(stored, s, es).value.file, locus)
    decreases es
  {
    if es != [] {
      assert OutsideEvent(es[0]);
      match es[0] {
        case Begin(pid, op) => OutsideBeginKeeps(stored, s.file, op, locus);
        case Commit(pid) => assert Keeps(stored, s.pending[pid], locus);
      }
      KeptThroughRun(stored, Step(stored, s, es[0]).value, es[1..], locus);
    }
  }

  /** Every run of outside writers from `s` leaves the lock in place. */
  ghost predicate LockPersists(stored: seq<Alias>, s: State, locus: string) {
    forall es: seq<Event> | (forall e | e in es :: OutsideEvent(e)) && Run(stored, s, es).Some? ::
      Held(stored, Run(stored, s, es).value.file, locus)
  }

  lemma OneCommit(stored: seq<Alias>, s: State, pid: nat)
    requires pid in s.pending
    ensures Run(stored, s, [Commit(pid)]) == Step(stored, s, Commit(pid))
  {
    assert [Commit(pid)][1..] == [];
  }

  /** With writers that read and write without a lock, the development lock survives every
      interleaving exactly when no writer already under way is about to write a state without it. */
  lemma LockPersistsExactly(stored: seq<Alias>, s: State, locus: string)
    requires StoredOk(stored) && Held(stored, s.file, locus)
    ensures LockPersists(stored, s, locus) <==> AllKeep(stored, s, locus)
    ensures (forall pid | pid in s.pending :: Valid(s.pending[pid].read)) ==>
              (LockPersists(stored, s, locus) <==>
               forall pid | pid in s.pending :: FreshEnough(stored, s.pending[pid], locus))
  {
    forall pid | pid in s.pending && Valid(s.pending[pid].read)
      ensures Keeps(stored, s.pending[pid], locus) <==> FreshEnough(stored, s.pending[pid], locus)
    {
      KeepsExactly(stored, s.pending[pid], locus);
    }
    if AllKeep(stored, s, locus) {
      forall es: seq<Event> | (forall e | e in es :: OutsideEvent(e)) && Run(stored, s, es).Some?
        ensures Held(stored, Run(stored, s, es).value.file, locus)
      {
        KeptThroughRun(stored, s, es, locus);
      }
    } else {
      var pid :| pid in s.pending && !Keeps(stored, s.pending[pid], locus);
      OneCommit(stored, s, pid);
      var es := [Commit(pid)];
      assert forall e | e in es :: OutsideEvent(e);
      assert Run(stored, s, es).Some? && !Held(stored, Run(stored, s, es).value.file, locus);
    }
  }

  /** The lock can be lost: a mute toggle that read the state before the development gate locked it
      writes the unlocked state back. */
  lemma StaleToggleLiftsTheLock(stored: seq<Alias>)
    requires StoredOk(stored)
    ensures var es := [Begin(0, Audio(true)), Begin(1, Locus("virtual", Some(true), Some("development"))), Commit(1), Commit(0)];
            var locked, lifted := Run(stored, State(Missing, map[]), es[..3]), Run(stored, State(Missing, map[]), es);
            && locked.Some? && Held(stored, locked.value.file, "virtual")
            && lifted.Some? && ReadDesired(stored, lifted.value.file) == Some(Default.(audio := true))
            && RealAudio(Default.(audio := true))
  {
    var gate := Locus("virtual", Some(true), Some("development"));
    var es := [Begin(0, Audio(true)), Begin(1, gate), Commit(1), Commit(0)];
    var s0 := State(Missing, map[]);
    var s1 := State(Missing, map[0 := Pending(Audio(true), Default)]);
    var s2 := State(Missing, map[0 := Pending(Audio(true), Default), 1 := Pending(gate, Default)]);
    NewNameCases(stored, "development");
    var held := Desired(false, false, "virtual", true, "development");
    assert Written(stored, gate, Default) == Some(held);
    var s3 := State(Object(ToDict(held)), map[0 := Pending(Audio(true), Default)]);
    assert Step(stored, s0, es[0]) == Some(s1) && Step(stored, s1, es[1]) == Some(s2);
    assert s2.pending - {1} == s1.pending;
    assert Step(stored, s2, es[2]) == Some(s3);
    var s4 := State(Object(ToDict(Default.(audio := true))), map[]);
    assert s3.pending - {0} == map[];
    assert Step(stored, s3, es[3]) == Some(s4);
    RoundTrip(stored, held);
    RoundTrip(stored, Default.(audio := true));
    Four(stored, s0, s1, s2, s3, s4, es);
  }

  lemma Four(stored: seq<Alias>, s0: State, s1: State, s2: State, s3: State, s4: State, es: seq<Event>)
    requires |es| == 4 && Step(stored, s0, es[0]) == Some(s1) && Step(stored, s1, es[1]) == Some(s2)
    requires Step(stored, s2, es[2]) == Some(s3) && Step(stored, s3, es[3]) == Some(s4)
    ensures Run(stored, s0, es[..3]) == Some(s3) && Run(stored, s0, es) == Some(s4)
  {
    var fs := es[..3];
    assert Run(stored, s0, fs) == Run(stored, s1, fs[1..]) == Run(stored, s2, fs[1..][1..])
        == Run(stored, s3, fs[1..][1..][1..]);
    assert Run(stored, s0, es) == Run(stored, s1, es[1..]) == Run(stored, s2, es[1..][1..])
        == Run(stored, s3, es[1..][1..][1..]) == Run(stored, s4, es[1..][1..][1..][1..]);
  }
}
