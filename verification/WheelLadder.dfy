/**
 * The choice of a torch wheel index (kaine/wheel_index.py, _ladder): candidates within the driver,
 * architecture and version range, ranked, filtered, and the first survivor taken.
 */
module WheelLadder {
  import opened Wrappers
  import opened ArchTokens
  import opened Sequences

  /** A torch version as its padded triple, and as it is written. */
  datatype Version = Version(major: nat, minor: nat, patch: nat, text: string)

  predicate Newer(v: Version, w: Version) {
    v.major > w.major || (v.major == w.major && (v.minor > w.minor || (v.minor == w.minor && v.patch > w.patch)))
  }

  predicate SameVersion(v: Version, w: Version) { v.major == w.major && v.minor == w.minor && v.patch == w.patch }

  datatype Op = Ge | Gt | Le | Lt | Eq | Ne

  datatype Bound = Bound(op: Op, version: Version)

  predicate Meets(v: Version, b: Bound) {
    match b.op
    case Ge => !Newer(b.version, v)
    case Gt => Newer(v, b.version)
    case Le => !Newer(v, b.version)
    case Lt => Newer(b.version, v)
    case Eq => SameVersion(v, b.version)
    case Ne => !SameVersion(v, b.version)
  }

  predicate InRange(v: Version, spec: seq<Bound>) { forall b | b in spec :: Meets(v, b) }

  /** One wheel index: its name and the torch versions it publishes for each architecture. */
  datatype Index = Index(name: string, published: map<string, seq<Version>>)

  /** The packaged tables: indexes in their order, recorded architecture lists and torchaudio
      companions by index, architecture and torch version. */
  datatype Wheels = Wheels(
    indexes: seq<Index>,
    cpu: map<string, seq<Version>>,
    archLists: map<(string, string, string), string>,
    torchaudio: map<(string, string, string), string>)

  datatype Memory = Discrete | Unified | Unknown

  datatype Probes = Probes(arch: string, driver: Option<Pair>, caps: seq<Pair>, memory: Memory)

  datatype Candidate = Candidate(cu: Pair, name: string, version: Version)

  datatype Why = NoArchList | Uncovered(device: nat) | UnifiedHost | NoTorchaudio

  datatype Terminal = DriverUnknown | DriverTooOld | NothingInRange | NothingCovers | UnifiedUnsupported
                    | TorchaudioMissing | Exhausted

  datatype Outcome = Cuda(choice: Candidate, selftest: bool) | Cpu(version: Option<Version>, terminal: Terminal)

  // ------------------------------------------------------------------ rank

  predicate TextAtMost(s: string, t: string) {
    s == "" || (t != "" && (s[0] < t[0] || (s[0] == t[0] && TextAtMost(s[1..], t[1..]))))
  }

  predicate Above(a: Pair, b: Pair) { !AtMost(a, b) }

  /** Highest torch first, then newest CUDA, then the name. */
  predicate Ranks(c: Candidate, d: Candidate) {
    || Newer(c.version, d.version)
    || (SameVersion(c.version, d.version)
        && (Above(c.cu, d.cu) || (c.cu == d.cu && TextAtMost(c.name, d.name))))
  }

  predicate NewestFirst(v: Version, w: Version) { !Newer(w, v) }

  lemma {:induction false} TextTotal(s: string, t: string)
    ensures TextAtMost(s, t) || TextAtMost(t, s)
  {
    if s != "" && t != "" && s[0] == t[0] { TextTotal(s[1..], t[1..]); }
  }

  lemma {:induction false} TextTransitive(s: string, t: string, u: string)
    requires TextAtMost(s, t) && TextAtMost(t, u)
    ensures TextAtMost(s, u)
  {
    if s != "" && t != "" && u != "" && s[0] == t[0] == u[0] { TextTransitive(s[1..], t[1..], u[1..]); }
  }

  lemma RankIsOrder()
    ensures TotalOrder(Ranks)
  {
    forall c, d ensures Ranks(c, d) || Ranks(d, c) { TextTotal(c.name, d.name); }
    forall c, d, e | Ranks(c, d) && Ranks(d, e) ensures Ranks(c, e) {
      if TextAtMost(c.name, d.name) && TextAtMost(d.name, e.name) { TextTransitive(c.name, d.name, e.name); }
    }
  }

  // ------------------------------------------------------------------ the rules

  /** Unified-memory evidence counts on aarch64 only. */
  function Effective(p: Probes): Probes {
    if p.memory == Unified && p.arch != "aarch64" then p.(memory := Discrete) else p
  }

  predicate Eligible(p: Probes, name: string) {
    p.driver.Some? && CudaVersion(name).Some? && AtMost(CudaVersion(name).value, p.driver.value)
  }

  function VersionsOf(ix: Index, arch: string): seq<Version> {
    if arch in ix.published then ix.published[arch] else []
  }

  /** Within the driver, published for the architecture, and in range. */
  predicate IsCandidate(w: Wheels, p: Probes, spec: seq<Bound>, c: Candidate) {
    && Eligible(p, c.name) && CudaVersion(c.name) == Some(c.cu)
    && (exists ix :: ix in w.indexes && ix.name == c.name && c.version in VersionsOf(ix, p.arch))
    && InRange(c.version, spec)
  }

  function ArchList(w: Wheels, p: Probes, c: Candidate): Option<string> {
    var key := (c.name, p.arch, c.version.text);
    if key in w.archLists then Some(w.archLists[key]) else None
  }

  function CoveredBy(entries: seq<string>): Pair -> bool { cc => Covered(cc, entries) }

  /** The first device no entry covers. */
  function DeviceGap(w: Wheels, p: Probes, c: Candidate): Option<nat>
    requires ArchList(w, p, c).Some?
  { FirstBad(CoveredBy(Entries(Split(ArchList(w, p, c).value, ';'))), p.caps) }

  predicate BuiltFor(w: Wheels, p: Probes, c: Candidate) {
    ArchList(w, p, c).Some? && DeviceGap(w, p, c).None?
  }

  predicate MemoryAllows(p: Probes, c: Candidate) {
    p.memory == Unified ==> p.arch == "aarch64" && AtMost(Pair(13, 0), c.cu)
  }

  predicate HasTorchaudio(w: Wheels, p: Probes, c: Candidate) { (c.name, p.arch, c.version.text) in w.torchaudio }

  /** The candidate satisfies every rule. */
  predicate Passes(w: Wheels, p: Probes, need: bool, c: Candidate) {
    BuiltFor(w, p, c) && MemoryAllows(p, c) && (need ==> HasTorchaudio(w, p, c))
  }

  /** The first rule the candidate breaks. */
  predicate Rejects(w: Wheels, p: Probes, need: bool, c: Candidate, why: Why) {
    match why
    case NoArchList => ArchList(w, p, c).None?
    case Uncovered(i) => ArchList(w, p, c).Some? && DeviceGap(w, p, c) == Some(i)
    case UnifiedHost => BuiltFor(w, p, c) && !MemoryAllows(p, c)
    case NoTorchaudio => BuiltFor(w, p, c) && MemoryAllows(p, c) && need && !HasTorchaudio(w, p, c)
  }

  // ------------------------------------------------------------------ what an outcome must be

  ghost predicate AnyCandidate(w: Wheels, p: Probes, spec: seq<Bound>) { exists c :: IsCandidate(w, p, spec, c) }

  ghost predicate AnyBuilt(w: Wheels, p: Probes, spec: seq<Bound>) {
    exists c :: IsCandidate(w, p, spec, c) && BuiltFor(w, p, c)
  }

  ghost predicate AnyAllowed(w: Wheels, p: Probes, spec: seq<Bound>) {
    exists c :: IsCandidate(w, p, spec, c) && BuiltFor(w, p, c) && MemoryAllows(p, c)
  }

  /** The reason names the first rule that no candidate satisfies together with the rules before it. */
  ghost predicate Explains(w: Wheels, p: Probes, spec: seq<Bound>, need: bool, t: Terminal) {
    match t
    case DriverUnknown => p.driver.None?
    case DriverTooOld => p.driver.Some? && forall ix | ix in w.indexes :: !Eligible(p, ix.name)
    case NothingInRange => (exists ix :: ix in w.indexes && Eligible(p, ix.name)) && !AnyCandidate(w, p, spec)
    case NothingCovers => AnyCandidate(w, p, spec) && !AnyBuilt(w, p, spec)
    case UnifiedUnsupported => p.memory == Unified && AnyBuilt(w, p, spec) && !AnyAllowed(w, p, spec)
    case TorchaudioMissing => need && AnyAllowed(w, p, spec)
    case Exhausted => false
  }

  predicate NewestInRange(vs: seq<Version>, spec: seq<Bound>, r: Option<Version>) {
    match r
    case Some(v) => v in vs && InRange(v, spec) && forall u | u in vs && InRange(u, spec) :: !Newer(u, v)
    case None => forall u | u in vs :: !InRange(u, spec)
  }

  function CpuVersions(w: Wheels, arch: string): seq<Version> { if arch in w.cpu then w.cpu[arch] else [] }

  /** Sound: the chosen candidate satisfies every rule.  Optimal: it ranks before all others that do.
      Complete: the CPU index is taken only when no candidate satisfies every rule. */
  ghost predicate IsOutcome(w: Wheels, probes: Probes, spec: seq<Bound>, need: bool, out: Outcome) {
    var p := Effective(probes);
    match out
    case Cuda(c, selftest) =>
      && IsCandidate(w, p, spec, c) && Passes(w, p, need, c)
      && (forall d | IsCandidate(w, p, spec, d) && Passes(w, p, need, d) :: d == c || Ranks(c, d))
      && (selftest <==> p.arch == "aarch64" && AtMost(Pair(13, 0), c.cu) && p.memory != Discrete)
    case Cpu(version, terminal) =>
      && (forall d | IsCandidate(w, p, spec, d) :: !Passes(w, p, need, d))
      && NewestInRange(CpuVersions(w, p.arch), spec, version)
      && Explains(w, p, spec, need, terminal)
  }

  // ------------------------------------------------------------------ the ladder

  /** Newest CUDA first, then the name; what names no CUDA version comes last. */
  predicate IndexOrder(a: Index, b: Index) {
    match (CudaVersion(a.name), CudaVersion(b.name))
    case (Some(x), Some(y)) => Above(x, y) || (x == y && TextAtMost(a.name, b.name))
    case (Some(_), None) => true
    case (None, Some(_)) => false
    case (None, None) => TextAtMost(a.name, b.name)
  }

  lemma IndexOrderIsTotal()
    ensures TotalOrder(IndexOrder)
  {
    forall a, b ensures IndexOrder(a, b) || IndexOrder(b, a) { TextTotal(a.name, b.name); }
    forall a, b, c | IndexOrder(a, b) && IndexOrder(b, c) ensures IndexOrder(a, c) {
      if TextAtMost(a.name, b.name) && TextAtMost(b.name, c.name) { TextTransitive(a.name, b.name, c.name); }
    }
  }

  function Driven(p: Probes): Index -> bool { (ix: Index) => Eligible(p, ix.name) }

  /** The indexes within the driver, each as often as it is listed, newest CUDA first and then by name. */
  method EligibleIndexes(w: Wheels, p: Probes) returns (eligible: seq<Index>)
    ensures forall ix :: ix in eligible <==> ix in w.indexes && Eligible(p, ix.name)
    ensures multiset(eligible) == multiset(Filter(Driven(p), w.indexes))
    ensures forall i, j | 0 <= i < j < |eligible| ::
              var x, y := CudaVersion(eligible[i].name).value, CudaVersion(eligible[j].name).value;
              Above(x, y) || (x == y && TextAtMost(eligible[i].name, eligible[j].name))
  {
    var found := [];
    if p.driver.Some? {
      for i := 0 to |w.indexes|
        invariant found == Filter(Driven(p), w.indexes[..i])
      {
        assert w.indexes[..i + 1][..i] == w.indexes[..i];
        var cu := CudaVersion(w.indexes[i].name);
        if cu.Some? && AtMost(cu.value, p.driver.value) {
          found := found + [w.indexes[i]];
        }
      }
      assert w.indexes[..|w.indexes|] == w.indexes;
    } else {
      FilterNone(Driven(p), w.indexes);
    }
    eligible := Sort(IndexOrder, found);
    IndexOrderIsTotal();
    SortSorted(IndexOrder, found);
    SortContents(IndexOrder, found);
    SameElements(IndexOrder, found);
    forall ix ensures ix in found <==> ix in w.indexes && Eligible(p, ix.name) {
      FilterIs(Driven(p), w.indexes, ix);
    }
  }

  method InRangeVersions(ix: Index, p: Probes, spec: seq<Bound>) returns (cs: seq<Candidate>)
    requires Eligible(p, ix.name)
    ensures forall c :: c in cs <==> c.name == ix.name && CudaVersion(ix.name) == Some(c.cu)
                                     && c.version in VersionsOf(ix, p.arch) && InRange(c.version, spec)
  {
    var vs := VersionsOf(ix, p.arch);
    cs := [];
    for i := 0 to |vs|
      invariant forall c :: c in cs <==> c.name == ix.name && CudaVersion(ix.name) == Some(c.cu)
                                         && c.version in vs[..i] && InRange(c.version, spec)
    {
      assert vs[..i + 1] == vs[..i] + [vs[i]];
      if InRange(vs[i], spec) {
        cs := cs + [Candidate(CudaVersion(ix.name).value, ix.name, vs[i])];
      }
    }
    assert vs[..|vs|] == vs;
  }

  predicate FoundIn(ixs: seq<Index>, p: Probes, spec: seq<Bound>, c: Candidate) {
    && CudaVersion(c.name) == Some(c.cu) && InRange(c.version, spec)
    && exists ix :: ix in ixs && ix.name == c.name && c.version in VersionsOf(ix, p.arch)
  }

  method AllCandidates(eligible: seq<Index>, p: Probes, spec: seq<Bound>) returns (all: seq<Candidate>)
    requires forall ix | ix in eligible :: Eligible(p, ix.name)
    ensures forall c :: c in all <==> FoundIn(eligible, p, spec, c)
    ensures Sorted(Ranks, all)
  {
    var found := [];
    for i := 0 to |eligible|
      invariant forall c :: c in found <==> FoundIn(eligible[..i], p, spec, c)
    {
      assert eligible[i] in eligible;
      assert eligible[..i + 1] == eligible[..i] + [eligible[i]];
      var more := InRangeVersions(eligible[i], p, spec);
      found := found + more;
    }
    assert eligible[..|eligible|] == eligible;
    RankIsOrder();
    SortSorted(Ranks, found);
    SameElements(Ranks, found);
    all := Sort(Ranks, found);
  }

  method UncoveredDevice(caps: seq<Pair>, entries: seq<string>) returns (device: Option<nat>)
    ensures device == FirstBad(CoveredBy(entries), caps)
  {
    var ok := CoveredBy(entries);
    for i := 0 to |caps|
      invariant FirstBad(ok, caps[..i]) == None
    {
      assert caps[..i + 1][..i] == caps[..i];
      var coverage := DeviceCoverage(caps[i], entries);
      assert ok(caps[i]) == coverage.Some?;
      if coverage.None? {
        FirstBadStays(ok, caps, i + 1);
        return Some(i);
      }
    }
    assert caps[..|caps|] == caps;
    device := None;
  }

  /** The filters one candidate goes through, in their order. */
  method Judge(w: Wheels, p: Probes, need: bool, c: Candidate) returns (why: Option<Why>)
    ensures why.Some? ==> Rejects(w, p, need, c, why.value)
    ensures why.None? <==> Passes(w, p, need, c)
  {
    var list := ArchList(w, p, c);
    if list.None? {
      return Some(NoArchList);
    }
    var entries := ArchListToEntries(list.value);
    var device := UncoveredDevice(p.caps, entries);
    if device.Some? {
      return Some(Uncovered(device.value));
    }
    if p.memory == Unified && !(p.arch == "aarch64" && AtMost(Pair(13, 0), c.cu)) {
      return Some(UnifiedHost);
    }
    if need && !HasTorchaudio(w, p, c) {
      return Some(NoTorchaudio);
    }
    why := None;
  }

  function Passing(w: Wheels, p: Probes, need: bool): Candidate -> bool { c => Passes(w, p, need, c) }

  function Dropped(rs: seq<(Candidate, Why)>): seq<Candidate> { seq(|rs|, i requires 0 <= i < |rs| => rs[i].0) }

  ghost predicate AllReasons(w: Wheels, p: Probes, need: bool, rs: seq<(Candidate, Why)>) {
    forall i | 0 <= i < |rs| :: Rejects(w, p, need, rs[i].0, rs[i].1)
  }

  ghost predicate SomeBuilt(w: Wheels, p: Probes, all: seq<Candidate>) { exists c :: c in all && BuiltFor(w, p, c) }

  ghost predicate SomeAllowed(w: Wheels, p: Probes, all: seq<Candidate>) {
    exists c :: c in all && BuiltFor(w, p, c) && MemoryAllows(p, c)
  }

  predicate SaysBuilt(why: Option<Why>) { why.None? || why.value.UnifiedHost? || why.value.NoTorchaudio? }

  predicate SaysAllowed(why: Option<Why>) { why.None? || why.value.NoTorchaudio? }

  lemma JudgedFlags(w: Wheels, p: Probes, need: bool, c: Candidate, why: Option<Why>)
    requires (why.Some? ==> Rejects(w, p, need, c, why.value)) && (why.None? ==> Passes(w, p, need, c))
    ensures SaysBuilt(why) <==> BuiltFor(w, p, c)
    ensures SaysAllowed(why) <==> BuiltFor(w, p, c) && MemoryAllows(p, c)
  {}

  lemma FlagsSnoc(w: Wheels, p: Probes, all: seq<Candidate>, c: Candidate)
    ensures SomeBuilt(w, p, all + [c]) <==> SomeBuilt(w, p, all) || BuiltFor(w, p, c)
    ensures SomeAllowed(w, p, all + [c]) <==> SomeAllowed(w, p, all) || (BuiltFor(w, p, c) && MemoryAllows(p, c))
  {
    assert c in all + [c];
    if SomeBuilt(w, p, all) {
      var d :| d in all && BuiltFor(w, p, d);
      assert d in all + [c];
    }
    if SomeAllowed(w, p, all) {
      var d :| d in all && BuiltFor(w, p, d) && MemoryAllows(p, d);
      assert d in all + [c];
    }
  }

  /** A candidate judged, with what that says for the flags. */
  method JudgeNext(w: Wheels, p: Probes, need: bool, c: Candidate) returns (why: Option<Why>)
    ensures why.Some? ==> Rejects(w, p, need, c, why.value)
    ensures why.None? <==> Passing(w, p, need)(c)
    ensures SaysBuilt(why) <==> BuiltFor(w, p, c)
    ensures SaysAllowed(why) <==> BuiltFor(w, p, c) && MemoryAllows(p, c)
  {
    why := Judge(w, p, need, c);
    JudgedFlags(w, p, need, c, why);
  }

  /** What the filter loop knows when it has seen `seen`. */
  ghost predicate Filtered(w: Wheels, p: Probes, need: bool, seen: seq<Candidate>, survivors: seq<Candidate>,
                           rejected: seq<(Candidate, Why)>, anyBuilt: bool, anyAllowed: bool) {
    && survivors == Filter(Passing(w, p, need), seen)
    && Dropped(rejected) == Rest(Passing(w, p, need), seen)
    && AllReasons(w, p, need, rejected)
    && anyBuilt == SomeBuilt(w, p, seen)
    && anyAllowed == SomeAllowed(w, p, seen)
  }

  lemma FilteredSnoc(w: Wheels, p: Probes, need: bool, seen: seq<Candidate>, survivors: seq<Candidate>,
                     rejected: seq<(Candidate, Why)>, b: bool, a: bool, c: Candidate, why: Option<Why>)
    requires Filtered(w, p, need, seen, survivors, rejected, b, a)
    requires why.Some? ==> Rejects(w, p, need, c, why.value)
    requires why.None? <==> Passing(w, p, need)(c)
    requires SaysBuilt(why) <==> BuiltFor(w, p, c)
    requires SaysAllowed(why) <==> BuiltFor(w, p, c) && MemoryAllows(p, c)
    ensures Filtered(w, p, need, seen + [c], if why.None? then survivors + [c] else survivors,
                     if why.Some? then Reject(rejected, c, why.value) else rejected,
                     b || SaysBuilt(why), a || SaysAllowed(why))
  {
    assert (seen + [c])[..|seen|] == seen;
    FlagsSnoc(w, p, seen, c);
    if why.Some? { ReasonsSnoc(w, p, need, rejected, c, why.value); }
  }

  /** What the filter loop has gathered. */
  datatype Tally = Tally(survivors: seq<Candidate>, rejected: seq<(Candidate, Why)>, anyBuilt: bool, anyAllowed: bool)

  ghost predicate Tallies(w: Wheels, p: Probes, need: bool, seen: seq<Candidate>, t: Tally) {
    Filtered(w, p, need, seen, t.survivors, t.rejected, t.anyBuilt, t.anyAllowed)
  }

  /** One turn of the filter loop. */
  method FilterNext(w: Wheels, p: Probes, need: bool, ghost seen: seq<Candidate>, t: Tally, c: Candidate) returns (r: Tally)
    requires Tallies(w, p, need, seen, t)
    ensures Tallies(w, p, need, seen + [c], r)
    ensures r.survivors == t.survivors || r.survivors == t.survivors + [c]
  {
    var why := JudgeNext(w, p, need, c);
    FilteredSnoc(w, p, need, seen, t.survivors, t.rejected, t.anyBuilt, t.anyAllowed, c, why);
    r := Tally(if why.None? then t.survivors + [c] else t.survivors,
               if why.Some? then Reject(t.rejected, c, why.value) else t.rejected,
               t.anyBuilt || SaysBuilt(why), t.anyAllowed || SaysAllowed(why));
  }

  /** The filter loop: each candidate once, kept or dropped for the first rule it breaks, with the
      flags that say how far some candidate came. */
  method FilterCandidates(w: Wheels, p: Probes, need: bool, all: seq<Candidate>) returns (t: Tally, anyAudio: bool)
    ensures Tallies(w, p, need, all, t)
    ensures anyAudio == (t.survivors != [])
  {
    t, anyAudio := Tally([], [], false, false), false;
    for i := 0 to |all|
      invariant Tallies(w, p, need, all[..i], t)
      invariant anyAudio == (t.survivors != [])
    {
      var kept := |t.survivors|;
      assert all[..i + 1] == all[..i] + [all[i]];
      t := FilterNext(w, p, need, all[..i], t, all[i]);
      if |t.survivors| > kept {
        anyAudio := true;
      }
    }
    assert all[..|all|] == all;
  }

  lemma ReasonsSnoc(w: Wheels, p: Probes, need: bool, rs: seq<(Candidate, Why)>, c: Candidate, why: Why)
    requires AllReasons(w, p, need, rs) && Rejects(w, p, need, c, why)
    ensures AllReasons(w, p, need, Reject(rs, c, why))
  {
    var all := Reject(rs, c, why);
    forall i | 0 <= i < |all| ensures Rejects(w, p, need, all[i].0, all[i].1) {
      assert i < |rs| ==> all[i] == rs[i];
    }
  }

  function Reject(rs: seq<(Candidate, Why)>, c: Candidate, why: Why): (r: seq<(Candidate, Why)>)
    ensures Dropped(r) == Dropped(rs) + [c]
  { rs + [(c, why)] }

  /** The last two sorts and the two loops before the filters. */
  method RankedCandidates(w: Wheels, p: Probes, spec: seq<Bound>) returns (eligible: seq<Index>, all: seq<Candidate>)
    ensures eligible == [] <==> forall ix | ix in w.indexes :: !Eligible(p, ix.name)
    ensures forall c :: c in all <==> IsCandidate(w, p, spec, c)
    ensures Sorted(Ranks, all)
  {
    eligible := EligibleIndexes(w, p);
    all := AllCandidates(eligible, p, spec);
    forall c ensures c in all <==> IsCandidate(w, p, spec, c) { FoundExactly(w, p, spec, eligible, c); }
    if eligible != [] { assert eligible[0] in eligible; }
  }

  lemma FoundExactly(w: Wheels, p: Probes, spec: seq<Bound>, eligible: seq<Index>, c: Candidate)
    requires forall ix :: ix in eligible <==> ix in w.indexes && Eligible(p, ix.name)
    ensures FoundIn(eligible, p, spec, c) <==> IsCandidate(w, p, spec, c)
  {}

  /** The terminal reason of a ladder without survivors. */
  method TerminalReason(p: Probes, need: bool, anyEligible: bool, anyCandidate: bool,
                        anyBuilt: bool, anyAllowed: bool, anyAudio: bool) returns (t: Terminal)
    ensures t == if p.driver.None? then DriverUnknown
                 else if !anyEligible then DriverTooOld
                 else if !anyCandidate then NothingInRange
                 else if !anyBuilt then NothingCovers
                 else if p.memory == Unified && !anyAllowed then UnifiedUnsupported
                 else if need && !anyAudio then TorchaudioMissing
                 else Exhausted
  {
    if p.driver.None? {
      t := DriverUnknown;
    } else if !anyEligible {
      t := DriverTooOld;
    } else if !anyCandidate {
      t := NothingInRange;
    } else if !anyBuilt {
      t := NothingCovers;
    } else if p.memory == Unified && !anyAllowed {
      t := UnifiedUnsupported;
    } else if need && !anyAudio {
      t := TorchaudioMissing;
    } else {
      t := Exhausted;
    }
  }

  lemma VersionOrder()
    ensures TotalOrder(NewestFirst)
  {}

  /** `_newest_arch_version`: the first in range of the versions sorted newest first. */
  method NewestCpu(w: Wheels, arch: string, spec: seq<Bound>) returns (r: Option<Version>)
    ensures NewestInRange(CpuVersions(w, arch), spec, r)
  {
    var vs := Sort(NewestFirst, CpuVersions(w, arch));
    VersionOrder();
    SortSorted(NewestFirst, CpuVersions(w, arch));
    SameElements(NewestFirst, CpuVersions(w, arch));
    for i := 0 to |vs|
      invariant forall j | 0 <= j < i :: !InRange(vs[j], spec)
    {
      if InRange(vs[i], spec) {
        assert vs[i] in vs;
        forall u | u in CpuVersions(w, arch) && InRange(u, spec) ensures !Newer(u, vs[i]) {
          assert u in vs;
          var j :| 0 <= j < |vs| && vs[j] == u;
          assert j > i ==> NewestFirst(vs[i], vs[j]);
        }
        return Some(vs[i]);
      }
    }
    forall u | u in CpuVersions(w, arch) ensures !InRange(u, spec) { assert u in vs; }
    r := None;
  }

  lemma Optimal(w: Wheels, p: Probes, spec: seq<Bound>, need: bool, all: seq<Candidate>, d: Candidate)
    requires forall c :: c in all <==> IsCandidate(w, p, spec, c)
    requires Sorted(Ranks, all) && Filter(Passing(w, p, need), all) != []
    requires IsCandidate(w, p, spec, d) && Passes(w, p, need, d)
    ensures var c := Filter(Passing(w, p, need), all)[0]; d == c || Ranks(c, d)
  {
    var keep := Passing(w, p, need);
    FilterIs(keep, all, d);
    FilterFirst(Ranks, keep, all, d);
  }

  lemma Chosen(w: Wheels, p: Probes, spec: seq<Bound>, need: bool, all: seq<Candidate>)
    requires forall c :: c in all <==> IsCandidate(w, p, spec, c)
    requires Filter(Passing(w, p, need), all) != []
    ensures var c := Filter(Passing(w, p, need), all)[0]; IsCandidate(w, p, spec, c) && Passes(w, p, need, c)
  {
    var keep := Passing(w, p, need);
    FilterIs(keep, all, Filter(keep, all)[0]);
  }

  lemma NoneChosen(w: Wheels, p: Probes, spec: seq<Bound>, need: bool, all: seq<Candidate>, d: Candidate)
    requires forall c :: c in all <==> IsCandidate(w, p, spec, c)
    requires Filter(Passing(w, p, need), all) == [] && IsCandidate(w, p, spec, d)
    ensures !Passes(w, p, need, d)
  {
    var keep := Passing(w, p, need);
    FilterIs(keep, all, d);
  }

  /** The flags decide the reason, and one of the named reasons always applies. */
  lemma ReasonExplains(w: Wheels, p: Probes, spec: seq<Bound>, need: bool, all: seq<Candidate>, t: Terminal)
    requires forall c :: c in all <==> IsCandidate(w, p, spec, c)
    requires forall c | IsCandidate(w, p, spec, c) :: !Passes(w, p, need, c)
    requires var anyEligible := exists ix :: ix in w.indexes && Eligible(p, ix.name);
             t == if p.driver.None? then DriverUnknown
                  else if !anyEligible then DriverTooOld
                  else if all == [] then NothingInRange
                  else if !SomeBuilt(w, p, all) then NothingCovers
                  else if p.memory == Unified && !SomeAllowed(w, p, all) then UnifiedUnsupported
                  else if need then TorchaudioMissing
                  else Exhausted
    ensures Explains(w, p, spec, need, t)
  {
    assert AnyCandidate(w, p, spec) <==> all != [] by { if all != [] { assert IsCandidate(w, p, spec, all[0]); } }
    assert AnyBuilt(w, p, spec) <==> SomeBuilt(w, p, all);
    assert AnyAllowed(w, p, spec) <==> SomeAllowed(w, p, all);
    if p.memory != Unified && SomeBuilt(w, p, all) {
      var c :| c in all && BuiltFor(w, p, c);
      assert MemoryAllows(p, c);
    }
  }

  /** The ladder: its outcome is the one the rules allow, and every candidate it considered is kept
      or rejected once, with the first rule it breaks. */
  method Ladder(w: Wheels, probes: Probes, spec: seq<Bound>, need: bool)
    returns (out: Outcome, rejected: seq<(Candidate, Why)>, kept: seq<Candidate>, all: seq<Candidate>)
    ensures IsOutcome(w, probes, spec, need, out)
    ensures forall c :: c in all <==> IsCandidate(w, Effective(probes), spec, c)
    ensures multiset(all) == multiset(kept) + multiset(Dropped(rejected))
    ensures AllReasons(w, Effective(probes), need, rejected)
    ensures forall c | c in kept :: Passes(w, Effective(probes), need, c)
  {
    var p := Effective(probes);
    var eligible;
    eligible, all := RankedCandidates(w, p, spec);
    var t, anyAudio := FilterCandidates(w, p, need, all);
    kept, rejected := t.survivors, t.rejected;
    KeptOrDroppedOnce(Passing(w, p, need), all);
    forall c | c in kept ensures Passes(w, p, need, c) { FilterIs(Passing(w, p, need), all, c); }
    if kept != [] {
      var c := kept[0];
      Chosen(w, p, spec, need, all);
      forall d | IsCandidate(w, p, spec, d) && Passes(w, p, need, d) ensures d == c || Ranks(c, d) {
        Optimal(w, p, spec, need, all, d);
      }
      var selftest := p.arch == "aarch64" && AtMost(Pair(13, 0), c.cu) && (p.memory == Unified || p.memory == Unknown);
      out := Cuda(c, selftest);
    } else {
      forall d | IsCandidate(w, p, spec, d) ensures !Passes(w, p, need, d) { NoneChosen(w, p, spec, need, all, d); }
      var version := NewestCpu(w, p.arch, spec);
      var reason := TerminalReason(p, need, eligible != [], all != [], t.anyBuilt, t.anyAllowed, anyAudio);
      ReasonExplains(w, p, spec, need, all, reason);
      out := Cpu(version, reason);
    }
  }

  // ------------------------------------------------------------------ the rules in plain terms

  /** How two versions compare: the sign of the first difference of their numbers. */
  ghost function Compare(v: Version, w: Version): int {
    if v.major != w.major then v.major - w.major
    else if v.minor != w.minor then v.minor - w.minor
    else v.patch - w.patch
  }

  ghost function ComparePairs(a: Pair, b: Pair): int { if a.major != b.major then a.major - b.major else a.minor - b.minor }

  ghost predicate PlainlyMeets(v: Version, b: Bound) {
    var order := Compare(v, b.version);
    match b.op
    case Ge => order >= 0
    case Gt => order > 0
    case Le => order <= 0
    case Lt => order < 0
    case Eq => order == 0
    case Ne => order != 0
  }

  /** The version number in the name of a CUDA index: "cu128" names 12.8. */
  ghost predicate Names(name: string, cu: Pair) {
    && |name| >= 4 && name[..2] == "cu" && AllDigits(name[2..])
    && AllDigits(name[2..|name| - 1]) && Value(name[2..|name| - 1]) == cu.major
    && AllDigits(name[|name| - 1..]) && Value(name[|name| - 1..]) == cu.minor
  }

  ghost predicate PlainlyEligible(probes: Probes, name: string, cu: Pair) {
    Names(name, cu) && probes.driver.Some? && ComparePairs(cu, probes.driver.value) <= 0
  }

  ghost predicate PlainCandidate(w: Wheels, probes: Probes, spec: seq<Bound>, c: Candidate) {
    && PlainlyEligible(probes, c.name, c.cu)
    && (exists ix :: ix in w.indexes && ix.name == c.name
                     && probes.arch in ix.published && c.version in ix.published[probes.arch])
    && (forall b | b in spec :: PlainlyMeets(c.version, b))
  }

  ghost predicate PlainlyBuilt(w: Wheels, probes: Probes, c: Candidate) {
    var key := (c.name, probes.arch, c.version.text);
    key in w.archLists && forall cc | cc in probes.caps :: Covered(cc, Entries(Split(w.archLists[key], ';')))
  }

  /** Unified memory asks for CUDA 13 on aarch64; elsewhere the evidence is ignored. */
  ghost predicate PlainlyAllowed(probes: Probes, c: Candidate) {
    probes.memory == Unified && probes.arch == "aarch64" ==> c.cu.major >= 13
  }

  /** The candidate satisfies every rule on this host. */
  ghost predicate Suits(w: Wheels, probes: Probes, spec: seq<Bound>, need: bool, c: Candidate) {
    && PlainCandidate(w, probes, spec, c) && PlainlyBuilt(w, probes, c) && PlainlyAllowed(probes, c)
    && (need ==> (c.name, probes.arch, c.version.text) in w.torchaudio)
  }

  lemma RangeMeans(v: Version, spec: seq<Bound>)
    ensures InRange(v, spec) <==> forall b | b in spec :: PlainlyMeets(v, b)
  {
    forall b | b in spec ensures Meets(v, b) <==> PlainlyMeets(v, b) {}
  }

  lemma NamesMean(name: string, cu: Pair)
    ensures CudaVersion(name) == Some(cu) <==> Names(name, cu)
  {
    if |name| >= 4 {
      var digits := name[2..];
      assert digits[..|digits| - 1] == name[2..|name| - 1] && digits[|digits| - 1..] == name[|name| - 1..];
      assert AllDigits(digits) ==> '.' !in digits;
    }
  }

  lemma CandidateMeans(w: Wheels, probes: Probes, spec: seq<Bound>, c: Candidate)
    ensures IsCandidate(w, Effective(probes), spec, c) <==> PlainCandidate(w, probes, spec, c)
  {
    NamesMean(c.name, c.cu);
    RangeMeans(c.version, spec);
  }

  lemma BuiltMeans(w: Wheels, probes: Probes, c: Candidate)
    ensures BuiltFor(w, Effective(probes), c) <==> PlainlyBuilt(w, probes, c)
    ensures MemoryAllows(Effective(probes), c) <==> PlainlyAllowed(probes, c)
  {
    var p := Effective(probes);
    if ArchList(w, p, c).Some? { NoneBadExactly(CoveredBy(Entries(Split(ArchList(w, p, c).value, ';'))), p.caps); }
  }

  lemma SuitsMeans(w: Wheels, probes: Probes, spec: seq<Bound>, need: bool, c: Candidate)
    ensures IsCandidate(w, Effective(probes), spec, c) && Passes(w, Effective(probes), need, c)
            <==> Suits(w, probes, spec, need, c)
  {
    CandidateMeans(w, probes, spec, c);
    BuiltMeans(w, probes, c);
  }

  /** What a chosen CUDA build is: it suits the host, and any other that does has a lower torch, or the same
      torch from an older CUDA, or the same from an index with a later name; the self-test is asked for on
      aarch64 with CUDA 13 unless the memory is known to be discrete. */
  lemma CudaMeans(w: Wheels, probes: Probes, spec: seq<Bound>, need: bool, c: Candidate, selftest: bool)
    requires IsOutcome(w, probes, spec, need, Cuda(c, selftest))
    ensures Suits(w, probes, spec, need, c)
    ensures forall d | Suits(w, probes, spec, need, d) && d != c ::
              || Compare(d.version, c.version) < 0
              || (Compare(d.version, c.version) == 0
                  && (ComparePairs(d.cu, c.cu) < 0 || (d.cu == c.cu && TextAtMost(c.name, d.name))))
    ensures selftest <==> probes.arch == "aarch64" && c.cu.major >= 13 && probes.memory != Discrete
  {
    SuitsMeans(w, probes, spec, need, c);
    forall d | Suits(w, probes, spec, need, d) && d != c ensures Ranks(c, d) { SuitsMeans(w, probes, spec, need, d); }
  }

  /** What the CPU outcome is: nothing suits the host, and the torch is the newest in range, if any. */
  lemma CpuMeans(w: Wheels, probes: Probes, spec: seq<Bound>, need: bool, version: Option<Version>, t: Terminal)
    requires IsOutcome(w, probes, spec, need, Cpu(version, t))
    ensures forall d :: !Suits(w, probes, spec, need, d)
    ensures version.Some? ==>
              && probes.arch in w.cpu && version.value in w.cpu[probes.arch]
              && (forall b | b in spec :: PlainlyMeets(version.value, b))
              && (forall u | u in w.cpu[probes.arch] && (forall b | b in spec :: PlainlyMeets(u, b)) ::
                    Compare(u, version.value) <= 0)
    ensures version.None? && probes.arch in w.cpu ==>
              forall u | u in w.cpu[probes.arch] :: !(forall b | b in spec :: PlainlyMeets(u, b))
  {
    forall d ensures !Suits(w, probes, spec, need, d) { SuitsMeans(w, probes, spec, need, d); }
    forall u: Version ensures InRange(u, spec) <==> forall b | b in spec :: PlainlyMeets(u, b) { RangeMeans(u, spec); }
  }

  /** What the reason of a CPU outcome says of the host. */
  lemma TerminalMeans(w: Wheels, probes: Probes, spec: seq<Bound>, need: bool, version: Option<Version>, t: Terminal)
    requires IsOutcome(w, probes, spec, need, Cpu(version, t))
    ensures match t
            case DriverUnknown => probes.driver.None?
            case DriverTooOld =>
              probes.driver.Some? && forall ix, cu | ix in w.indexes :: !PlainlyEligible(probes, ix.name, cu)
            case NothingInRange => forall c :: !PlainCandidate(w, probes, spec, c)
            case NothingCovers =>
              && (exists c :: PlainCandidate(w, probes, spec, c))
              && forall c | PlainCandidate(w, probes, spec, c) :: !PlainlyBuilt(w, probes, c)
            case UnifiedUnsupported =>
              && probes.memory == Unified && probes.arch == "aarch64"
              && forall c | PlainCandidate(w, probes, spec, c) && PlainlyBuilt(w, probes, c) :: c.cu.major < 13
            case TorchaudioMissing =>
              && need
              && (exists c :: PlainCandidate(w, probes, spec, c) && PlainlyBuilt(w, probes, c) && PlainlyAllowed(probes, c))
              && forall c | PlainCandidate(w, probes, spec, c) && PlainlyBuilt(w, probes, c) && PlainlyAllowed(probes, c) ::
                   (c.name, probes.arch, c.version.text) !in w.torchaudio
            case Exhausted => false
  {
    forall c ensures IsCandidate(w, Effective(probes), spec, c) <==> PlainCandidate(w, probes, spec, c) {
      CandidateMeans(w, probes, spec, c);
    }
    forall c
      ensures BuiltFor(w, Effective(probes), c) <==> PlainlyBuilt(w, probes, c)
      ensures MemoryAllows(Effective(probes), c) <==> PlainlyAllowed(probes, c)
    {
      BuiltMeans(w, probes, c);
    }
    forall ix: Index, cu ensures PlainlyEligible(probes, ix.name, cu) ==> Eligible(Effective(probes), ix.name) {
      NamesMean(ix.name, cu);
    }
  }

  /** The order of names: the first characters to differ decide, and a beginning comes first. */
  lemma {:induction false} TextAtMostMeans(s: string, t: string)
    ensures TextAtMost(s, t) <==>
              s <= t || exists k :: 0 <= k < |s| && k < |t| && s[..k] == t[..k] && s[k] < t[k]
  {
    if s != "" && t != "" {
      if s[0] == t[0] {
        TextAtMostMeans(s[1..], t[1..]);
        TextTails(s, t);
      } else if s[0] < t[0] {
        assert s[..0] == t[..0];
      } else {
        forall k | 0 < k < |s| && k < |t| ensures s[..k] != t[..k] { assert s[..k][0] != t[..k][0]; }
      }
    }
  }

  lemma TextTails(s: string, t: string)
    requires s != "" && t != "" && s[0] == t[0]
    ensures s[1..] <= t[1..] <==> s <= t
    ensures (exists k :: 0 <= k < |s[1..]| && k < |t[1..]| && s[1..][..k] == t[1..][..k] && s[1..][k] < t[1..][k])
            <==> exists k :: 0 <= k < |s| && k < |t| && s[..k] == t[..k] && s[k] < t[k]
  {
    forall k | 0 <= k < |s| - 1 && k < |t| - 1 ensures s[1..][..k] == t[1..][..k] <==> s[..k + 1] == t[..k + 1] {
      assert s[..k + 1] == [s[0]] + s[1..][..k] && t[..k + 1] == [t[0]] + t[1..][..k];
    }
    if exists k :: 0 <= k < |s[1..]| && k < |t[1..]| && s[1..][..k] == t[1..][..k] && s[1..][k] < t[1..][k] {
      var k :| 0 <= k < |s[1..]| && k < |t[1..]| && s[1..][..k] == t[1..][..k] && s[1..][k] < t[1..][k];
      assert s[..k + 1] == t[..k + 1] && s[k + 1] < t[k + 1];
    }
    if exists k :: 0 <= k < |s| && k < |t| && s[..k] == t[..k] && s[k] < t[k] {
      var k :| 0 <= k < |s| && k < |t| && s[..k] == t[..k] && s[k] < t[k];
      assert s[1..][..k - 1] == t[1..][..k - 1] && s[1..][k - 1] < t[1..][k - 1];
    }
  }

  // ------------------------------------------------------------------ what the rules imply

  lemma RanksAbove(c: Candidate, d: Candidate)
    requires d == c || Ranks(c, d)
    ensures var order := Compare(c.version, d.version); order > 0 || (order == 0 && ComparePairs(c.cu, d.cu) >= 0)
  {}

  /** Two outcomes for the same host agree on the index kind, the torch and the CUDA version. */
  lemma OutcomeDetermined(w: Wheels, probes: Probes, spec: seq<Bound>, need: bool, a: Outcome, b: Outcome)
    requires IsOutcome(w, probes, spec, need, a) && IsOutcome(w, probes, spec, need, b)
    ensures a.Cuda? == b.Cuda?
    ensures a.Cuda? ==> SameVersion(a.choice.version, b.choice.version) && a.choice.cu == b.choice.cu
  {}

  /** The CPU index is chosen exactly when no candidate satisfies every rule. */
  lemma CpuExactly(w: Wheels, probes: Probes, spec: seq<Bound>, need: bool, out: Outcome)
    requires IsOutcome(w, probes, spec, need, out)
    ensures out.Cpu? <==> forall c | IsCandidate(w, Effective(probes), spec, c) :: !Passes(w, Effective(probes), need, c)
    ensures out.Cpu? ==> out.terminal != Exhausted
  {}

  /** A newer driver keeps every candidate and every verdict. */
  lemma NewerDriverKeeps(w: Wheels, p: Probes, driver: Option<Pair>, spec: seq<Bound>, need: bool, c: Candidate)
    requires p.driver.Some? ==> driver.Some? && AtMost(p.driver.value, driver.value)
    requires IsCandidate(w, p, spec, c)
    ensures IsCandidate(w, p.(driver := driver), spec, c)
    ensures Passes(w, p.(driver := driver), need, c) <==> Passes(w, p, need, c)
  {}

  /** A newer driver never turns CUDA into CPU, nor lowers the torch, nor the CUDA version of the same torch. */
  lemma NewerDriverNeverHurts(w: Wheels, probes: Probes, driver: Option<Pair>, spec: seq<Bound>, need: bool,
                              before: Outcome, after: Outcome)
    requires probes.driver.Some? ==> driver.Some? && ComparePairs(probes.driver.value, driver.value) <= 0
    requires IsOutcome(w, probes, spec, need, before) && IsOutcome(w, probes.(driver := driver), spec, need, after)
    ensures before.Cuda? ==>
              && after.Cuda?
              && var order := Compare(after.choice.version, before.choice.version);
                 order > 0 || (order == 0 && ComparePairs(after.choice.cu, before.choice.cu) >= 0)
  {
    if before.Cuda? {
      var p := Effective(probes);
      NewerDriverKeeps(w, p, driver, spec, need, before.choice);
      assert Effective(probes.(driver := driver)) == p.(driver := driver);
      RanksAbove(after.choice, before.choice);
    }
  }

  /** One more device only adds rejections. */
  lemma MoreDevicesKeepLess(w: Wheels, p: Probes, caps: seq<Pair>, spec: seq<Bound>, need: bool, c: Candidate)
    requires (forall cc | cc in p.caps :: cc in caps) && IsCandidate(w, p.(caps := caps), spec, c)
    requires Passes(w, p.(caps := caps), need, c)
    ensures IsCandidate(w, p, spec, c) && Passes(w, p, need, c)
  {
    var ok := CoveredBy(Entries(Split(ArchList(w, p, c).value, ';')));
    NoneBadExactly(ok, p.caps);
    NoneBadExactly(ok, caps);
  }

  /** More probed devices never turn CPU into CUDA, nor raise the torch, nor the CUDA version of the same torch. */
  lemma MoreDevicesNeverHelp(w: Wheels, probes: Probes, caps: seq<Pair>, spec: seq<Bound>, need: bool,
                             before: Outcome, after: Outcome)
    requires forall cc | cc in probes.caps :: cc in caps
    requires IsOutcome(w, probes, spec, need, before) && IsOutcome(w, probes.(caps := caps), spec, need, after)
    ensures after.Cuda? ==>
              && before.Cuda?
              && var order := Compare(before.choice.version, after.choice.version);
                 order > 0 || (order == 0 && ComparePairs(before.choice.cu, after.choice.cu) >= 0)
  {
    if after.Cuda? {
      var p := Effective(probes);
      MoreDevicesKeepLess(w, p, caps, spec, need, after.choice);
      assert Effective(probes.(caps := caps)) == p.(caps := caps);
      RanksAbove(before.choice, after.choice);
    }
  }

  /** A chosen CUDA build runs on every probed device, and a unified-memory host always runs the
      numerical self-test before it keeps one. */
  lemma ChosenRunsEverywhere(w: Wheels, probes: Probes, spec: seq<Bound>, need: bool, out: Outcome, cc: Pair)
    requires IsOutcome(w, probes, spec, need, out) && out.Cuda? && cc in probes.caps
    ensures var key := (out.choice.name, probes.arch, out.choice.version.text);
            key in w.archLists && Covered(cc, Entries(Split(w.archLists[key], ';')))
    ensures Effective(probes).memory == Unified ==> out.selftest
  {
    var p := Effective(probes);
    NoneBadExactly(CoveredBy(Entries(Split(ArchList(w, p, out.choice).value, ';'))), p.caps);
  }
}
