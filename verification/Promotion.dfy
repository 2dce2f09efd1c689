/**
 * Accepting or refusing a trained adapter (scripts/sleep_external_train.py): the abliteration
 * verdict, and the run of `_train` from loading the model to moving the `current` link, with
 * exceptions, cancellation and interruption at every step.
 */
module Promotion {
  import opened Wrappers

  // ------------------------------------------------------------------ the abliteration verdict

  datatype Flag = Absent | NotABool | Is(value: bool)

  /** A probe as it is read: not a dict, or a dict with its prompt stripped, its patterns stripped
      (None when they are not a list) and its in_character entry. */
  datatype Probe = NotADict | Probe(prompt: string, patterns: Option<seq<string>>, inCharacter: Flag)

  datatype Verdict = Passed(scored: nat) | Invalid | Empty | Deflected(probe: nat, pattern: string)

  function NonEmpty(xs: seq<string>): seq<string> {
    if xs == [] then [] else NonEmpty(xs[..|xs| - 1]) + (if xs[|xs| - 1] == "" then [] else [xs[|xs| - 1]])
  }

  predicate Valid(p: Probe) {
    p.Probe? && p.patterns.Some? && p.inCharacter != NotABool && p.prompt != "" && NonEmpty(p.patterns.value) != []
  }

  /** The pattern a reply deflects with, if any; quoted text is left out for in-character probes. */
  type Finder = (string, seq<string>, bool) -> Option<string>

  function Match(find: Finder, reply: string -> string, p: Probe): Option<string>
    requires Valid(p)
  { find(reply(p.prompt), NonEmpty(p.patterns.value), p.inCharacter == Is(true)) }

  /** There are probes, all of them are valid, and none is deflected. */
  predicate ProbesHold(probes: Option<seq<Probe>>, reply: string -> string, find: Finder) {
    && probes.Some? && probes.value != []
    && forall p | p in probes.value :: Valid(p) && Match(find, reply, p) == None
  }

  method DropEmpty(xs: seq<string>) returns (kept: seq<string>)
    ensures kept == NonEmpty(xs)
  {
    kept := [];
    for i := 0 to |xs|
      invariant kept == NonEmpty(xs[..i])
    {
      assert xs[..i + 1][..i] == xs[..i];
      if xs[i] != "" {
        kept := kept + [xs[i]];
      }
    }
    assert xs[..|xs|] == xs;
  }

  /** A probe that can be put to the model: its prompt, its patterns and whether it is in character. */
  datatype Usable = Usable(prompt: string, patterns: seq<string>, inCharacter: bool)

  /** The checks one probe goes through. */
  method ReadProbe(p: Probe) returns (u: Option<Usable>)
    ensures u.Some? <==> Valid(p)
    ensures u.Some? ==> u.value == Usable(p.prompt, NonEmpty(p.patterns.value), p.inCharacter == Is(true))
  {
    if p.NotADict? || p.patterns.None? {
      return None;
    }
    var inCharacter := false;
    if p.inCharacter.NotABool? {
      return None;
    } else if p.inCharacter.Is? {
      inCharacter := p.inCharacter.value;
    }
    var patterns := DropEmpty(p.patterns.value);
    if p.prompt == "" || patterns == [] {
      return None;
    }
    u := Some(Usable(p.prompt, patterns, inCharacter));
  }

  /** The verdict passes exactly for a non-empty list of valid probes none of which is deflected; it
      fails closed on anything else, and names the first deflected probe. */
  method AbliterationVerdict(probes: Option<seq<Probe>>, reply: string -> string, find: Finder) returns (v: Verdict)
    ensures v.Passed? <==> ProbesHold(probes, reply, find)
    ensures v == Invalid <==> probes.None? || exists p :: p in probes.value && !Valid(p)
    ensures v == Empty <==> probes == Some([])
    ensures v.Deflected? ==> && v.probe < |probes.value| && (forall p | p in probes.value :: Valid(p))
                             && Match(find, reply, probes.value[v.probe]) == Some(v.pattern)
                             && forall i | 0 <= i < v.probe :: Match(find, reply, probes.value[i]) == None
    ensures v.Passed? ==> v.scored == |probes.value|
  {
    if probes.None? {
      return Invalid;
    }
    var ps := probes.value;
    var usable: seq<Usable> := [];
    for i := 0 to |ps|
      invariant |usable| == i
      invariant forall j | 0 <= j < i :: Valid(ps[j])
      invariant forall j | 0 <= j < i ::
                  usable[j] == Usable(ps[j].prompt, NonEmpty(ps[j].patterns.value), ps[j].inCharacter == Is(true))
    {
      var u := ReadProbe(ps[i]);
      if u.None? {
        assert ps[i] in ps;
        return Invalid;
      }
      usable := usable + [u.value];
    }
    if usable == [] {
      return Empty;
    }
    for i := 0 to |usable|
      invariant forall j | 0 <= j < i :: Match(find, reply, ps[j]) == None
    {
      var response := reply(usable[i].prompt);
      var matched := find(response, usable[i].patterns, usable[i].inCharacter);
      if matched.Some? {
        assert ps[i] in ps && Match(find, reply, ps[i]) == matched;
        return Deflected(i, matched.value);
      }
    }
    v := Passed(|ps|);
  }

  // ------------------------------------------------------------------ the run

  /** What decides a run: the probes and what the trained model replies to them, the capability scores
      and their threshold, and whether the final directory exists already. */
  datatype Job = Job(
    probes: Option<seq<Probe>>, reply: string -> string, find: Finder,
    before: real, after: real, threshold: real, finalTaken: bool)
  {
    /** What the abliteration verdict of the run is. */
    predicate Passed() { ProbesHold(probes, reply, find) }
  }

  predicate GatesPassed(j: Job) { j.Passed() && j.before - j.after <= j.threshold }

  datatype Outcome = Accepted | Rejected | OutOfMemory | Raised | Interrupted

  datatype Pc =
    | Loading | ScoringBefore | Preparing
    | Training | MakingTmp | Saving | SavingTokenizer | Probing | ScoringAfter | Gating
    | CheckingCancel | CheckingFinal | Renaming | ClearingSwap | Linking | Swinging | Returning
    | Vetoing | Cancelling | Cleaning(oom: bool) | CleaningAgain
    | Done(outcome: Outcome)

  datatype Link = Previous | Promoted

  datatype State = State(pc: Pc, tmp: bool, final: bool, current: Link, cancelled: bool)

  /** `Go`: the operation succeeds.  `Fail`: it raises an exception.  `Keep`: a removal leaves the
      directory.  `Cancel`: the job is marked cancelled.  `Interrupt`: the process is interrupted,
      which no handler of the source catches. */
  datatype Event = Go | Fail(oom: bool) | Keep | Cancel | Interrupt

  function Start(j: Job): State { State(Loading, false, j.finalTaken, Previous, false) }

  function At(s: State, pc: Pc): State { s.(pc := pc) }

  /** The operation at each step succeeds. */
  function Forward(j: Job, s: State): State {
    match s.pc
    case Loading => At(s, ScoringBefore)
    case ScoringBefore => At(s, Preparing)
    case Preparing => At(s, Training)
    case Training => At(s, MakingTmp)
    case MakingTmp => s.(pc := Saving, tmp := true)
    case Saving => At(s, SavingTokenizer)
    case SavingTokenizer => At(s, Probing)
    case Probing => At(s, if j.Passed() then ScoringAfter else Vetoing)
    case ScoringAfter => At(s, Gating)
    case Gating => At(s, if j.before - j.after > j.threshold then Vetoing else CheckingCancel)
    case CheckingCancel => At(s, if s.cancelled then Cancelling else CheckingFinal)
    case CheckingFinal => At(s, if s.final then Cleaning(false) else Renaming)
    case Renaming => s.(pc := ClearingSwap, tmp := false, final := true)
    case ClearingSwap => At(s, Linking)
    case Linking => At(s, Swinging)
    case Swinging => s.(pc := Returning, current := Promoted)
    case Returning => At(s, Done(Accepted))
    case _ => Removed(s.(tmp := false))
  }

  /** After a removal, whether or not it succeeded. */
  function Removed(s: State): State {
    match s.pc
    case Vetoing => At(s, Done(Rejected))
    case Cancelling => At(s, Cleaning(false))
    case Cleaning(oom) => At(s, if oom then CleaningAgain else Done(Raised))
    case CleaningAgain => At(s, Done(OutOfMemory))
    case _ => s
  }

  predicate Removing(pc: Pc) { pc.Vetoing? || pc.Cancelling? || pc.Cleaning? || pc.CleaningAgain? }

  /** The operation at each step raises: before the protected part there is nothing to clean; a
      tokenizer that cannot be saved is ignored; building the result cannot raise. */
  function Raise(s: State, oom: bool): Option<State> {
    match s.pc
    case Loading => Some(At(s, Done(if oom then OutOfMemory else Raised)))
    case ScoringBefore => Some(At(s, Done(Raised)))
    case Preparing => Some(At(s, Done(Raised)))
    case SavingTokenizer => Some(At(s, Probing))
    case Returning => None
    case Done(_) => None
    case _ => if Removing(s.pc) then None else Some(At(s, Cleaning(oom)))
  }

  function Next(j: Job, s: State, e: Event): Option<State> {
    match e
    case Cancel => Some(s.(cancelled := true))
    case Go => if s.pc.Done? then None else Some(Forward(j, s))
    case Fail(oom) => Raise(s, oom)
    case Keep => if Removing(s.pc) then Some(Removed(s)) else None
    case Interrupt => if s.pc.Done? then None else Some(At(s, Done(Interrupted)))
  }

  /** The state after the events that apply, in order. */
  function Run(j: Job, s: State, es: seq<Event>): Option<State>
    decreases es
  {
    if es == [] then Some(s)
    else
      match Next(j, s, es[0])
      case Some(t) => Run(j, t, es[1..])
      case None => None
  }

  // ------------------------------------------------------------------ what every step keeps

  /** Past the gates, on the way to the link. */
  ghost predicate PastGates(pc: Pc) {
    pc.CheckingCancel? || pc.CheckingFinal? || pc.Renaming? || pc.ClearingSwap? || pc.Linking? || pc.Swinging?
    || pc.Returning? || pc == Done(Accepted) || pc.Cancelling?
  }

  ghost predicate BeforeTmp(pc: Pc) {
    pc.Loading? || pc.ScoringBefore? || pc.Preparing? || pc.Training? || pc.MakingTmp?
  }

  ghost predicate Renamed(pc: Pc) { pc.ClearingSwap? || pc.Linking? || pc.Swinging? || pc.Returning? || pc == Done(Accepted) }

  /** What `current` and the gates have to do with the step the run is at. */
  ghost predicate LinkInv(j: Job, s: State) {
    && (PastGates(s.pc) ==> GatesPassed(j))
    && ((s.pc.ScoringAfter? || s.pc.Gating?) ==> j.Passed())
    && (s.pc.Returning? || s.pc == Done(Accepted) ==> s.current == Promoted)
    && (s.current == Promoted ==>
          (s.pc.Returning? || s.pc == Done(Accepted) || s.pc == Done(Interrupted)) && GatesPassed(j))
  }

  /** What the directories have to do with it; `kept`: some removal has left the directory. */
  ghost predicate DirInv(s: State, kept: bool) {
    && (BeforeTmp(s.pc) ==> !s.tmp)
    && (Renamed(s.pc) || s.current == Promoted ==> !s.tmp && s.final)
    && (s.pc.Done? && s.pc != Done(Interrupted) && s.tmp ==> kept)
    && (s.pc.CleaningAgain? && s.tmp ==> kept)
  }

  ghost predicate Inv(j: Job, s: State, kept: bool) { LinkInv(j, s) && DirInv(s, kept) }

  lemma ForwardLink(j: Job, s: State)
    requires LinkInv(j, s) && !s.pc.Done?
    ensures LinkInv(j, Forward(j, s))
  {}

  lemma RaiseLink(j: Job, s: State, oom: bool)
    requires LinkInv(j, s) && Raise(s, oom).Some?
    ensures LinkInv(j, Raise(s, oom).value)
  {}

  lemma RemovedLink(j: Job, s: State)
    requires LinkInv(j, s) && Removing(s.pc)
    ensures LinkInv(j, Removed(s))
  {}

  lemma ForwardDir(j: Job, s: State, kept: bool)
    requires DirInv(s, kept) && LinkInv(j, s) && !s.pc.Done?
    ensures DirInv(Forward(j, s), kept)
  {}

  lemma RaiseDir(j: Job, s: State, kept: bool, oom: bool)
    requires DirInv(s, kept) && LinkInv(j, s) && Raise(s, oom).Some?
    ensures DirInv(Raise(s, oom).value, kept)
  {}

  lemma RemovedDir(j: Job, s: State, kept: bool)
    requires DirInv(s, kept) && LinkInv(j, s) && Removing(s.pc)
    ensures DirInv(Removed(s), true)
  {}

  lemma StepInv(j: Job, s: State, kept: bool, e: Event)
    requires Inv(j, s, kept) && Next(j, s, e).Some?
    ensures Inv(j, Next(j, s, e).value, kept || e == Keep)
  {
    match e
    case Go => ForwardLink(j, s); ForwardDir(j, s, kept);
    case Fail(oom) => RaiseLink(j, s, oom); RaiseDir(j, s, kept, oom);
    case Keep => RemovedLink(j, s); RemovedDir(j, s, kept);
    case Cancel =>
    case Interrupt =>
  }

  lemma {:induction false} RunInv(j: Job, s: State, kept: bool, es: seq<Event>)
    requires Inv(j, s, kept) && Run(j, s, es).Some?
    ensures Inv(j, Run(j, s, es).value, kept || Keep in es)
    decreases es
  {
    if es != [] {
      StepInv(j, s, kept, es[0]);
      RunInv(j, Next(j, s, es[0]).value, kept || es[0] == Keep, es[1..]);
      assert es == [es[0]] + es[1..];
    }
  }

  // ------------------------------------------------------------------ the guarantees

  /** In every run, whatever fails and whenever it is cancelled or interrupted, `current` moves only
      when there were probes, all valid and none deflected, and the capability loss is within the
      threshold; and then it names a complete adapter directory. */
  lemma CurrentMovesOnlyPastTheGates(j: Job, es: seq<Event>)
    requires Run(j, Start(j), es).Some? && Run(j, Start(j), es).value.current == Promoted
    ensures j.probes.Some? && j.probes.value != []
    ensures forall p | p in j.probes.value ::
              Valid(p) && j.find(j.reply(p.prompt), NonEmpty(p.patterns.value), p.inCharacter == Is(true)) == None
    ensures j.before - j.after <= j.threshold
    ensures Run(j, Start(j), es).value.final && !Run(j, Start(j), es).value.tmp
  {
    RunInv(j, Start(j), false, es);
  }

  lemma {:induction false} RunAppend(j: Job, s: State, es: seq<Event>, e: Event)
    requires Run(j, s, es).Some?
    ensures Run(j, s, es + [e]) == Next(j, Run(j, s, es).value, e)
    decreases es
  {
    if es == [] {
      assert es + [e] == [e] && [e][1..] == [];
    } else {
      assert (es + [e])[1..] == es[1..] + [e];
      RunAppend(j, Next(j, s, es[0]).value, es[1..], e);
    }
  }

  /** Every beginning of a run is a run. */
  lemma {:induction false} RunPrefix(j: Job, s: State, es: seq<Event>, k: nat)
    requires Run(j, s, es).Some? && k <= |es|
    ensures Run(j, s, es[..k]).Some?
    decreases es
  {
    if k > 0 {
      assert es[..k][0] == es[0] && es[..k][1..] == es[1..][..k - 1];
      RunPrefix(j, Next(j, s, es[0]).value, es[1..], k - 1);
    }
  }

  /** The state of a run before its event `k`. */
  ghost function Before(j: Job, es: seq<Event>, k: nat): State
    requires Run(j, Start(j), es).Some? && k <= |es|
  { RunPrefix(j, Start(j), es, k); Run(j, Start(j), es[..k]).value }

  /** The event that ends the run. */
  ghost predicate Ends(j: Job, es: seq<Event>, k: nat)
    requires Run(j, Start(j), es).Some?
  { k < |es| && !Before(j, es, k).pc.Done? && Before(j, es, k + 1).pc.Done? }

  lemma NextBefore(j: Job, es: seq<Event>, k: nat)
    requires Run(j, Start(j), es).Some? && k < |es|
    ensures Next(j, Before(j, es, k), es[k]) == Some(Before(j, es, k + 1))
  {
    RunPrefix(j, Start(j), es, k);
    RunPrefix(j, Start(j), es, k + 1);
    assert es[..k + 1] == es[..k] + [es[k]];
    RunAppend(j, Start(j), es[..k], es[k]);
  }

  /** After its end a run can only be marked cancelled. */
  lemma DoneStays(j: Job, s: State, e: Event, t: State)
    requires s.pc.Done? && Next(j, s, e) == Some(t)
    ensures t == s.(cancelled := true)
  {}

  lemma BeforeStart(j: Job, es: seq<Event>)
    requires Run(j, Start(j), es).Some?
    ensures Before(j, es, 0) == Start(j) && Before(j, es, |es|) == Run(j, Start(j), es).value
  {
    assert es[..0] == [] && es[..|es|] == es;
  }

  /** A run that has ended was ended by one event, and has not changed since but for a cancellation. */
  lemma {:induction false} EndingEvent(j: Job, es: seq<Event>, n: nat) returns (k: nat)
    requires Run(j, Start(j), es).Some? && n <= |es| && Before(j, es, n).pc.Done?
    ensures Ends(j, es, k) && k < n
    ensures Before(j, es, n) == Before(j, es, k + 1).(cancelled := Before(j, es, n).cancelled)
    decreases n
  {
    BeforeStart(j, es);
    k := n - 1;
    NextBefore(j, es, k);
    if Before(j, es, k).pc.Done? {
      DoneStays(j, Before(j, es, k), es[k], Before(j, es, n));
      k := EndingEvent(j, es, k);
    }
  }

  /** What the event `e` leaves when it takes `s` to `t`, the end of the run. */
  ghost predicate EndedWell(j: Job, s: State, e: Event, t: State) {
    && t.pc.Done?
    && (t.pc.outcome == Accepted ==> t.current == Promoted && GatesPassed(j))
    && (t.pc.outcome != Accepted && t.current == Promoted <==> e == Interrupt && s.pc.Returning?)
    && (t.tmp <==> s.tmp && (e == Interrupt || e == Keep))
  }

  lemma EndedForward(j: Job, s: State)
    requires LinkInv(j, s) && DirInv(s, true) && !s.pc.Done? && Forward(j, s).pc.Done?
    ensures EndedWell(j, s, Go, Forward(j, s))
  {}

  lemma EndedRaise(j: Job, s: State, oom: bool)
    requires LinkInv(j, s) && DirInv(s, true) && Raise(s, oom).Some? && Raise(s, oom).value.pc.Done?
    ensures EndedWell(j, s, Fail(oom), Raise(s, oom).value)
  {}

  lemma EndedRemoved(j: Job, s: State)
    requires LinkInv(j, s) && Removing(s.pc) && Removed(s).pc.Done?
    ensures EndedWell(j, s, Keep, Removed(s))
  {}

  lemma EndedBy(j: Job, s: State, e: Event)
    requires LinkInv(j, s) && DirInv(s, true) && !s.pc.Done? && Next(j, s, e).Some? && Next(j, s, e).value.pc.Done?
    ensures EndedWell(j, s, e, Next(j, s, e).value)
  {
    match e
    case Go => EndedForward(j, s);
    case Fail(oom) => EndedRaise(j, s, oom);
    case Keep => EndedRemoved(j, s);
    case Interrupt =>
  }

  /** An accepted run has moved `current`, past the gates.  A run that ends without acceptance has moved
      it exactly when it was interrupted between the move and its return; and a run leaves the
      temporary directory exactly when the event that ended it found one and was an interruption or a
      removal that left it. */
  lemma EndedRun(j: Job, es: seq<Event>) returns (k: nat)
    requires Run(j, Start(j), es).Some? && Run(j, Start(j), es).value.pc.Done?
    ensures Ends(j, es, k)
    ensures var s := Run(j, Start(j), es).value;
            && (s.pc.outcome == Accepted ==> s.current == Promoted && GatesPassed(j) && !s.tmp)
            && (s.pc.outcome != Accepted && s.current == Promoted <==> es[k] == Interrupt && Before(j, es, k).pc.Returning?)
            && (s.tmp <==> Before(j, es, k).tmp && (es[k] == Interrupt || es[k] == Keep))
  {
    BeforeStart(j, es);
    k := EndingEvent(j, es, |es|);
    RunPrefix(j, Start(j), es, k);
    RunInv(j, Start(j), false, es[..k]);
    NextBefore(j, es, k);
    EndedBy(j, Before(j, es, k), es[k]);
    RunInv(j, Start(j), false, es);
  }

  ghost predicate BeforeCheck(pc: Pc) {
    BeforeTmp(pc) || pc.Saving? || pc.SavingTokenizer? || pc.Probing? || pc.ScoringAfter? || pc.Gating? || pc.CheckingCancel?
  }

  ghost predicate Doomed(s: State) {
    s.cancelled && s.current == Previous && (BeforeCheck(s.pc) || Removing(s.pc) || (s.pc.Done? && s.pc.outcome != Accepted))
  }

  lemma DoomedStep(j: Job, s: State, e: Event)
    requires Doomed(s) && Next(j, s, e).Some?
    ensures Doomed(Next(j, s, e).value)
  {
    match e
    case Go =>
    case Fail(oom) =>
    case Keep =>
    case Cancel =>
    case Interrupt =>
  }

  /** A job cancelled before the check is never promoted, however the run goes on. */
  lemma {:induction false} CancelledIsNeverPromoted(j: Job, s: State, es: seq<Event>)
    requires Doomed(s) && Run(j, s, es).Some?
    ensures Run(j, s, es).value.current == Previous && Run(j, s, es).value.pc != Done(Accepted)
    decreases es
  {
    if es != [] {
      DoomedStep(j, s, es[0]);
      CancelledIsNeverPromoted(j, Next(j, s, es[0]).value, es[1..]);
    }
  }

  // ------------------------------------------------------------------ the run ends, and when it accepts

  ghost function Rank(pc: Pc): nat {
    match pc
    case Loading => 21 case ScoringBefore => 20 case Preparing => 19 case Training => 18 case MakingTmp => 17
    case Saving => 16 case SavingTokenizer => 15 case Probing => 14 case ScoringAfter => 13 case Gating => 12
    case CheckingCancel => 11 case CheckingFinal => 10 case Renaming => 9 case ClearingSwap => 8 case Linking => 7
    case Swinging => 6 case Returning => 1 case Vetoing => 5 case Cancelling => 5 case Cleaning(_) => 4
    case CleaningAgain => 3 case Done(_) => 0
  }

  lemma SavedDescends(j: Job, s: State)
    requires s.pc.Saving? || s.pc.SavingTokenizer? || s.pc.Probing? || s.pc.ScoringAfter? || s.pc.Gating?
    ensures Rank(Forward(j, s).pc) < Rank(s.pc)
  {}

  lemma PromotingDescends(j: Job, s: State)
    requires !s.pc.Cancelling? && (PastGates(s.pc) || Removing(s.pc)) && !s.pc.Done?
    ensures Rank(Forward(j, s).pc) < Rank(s.pc)
  {}

  lemma ForwardDescends(j: Job, s: State)
    requires !s.pc.Done?
    ensures Rank(Forward(j, s).pc) < Rank(s.pc)
  {
    if s.pc.Saving? || s.pc.SavingTokenizer? || s.pc.Probing? || s.pc.ScoringAfter? || s.pc.Gating? {
      SavedDescends(j, s);
    } else if !s.pc.Cancelling? && (PastGates(s.pc) || Removing(s.pc)) {
      PromotingDescends(j, s);
    }
  }

  lemma RaiseDescends(s: State, oom: bool)
    requires Raise(s, oom).Some?
    ensures Rank(Raise(s, oom).value.pc) < Rank(s.pc)
  {}

  lemma StepDescends(j: Job, s: State, e: Event)
    requires Next(j, s, e).Some? && e != Cancel
    ensures Rank(Next(j, s, e).value.pc) < Rank(s.pc)
  {
    match e
    case Go => ForwardDescends(j, s);
    case Fail(oom) => RaiseDescends(s, oom);
    case Keep => ForwardDescends(j, s);
    case Interrupt =>
  }

  /** Every run takes at most twenty-one steps of its own, those that only mark it as cancelled apart. */
  lemma {:induction false} RunIsShort(j: Job, s: State, es: seq<Event>)
    requires Run(j, s, es).Some?
    ensures |es| - multiset(es)[Cancel] <= Rank(s.pc) - Rank(Run(j, s, es).value.pc) <= 21
    decreases es
  {
    if es != [] {
      if es[0] != Cancel { StepDescends(j, s, es[0]); }
      assert es == [es[0]] + es[1..];
      RunIsShort(j, Next(j, s, es[0]).value, es[1..]);
    }
  }

  /** The run in which every operation succeeds. */
  ghost function Undisturbed(j: Job, s: State): State
    decreases Rank(s.pc)
  {
    if s.pc.Done? then s else ForwardDescends(j, s); Undisturbed(j, Forward(j, s))
  }

  ghost function Expected(j: Job): Outcome {
    if !GatesPassed(j) then Rejected else if j.finalTaken then Raised else Accepted
  }

  /** A state of a run in which nothing has failed and nobody has cancelled. */
  ghost predicate Calm(j: Job, s: State) {
    && !s.cancelled
    && (Renamed(s.pc) || s.final == j.finalTaken)
    && ((s.pc.ScoringAfter? || s.pc.Gating?) ==> j.Passed())
    && (PastGates(s.pc) ==> GatesPassed(j) && !s.pc.Cancelling?)
    && (s.pc.Renaming? || Renamed(s.pc) ==> !j.finalTaken)
    && (s.pc.Vetoing? ==> !GatesPassed(j))
    && (s.pc.Cleaning? ==> !s.pc.oom && Expected(j) == Raised)
    && !s.pc.CleaningAgain?
    && (s.pc.Done? ==> s.pc.outcome == Expected(j))
  }

  lemma ForwardCalm(j: Job, s: State)
    requires Calm(j, s) && !s.pc.Done?
    ensures Calm(j, Forward(j, s))
  {}

  lemma {:induction false} UndisturbedIsCalm(j: Job, s: State)
    requires Calm(j, s)
    ensures Undisturbed(j, s).pc == Done(Expected(j))
    decreases Rank(s.pc)
  {
    if !s.pc.Done? {
      ForwardCalm(j, s);
      ForwardDescends(j, s);
      UndisturbedIsCalm(j, Forward(j, s));
    }
  }

  /** When nothing fails, the run accepts exactly when the probes hold, the capability loss is within
      the threshold and the target is free, and is refused exactly when one of the first two fails. */
  lemma UndisturbedAcceptsExactly(j: Job)
    ensures var passed := ProbesHold(j.probes, j.reply, j.find) && j.before - j.after <= j.threshold;
            && (Undisturbed(j, Start(j)).pc == Done(Accepted) <==> passed && !j.finalTaken)
            && (Undisturbed(j, Start(j)).pc == Done(Rejected) <==> !passed)
  {
    UndisturbedIsCalm(j, Start(j));
  }

  // ------------------------------------------------------------------ failed and cancelled runs

  /** Every step can fail but the removals, which ignore errors, and the building of the result; a removal can
      leave the directory; and a cancellation or an interruption can come at any time. */
  lemma AnythingCanHappen(j: Job, s: State, oom: bool)
    requires !s.pc.Done?
    ensures Next(j, s, Fail(oom)).Some? <==> !Removing(s.pc) && !s.pc.Returning?
    ensures Next(j, s, Keep).Some? <==> Removing(s.pc)
    ensures Next(j, s, Cancel) == Some(s.(cancelled := true))
    ensures Next(j, s, Interrupt) == Some(s.(pc := Done(Interrupted)))
  {}

  /** The steps whose exceptions are handled: from the training to the move of the link. */
  ghost predicate Protected(pc: Pc) {
    pc.Training? || pc.MakingTmp? || pc.Saving? || pc.Probing? || pc.ScoringAfter? || pc.Gating?
    || pc.CheckingCancel? || pc.CheckingFinal? || pc.Renaming? || pc.ClearingSwap? || pc.Linking? || pc.Swinging?
  }

  /** After an exception in the protected part nothing temporary is left, `current` is as it was, and the run
      ends as out of memory exactly when that is what the exception was; a tokenizer that cannot be saved
      does not matter; before the protected part only the loading tells the two apart. */
  lemma FailedRunEnds(j: Job, s: State, oom: bool)
    requires !s.pc.Done? && s.current == Previous
    ensures Protected(s.pc) ==>
              && Next(j, s, Fail(oom)).Some?
              && var t := Undisturbed(j, Next(j, s, Fail(oom)).value);
                 t.pc == Done(if oom then OutOfMemory else Raised) && !t.tmp && t.current == Previous
    ensures s.pc.SavingTokenizer? ==> Next(j, s, Fail(oom)) == Next(j, s, Go)
    ensures s.pc.Loading? ==> Next(j, s, Fail(oom)) == Some(s.(pc := Done(if oom then OutOfMemory else Raised)))
    ensures s.pc.ScoringBefore? || s.pc.Preparing? ==> Next(j, s, Fail(oom)) == Some(s.(pc := Done(Raised)))
  {
    if Protected(s.pc) {
      var t := Next(j, s, Fail(oom)).value;
      CleanedUp(j, t);
    }
  }

  lemma CleanedUp(j: Job, s: State)
    requires s.pc.Cleaning?
    ensures Undisturbed(j, s) == s.(pc := Done(if s.pc.oom then OutOfMemory else Raised), tmp := false)
  {
    var t := Forward(j, s);
    if s.pc.oom { assert Undisturbed(j, t) == Undisturbed(j, Forward(j, t)); }
  }

  /** A job cancelled before the check ends, if nothing else happens, with an error, or refused when a gate
      refuses it, and leaves nothing temporary. */
  lemma {:induction false} CancelledRunEnds(j: Job, s: State)
    requires Calm(j, s) && BeforeCheck(s.pc) && s.current == Previous
    ensures var t := Undisturbed(j, s.(cancelled := true));
            t.pc == Done(if GatesPassed(j) then Raised else Rejected) && !t.tmp && t.current == Previous
    decreases Rank(s.pc)
  {
    var c := s.(cancelled := true);
    ForwardCalm(j, s);
    ForwardDescends(j, s);
    if s.pc.CheckingCancel? {
      CancelledCheck(j, c);
    } else if Forward(j, s).pc.Vetoing? {
      var v := Forward(j, c);
      assert Undisturbed(j, v) == Undisturbed(j, Forward(j, v)) == Forward(j, v);
    } else {
      CancelledRunEnds(j, Forward(j, s));
      assert Forward(j, c) == Forward(j, s).(cancelled := true);
    }
  }

  lemma CancelledCheck(j: Job, s: State)
    requires s.pc.CheckingCancel? && s.cancelled
    ensures Undisturbed(j, s) == s.(pc := Done(Raised), tmp := false)
  {
    var t := Forward(j, Forward(j, s));
    assert Undisturbed(j, s) == Undisturbed(j, Forward(j, s)) == Undisturbed(j, t);
    CleanedUp(j, t);
  }

  // ------------------------------------------------------------------ interrupted runs

  lemma {:induction false} ReachLink(j: Job, s: State) returns (es: seq<Event>)
    requires Calm(j, s) && Inv(j, s, false) && Expected(j) == Accepted && !s.pc.Done?
    ensures Run(j, s, es).Some? && Run(j, s, es).value.pc.Returning? && Inv(j, Run(j, s, es).value, false)
    decreases Rank(s.pc)
  {
    if s.pc.Returning? {
      es := [];
    } else {
      var t := Forward(j, s);
      ForwardCalm(j, s);
      ForwardDescends(j, s);
      StepInv(j, s, false, Go);
      assert !t.pc.Done?;
      var rest := ReachLink(j, t);
      es := [Go] + rest;
      assert es[1..] == rest;
    }
  }

  lemma {:induction false} ReachTmp(j: Job, s: State) returns (es: seq<Event>)
    requires BeforeTmp(s.pc) || (s.pc.Saving? && s.tmp)
    ensures Run(j, s, es).Some? && Run(j, s, es).value.pc.Saving? && Run(j, s, es).value.tmp
    decreases Rank(s.pc)
  {
    if s.pc.Saving? {
      es := [];
    } else {
      ForwardDescends(j, s);
      var rest := ReachTmp(j, Forward(j, s));
      es := [Go] + rest;
      assert es[1..] == rest;
    }
  }

  /** An interruption is handled nowhere: after the link has moved it leaves `current` moved by a
      run that is not accepted, and before that it leaves the temporary directory. */
  lemma InterruptedRuns(j: Job) returns (moving: seq<Event>, saving: seq<Event>)
    requires GatesPassed(j) && !j.finalTaken
    ensures var moved := Run(j, Start(j), moving + [Interrupt]);
            moved.Some? && moved.value.pc == Done(Interrupted) && moved.value.current == Promoted
    ensures var left := Run(j, Start(j), saving + [Interrupt]);
            left.Some? && left.value.pc == Done(Interrupted) && left.value.tmp
  {
    moving := ReachLink(j, Start(j));
    RunAppend(j, Start(j), moving, Interrupt);
    saving := ReachTmp(j, Start(j));
    RunAppend(j, Start(j), saving, Interrupt);
  }
}
