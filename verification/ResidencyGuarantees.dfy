/** What the residency protocol guarantees in every interleaving, and what a cancelled load breaks
    (kaine/text_embedding_numpy.py, kaine/text_embedding.py). */
module ResidencyGuarantees {
  import opened Wrappers
  import opened Residency
  import opened ResidencyInvariant

  // ------------------------------------------------------------------ a cancelled load

  lemma Extend(c: Setting, events: seq<Event>, s: State, e: Event) returns (more: seq<Event>, u: State)
    requires Run(c, events) == Some(s) && Step(c, s, e).Some?
    ensures more == events + [e] && Run(c, more) == Some(u) && Step(c, s, e) == Some(u)
  {
    more := events + [e];
    assert more[..|events|] == events;
    u := Step(c, s, e).value;
  }

  /** A load is cancelled, its thread 0 still at work, and a second load is started by task 1. */
  lemma TwoThreads(c: Setting) returns (events: seq<Event>, s: State)
    requires c.cancelLoads
    ensures Run(c, events) == Some(s)
    ensures s == Initial.(lock := Some(1), tasks := map[1 := Loading(Ensure, 1)],
                          threads := map[0 := Working(0), 1 := Working(0)], loads := 2)
  {
    events, s := [], Initial;
    events, s := Extend(c, events, s, Request(0, Ensure));
    events, s := Extend(c, events, s, Acquire(0));
    events, s := Extend(c, events, s, CancelLoad(0));
    events, s := Extend(c, events, s, Request(1, Ensure));
    events, s := Extend(c, events, s, Acquire(1));
    assert s.tasks == map[1 := Loading(Ensure, 1)];
    assert s.threads == map[0 := Working(0), 1 := Working(0)];
  }

  /** The abandoned thread 0 has stored its config, then load 1 completed over it. */
  lemma SecondLoadWins(c: Setting) returns (events: seq<Event>, s: State)
    requires c.cancelLoads && c.style.FieldsInThread?
    ensures Run(c, events) == Some(s)
    ensures s == State(true, Some(1), Some(1), Some(1), None, map[], map[0 := Working(1)], 2, map[], 0, 0)
  {
    events, s := TwoThreads(c);
    events, s := Extend(c, events, s, ThreadStep(0));
    events, s := Extend(c, events, s, ThreadStep(1));
    events, s := Extend(c, events, s, ThreadStep(1));
    events, s := Extend(c, events, s, ThreadStep(1));
    events, s := Extend(c, events, s, ThreadStep(1));
    events, s := Extend(c, events, s, LoadReturn(1));
    assert s.tasks == map[] && s.threads == map[0 := Working(1)];
  }

  /** An unload clears the fields. */
  lemma ClearedByUnload(c: Setting) returns (events: seq<Event>, s: State)
    requires c.cancelLoads && c.style.FieldsInThread?
    ensures Run(c, events) == Some(s)
    ensures s == State(false, None, None, None, None, map[], map[0 := Working(1)], 2, map[], 0, 0)
  {
    events, s := SecondLoadWins(c);
    events, s := Extend(c, events, s, Request(2, Unload));
    events, s := Extend(c, events, s, Acquire(2));
    events, s := Extend(c, events, s, Clear(2));
    assert s.tasks == map[];
  }

  /** Then the abandoned thread stores the rest of its own. */
  lemma StoredAfterUnload(c: Setting) returns (events: seq<Event>, s: State)
    requires c.cancelLoads && c.style.FieldsInThread?
    ensures Run(c, events) == Some(s)
    ensures s == State(true, Some(0), None, Some(0), None, map[], map[0 := Done], 2, map[], 0, 0)
  {
    events, s := ClearedByUnload(c);
    events, s := Extend(c, events, s, ThreadStep(0));
    events, s := Extend(c, events, s, ThreadStep(0));
    events, s := Extend(c, events, s, ThreadStep(0));
    assert s.threads == map[0 := Done];
  }

  lemma TornModel(c: Setting) returns (events: seq<Event>, s: State)
    requires c.cancelLoads && c.style.FieldsInThread?
    ensures Run(c, events) == Some(s)
    ensures 0 in s.jobs && s.jobs[0] == Job(Some(0), None, Some(0), Queued)
  {
    events, s := StoredAfterUnload(c);
    events, s := Extend(c, events, s, Request(3, Encode));
    events, s := Extend(c, events, s, Acquire(3));
  }

  // ------------------------------------------------------------------ main results

  ghost predicate AlwaysSafe(c: Setting) {
    forall events, s | Run(c, events) == Some(s) :: Safe(s)
  }

  ghost predicate AlwaysOneLoad(c: Setting) {
    forall events, s | Run(c, events) == Some(s) :: OneLoad(s)
  }

  /**
   * In every interleaving every admitted encode holds weights, config and tokenizer of one
   * load, and the fields are cleared only with no admitted encode outstanding, exactly when
   * the model is stored by the awaiting task or no task is cancelled while it awaits a load.
   * For the numpy embedder with a cancelled load it fails: an encode is admitted with no config.
   */
  lemma SafeExactlyWhenLoadsAreKept(c: Setting)
    ensures AlwaysSafe(c) <==> c.style.FieldsOnLoop? || !c.cancelLoads
  {
    if LoadsKept(c) {
      forall events, s | Run(c, events) == Some(s) ensures Safe(s) { RunInv(c, events, s); }
    } else {
      var events, s := TornModel(c);
      assert !Safe(s);
    }
  }

  /** At most one load runs at a time exactly when loads are not cancelled, for both embedders. */
  lemma OneLoadExactlyWhenNotCancelled(c: Setting)
    ensures AlwaysOneLoad(c) <==> !c.cancelLoads
  {
    if !c.cancelLoads {
      forall events, s | Run(c, events) == Some(s) ensures OneLoad(s) { AwaitedRun(c, events, s); }
    } else {
      var events, s := TwoThreads(c);
      assert s.threads[0].Working? && s.threads[1].Working?;
    }
  }

  /** Holding the lock while waiting for the gate is what keeps new encodes out: whoever clears
      the fields clears a whole model nobody uses. */
  lemma ClearFindsNobody(c: Setting, events: seq<Event>, s: State, t: Task, u: State)
    requires LoadsKept(c) && Run(c, events) == Some(s) && Step(c, s, Clear(t)) == Some(u)
    ensures s.jobs == map[] && s.inflight == 0 && s.lock == Some(t)
    ensures !u.loaded && u.weights.None? && u.config.None? && u.tokenizer.None?
  {
    RunInv(c, events, s);
  }
}
