/**
 * Stripping content and embeddings from what crosses the privacy boundary
 * (kaine/privacy_filter.py): the recursive scrub of a payload.
 */
module PrivacyFilter {
  import opened Wrappers

  /** A JSON-like value.  Bools are atoms; a tuple that survives comes back as a list. */
  datatype Value =
    | Num(n: real)
    | Atom(s: string)
    | List(tuple: bool, items: seq<Value>)
    | Dict(entries: map<string, Value>)

  const VectorFields: set<string> := {"latent", "peripheral", "foveal", "temporal_context", "feature_vector"}

  const VectorMinLen := 16

  const Exempt: set<string> := {"saliences", "step_magnitudes"}

  const ContentFields: set<string> := {
    "text", "body", "content", "internal_speech", "belief_text", "memory_text", "affect_reason",
    "transcription", "user_input", "faithful_rendering", "description", "statement", "values",
    "behavioral_norms", "situation_facts" }

  predicate AllNumbers(items: seq<Value>) { forall i | 0 <= i < |items| :: items[i].Num? }

  predicate IsVector(v: Value) { v.List? && |v.items| >= VectorMinLen && AllNumbers(v.items) }

  predicate Named(fields: set<string>, k: string) { k in VectorFields || k in fields }

  predicate Kept(fields: set<string>, k: string, v: Value) {
    !Named(fields, k) && (IsVector(v) ==> k in Exempt)
  }

  function Scrub(v: Value, fields: set<string>): Value
    decreases v
  {
    match v
    case Dict(es) => Dict(map k | k in es && Kept(fields, k, es[k]) :: Scrub(es[k], fields))
    case List(_, items) => List(false, ScrubItems(items, fields))
    case _ => v
  }

  function ScrubItems(items: seq<Value>, fields: set<string>): seq<Value>
    decreases items
  {
    if items == [] then []
    else (if IsVector(items[0]) then [] else [Scrub(items[0], fields)]) + ScrubItems(items[1..], fields)
  }

  // ------------------------------------------------------------------ nothing named is left

  /** No dict at any depth has a key named by `fields` or among the vector fields. */
  ghost predicate Clear(v: Value, fields: set<string>)
    decreases v
  {
    match v
    case Dict(es) => forall k | k in es :: !Named(fields, k) && Clear(es[k], fields)
    case List(_, items) => forall i | 0 <= i < |items| :: Clear(items[i], fields)
    case _ => true
  }

  lemma {:induction false} ScrubClears(v: Value, fields: set<string>)
    ensures Clear(Scrub(v, fields), fields)
    decreases v
  {
    match v
    case Dict(es) =>
      forall k | k in es && Kept(fields, k, es[k]) ensures Clear(Scrub(es[k], fields), fields) {
        ScrubClears(es[k], fields);
      }
    case List(_, items) => ScrubItemsClear(items, fields);
    case _ =>
  }

  lemma {:induction false} ScrubItemsClear(items: seq<Value>, fields: set<string>)
    ensures forall i | 0 <= i < |ScrubItems(items, fields)| :: Clear(ScrubItems(items, fields)[i], fields)
    decreases items
  {
    if items != [] {
      ScrubClears(items[0], fields);
      ScrubItemsClear(items[1..], fields);
    }
  }

  // ------------------------------------------------------------------ nothing is invented

  /** `r` is `v` with dict entries and list items left out and nothing else changed. */
  ghost predicate Within(r: Value, v: Value)
    decreases r, 1
  {
    match r
    case Dict(rs) => v.Dict? && forall k | k in rs :: k in v.entries && Within(rs[k], v.entries[k])
    case List(_, items) => v.List? && ItemsWithin(items, v.items)
    case _ => r == v
  }

  /** The items of `rs` come from items of `vs`, in their order. */
  ghost predicate ItemsWithin(rs: seq<Value>, vs: seq<Value>)
    decreases rs, |vs|
  {
    rs == [] || (vs != [] && ((Within(rs[0], vs[0]) && ItemsWithin(rs[1..], vs[1..])) || ItemsWithin(rs, vs[1..])))
  }

  lemma {:induction false} ScrubInventsNothing(v: Value, fields: set<string>)
    ensures Within(Scrub(v, fields), v)
    decreases v
  {
    match v
    case Dict(es) =>
      forall k | k in es && Kept(fields, k, es[k]) ensures Within(Scrub(es[k], fields), es[k]) {
        ScrubInventsNothing(es[k], fields);
      }
    case List(_, items) => ScrubItemsWithin(items, fields);
    case _ =>
  }

  lemma {:induction false} ScrubItemsWithin(items: seq<Value>, fields: set<string>)
    ensures ItemsWithin(ScrubItems(items, fields), items)
    decreases items
  {
    if items != [] {
      ScrubItemsWithin(items[1..], fields);
      if !IsVector(items[0]) {
        ScrubInventsNothing(items[0], fields);
        assert ScrubItems(items, fields)[1..] == ScrubItems(items[1..], fields);
      } else {
        assert ScrubItems(items, fields) == ScrubItems(items[1..], fields);
      }
    }
  }

  // ------------------------------------------------------------------ nothing else is left out

  /** A way into a payload: the key of a dict, or the place in a list. */
  datatype Step = Key(k: string) | Item(i: nat)

  ghost function At(v: Value, p: seq<Step>): Option<Value>
    decreases p
  {
    if p == [] then Some(v)
    else match p[0]
      case Key(k) => if v.Dict? && k in v.entries then At(v.entries[k], p[1..]) else None
      case Item(i) => if v.List? && i < |v.items| then At(v.items[i], p[1..]) else None
  }

  ghost predicate LongNumeric(v: Value) { v.List? && |v.items| >= 16 && forall x | x in v.items :: x.Num? }

  /** What stands at `step` is left out: by its name, or for being a long list of numbers. */
  ghost predicate LeftOut(fields: set<string>, step: Step, child: Value) {
    match step
    case Key(k) => k in VectorFields || k in fields || (LongNumeric(child) && k !in {"saliences", "step_magnitudes"})
    case Item(_) => LongNumeric(child)
  }

  /** Nothing on the way to `p` is left out. */
  ghost predicate Crosses(v: Value, fields: set<string>, p: seq<Step>)
    requires At(v, p).Some?
    decreases p
  {
    p == [] || (!LeftOut(fields, p[0], Child(v, p)) && Crosses(Child(v, p), fields, p[1..]))
  }

  ghost function Child(v: Value, p: seq<Step>): (c: Value)
    requires p != [] && At(v, p).Some?
    ensures At(v, p[..1]) == Some(c) && At(c, p[1..]) == At(v, p)
  {
    assert p[..1][1..] == [];
    match p[0]
    case Key(k) => v.entries[k]
    case Item(i) => v.items[i]
  }

  /** Where `p` leads to after the scrub: items left out before it move it forward. */
  ghost function Image(v: Value, p: seq<Step>): seq<Step>
    requires At(v, p).Some?
    decreases p
  {
    if p == [] then []
    else [if p[0].Key? then p[0] else Item(StayingBefore(v.items, p[0].i))] + Image(Child(v, p), p[1..])
  }

  ghost function StayingBefore(items: seq<Value>, i: nat): nat
    requires i <= |items|
  { if i == 0 then 0 else (if LongNumeric(items[0]) then 0 else 1) + StayingBefore(items[1..], i - 1) }

  lemma VectorIs(v: Value)
    ensures IsVector(v) <==> LongNumeric(v)
  {}

  lemma {:induction false} ItemStays(items: seq<Value>, fields: set<string>, i: nat)
    requires i < |items| && !LongNumeric(items[i])
    ensures var out := ScrubItems(items, fields); var j := StayingBefore(items, i);
            j < |out| && out[j] == Scrub(items[i], fields)
  {
    VectorIs(items[0]);
    if i > 0 { ItemStays(items[1..], fields, i - 1); }
  }

  lemma {:induction false} ItemFrom(items: seq<Value>, fields: set<string>, j: nat) returns (i: nat)
    requires j < |ScrubItems(items, fields)|
    ensures i < |items| && !LongNumeric(items[i]) && StayingBefore(items, i) == j
    ensures ScrubItems(items, fields)[j] == Scrub(items[i], fields)
  {
    VectorIs(items[0]);
    if j == 0 && !LongNumeric(items[0]) {
      i := 0;
    } else {
      i := ItemFrom(items[1..], fields, if LongNumeric(items[0]) then j else j - 1);
      i := i + 1;
    }
  }

  lemma StepStays(v: Value, fields: set<string>, p: seq<Step>)
    requires p != [] && At(v, p).Some? && !LeftOut(fields, p[0], Child(v, p))
    ensures var q := Image(v, p); var out := Scrub(v, fields);
            && (p[0].Key? ==> out.Dict? && p[0].k in out.entries && out.entries[p[0].k] == Scrub(Child(v, p), fields))
            && (p[0].Item? ==> out.List? && q[0].i < |out.items| && out.items[q[0].i] == Scrub(Child(v, p), fields))
  {
    VectorIs(Child(v, p));
    if p[0].Item? { ItemStays(v.items, fields, p[0].i); }
  }

  /** What nothing on the way leaves out comes through: scrubbed itself, unchanged when it is an atom, a
      dict as a dict, and a list or tuple as a list. */
  lemma {:induction false} CrossesWhole(v: Value, fields: set<string>, p: seq<Step>)
    requires At(v, p).Some? && Crosses(v, fields, p)
    ensures At(Scrub(v, fields), Image(v, p)) == Some(Scrub(At(v, p).value, fields))
    ensures At(v, p).value.Num? || At(v, p).value.Atom? ==> At(Scrub(v, fields), Image(v, p)) == At(v, p)
    ensures var was, now := At(v, p).value, Scrub(At(v, p).value, fields);
            (was.Dict? ==> now.Dict?) && (was.List? ==> now.List? && !now.tuple)
    decreases p
  {
    if p != [] {
      StepStays(v, fields, p);
      CrossesWhole(Child(v, p), fields, p[1..]);
      assert Image(v, p)[1..] == Image(Child(v, p), p[1..]);
    }
  }

  /** And nothing else does: whatever is left has come through from such a place. */
  lemma {:induction false} CrossedFrom(v: Value, fields: set<string>, q: seq<Step>) returns (p: seq<Step>)
    requires At(Scrub(v, fields), q).Some?
    ensures At(v, p).Some? && Crosses(v, fields, p) && Image(v, p) == q
    decreases q
  {
    if q == [] {
      p := [];
    } else {
      var step, child := FirstFrom(v, fields, q);
      var rest := CrossedFrom(child, fields, q[1..]);
      p := [step] + rest;
      assert p[1..] == rest && At(v, p) == At(child, rest) && Child(v, p) == child;
      assert q == [q[0]] + q[1..];
    }
  }

  lemma FirstFrom(v: Value, fields: set<string>, q: seq<Step>) returns (step: Step, child: Value)
    requires q != [] && At(Scrub(v, fields), q).Some?
    ensures At(v, [step]) == Some(child) && !LeftOut(fields, step, child)
    ensures At(Scrub(child, fields), q[1..]) == At(Scrub(v, fields), q)
    ensures step.Key? ==> q[0] == step
    ensures step.Item? ==> v.List? && step.i < |v.items| && q[0] == Item(StayingBefore(v.items, step.i))
  {
    match q[0]
    case Key(k) =>
      step, child := q[0], v.entries[k];
      VectorIs(child);
    case Item(j) =>
      var i := ItemFrom(v.items, fields, j);
      step, child := Item(i), v.items[i];
  }

  // ------------------------------------------------------------------ lists that turn into vectors

  ghost function Numbers(items: seq<Value>): nat {
    if items == [] then 0 else (if items[0].Num? then 1 else 0) + Numbers(items[1..])
  }

  ghost predicate AllNumbersOrVectors(items: seq<Value>) {
    forall i | 0 <= i < |items| :: items[i].Num? || IsVector(items[i])
  }

  lemma NumbersCons(v: Value, items: seq<Value>)
    ensures AllNumbers([v] + items) <==> v.Num? && AllNumbers(items)
  {
    var all := [v] + items;
    assert all[0] == v;
    if AllNumbers(all) {
      forall i | 0 <= i < |items| ensures items[i].Num? { assert items[i] == all[i + 1]; }
    }
    if v.Num? && AllNumbers(items) {
      forall i | 0 <= i < |all| ensures all[i].Num? { assert i > 0 ==> all[i] == items[i - 1]; }
    }
  }

  lemma NumbersOrVectors(items: seq<Value>)
    requires items != []
    ensures AllNumbersOrVectors(items) <==> (items[0].Num? || IsVector(items[0])) && AllNumbersOrVectors(items[1..])
  {
    assert forall i | 1 <= i < |items| :: items[i] == items[1..][i - 1];
    if AllNumbersOrVectors(items) {
      forall i | 0 <= i < |items[1..]| ensures items[1..][i].Num? || IsVector(items[1..][i]) {
        assert items[1..][i] == items[i + 1];
      }
    }
  }

  /** A list that is no vector but is one once the vectors in it are dropped: bare numbers, enough of
      them, and numeric vectors. */
  ghost predicate Mixed(v: Value) {
    && v.List? && !IsVector(v) && Numbers(v.items) >= VectorMinLen
    && AllNumbersOrVectors(v.items)
  }

  lemma ScrubKind(v: Value, fields: set<string>)
    ensures Scrub(v, fields).Num? <==> v.Num?
    ensures Scrub(v, fields).List? <==> v.List?
  {}

  lemma {:induction false} ScrubbedItems(items: seq<Value>, fields: set<string>)
    ensures AllNumbers(ScrubItems(items, fields)) <==>
            AllNumbersOrVectors(items)
    ensures AllNumbers(ScrubItems(items, fields)) ==> |ScrubItems(items, fields)| == Numbers(items)
  {
    if items != [] {
      var rest := ScrubItems(items[1..], fields);
      ScrubbedItems(items[1..], fields);
      ScrubKind(items[0], fields);
      NumbersCons(Scrub(items[0], fields), rest);
      NumbersOrVectors(items);
      if IsVector(items[0]) { assert ScrubItems(items, fields) == rest; }
    }
  }

  lemma {:induction false} AllNumbersCount(items: seq<Value>)
    requires AllNumbers(items)
    ensures Numbers(items) == |items|
  {
    if items != [] { AllNumbersCount(items[1..]); }
  }

  /** Scrubbing makes a vector exactly of the mixed lists. */
  lemma EmergesExactly(v: Value, fields: set<string>)
    requires !IsVector(v)
    ensures IsVector(Scrub(v, fields)) <==> Mixed(v)
  {
    if v.List? { ScrubbedItems(v.items, fields); }
  }

  lemma VectorStays(v: Value, fields: set<string>)
    requires IsVector(v)
    ensures IsVector(Scrub(v, fields))
  {
    ScrubbedItems(v.items, fields);
    AllNumbersCount(v.items);
  }

  /** No mixed list stands where a vector would be dropped, among what a scrub of `fields` keeps. */
  ghost predicate Settled(v: Value, fields: set<string>)
    decreases v
  {
    match v
    case Dict(es) => forall k | k in es && Kept(fields, k, es[k]) :: (Mixed(es[k]) ==> k in Exempt) && Settled(es[k], fields)
    case List(_, items) =>
      forall i | 0 <= i < |items| && !IsVector(items[i]) :: !Mixed(items[i]) && Settled(items[i], fields)
    case _ => true
  }

  // ------------------------------------------------------------------ two scrubs against one

  /** Keeping by two filters in turn, for a value no list turned into a vector. */
  lemma KeptTwice(F: set<string>, G: set<string>, k: string, v: Value)
    requires Mixed(v) ==> k in Exempt
    ensures Kept(F, k, v) && Kept(G, k, Scrub(v, F)) <==> Kept(F + G, k, v)
  {
    if IsVector(v) { VectorStays(v, F); } else { EmergesExactly(v, F); }
  }

  lemma MixedIsLost(F: set<string>, G: set<string>, k: string, v: Value)
    requires Mixed(v) && k !in Exempt
    ensures !Kept(G, k, Scrub(v, F))
  {
    EmergesExactly(v, F);
  }

  /** Scrubbing twice is scrubbing once with both sets of fields exactly when no mixed list stands
      where a vector would be dropped. */
  lemma {:induction false} TwoScrubsExactly(v: Value, F: set<string>, G: set<string>)
    ensures Scrub(Scrub(v, F), G) == Scrub(v, F + G) <==> Settled(v, F + G)
    decreases v
  {
    match v
    case Dict(es) =>
      forall k | k in es ensures Scrub(Scrub(es[k], F), G) == Scrub(es[k], F + G) <==> Settled(es[k], F + G) {
        TwoScrubsExactly(es[k], F, G);
      }
      TwoScrubsDict(es, F, G);
    case List(_, items) =>
      TwoScrubsItems(items, F, G);
    case _ =>
  }

  ghost predicate SettledEntry(es: map<string, Value>, fields: set<string>, k: string)
    requires k in es
  { Kept(fields, k, es[k]) ==> (Mixed(es[k]) ==> k in Exempt) && Settled(es[k], fields) }

  /** What two scrubs, and one, leave of an entry. */
  lemma EntryOfTwo(es: map<string, Value>, F: set<string>, G: set<string>, k: string)
    requires k in es
    ensures var two, v := Scrub(Scrub(Dict(es), F), G).entries, es[k];
            && (k in two <==> Kept(F, k, v) && Kept(G, k, Scrub(v, F)))
            && (k in two ==> two[k] == Scrub(Scrub(v, F), G))
  {
    var once := Scrub(Dict(es), F).entries;
    assert k in once ==> once[k] == Scrub(es[k], F);
  }

  /** What one scrub leaves of an entry. */
  lemma EntryOfOne(es: map<string, Value>, F: set<string>, k: string)
    requires k in es
    ensures var one := Scrub(Dict(es), F).entries;
            (k in one <==> Kept(F, k, es[k])) && (k in one ==> one[k] == Scrub(es[k], F))
  {}

  /** The two scrubs and the one agree about the entry at `k`. */
  ghost predicate EntryAgrees(two: map<string, Value>, one: map<string, Value>, k: string) {
    (k in two <==> k in one) && (k in one ==> two[k] == one[k])
  }

  ghost function Twice(es: map<string, Value>, F: set<string>, G: set<string>): map<string, Value> {
    Scrub(Scrub(Dict(es), F), G).entries
  }

  ghost function Once(es: map<string, Value>, F: set<string>): map<string, Value> { Scrub(Dict(es), F).entries }

  lemma DroppedEntry(es: map<string, Value>, F: set<string>, G: set<string>, k: string)
    requires k in es && !Kept(F + G, k, es[k])
    ensures SettledEntry(es, F + G, k) && EntryAgrees(Twice(es, F, G), Once(es, F + G), k)
  {
    EntryOfTwo(es, F, G, k);
    EntryOfOne(es, F + G, k);
    if IsVector(es[k]) { VectorStays(es[k], F); }
  }

  lemma LostEntry(es: map<string, Value>, F: set<string>, G: set<string>, k: string)
    requires k in es && Kept(F + G, k, es[k]) && Mixed(es[k]) && k !in Exempt
    ensures !SettledEntry(es, F + G, k) && !EntryAgrees(Twice(es, F, G), Once(es, F + G), k)
  {
    EntryOfTwo(es, F, G, k);
    EntryOfOne(es, F + G, k);
    MixedIsLost(F, G, k, es[k]);
  }

  lemma KeptEntry(es: map<string, Value>, F: set<string>, G: set<string>, k: string)
    requires k in es && Kept(F + G, k, es[k]) && (Mixed(es[k]) ==> k in Exempt)
    ensures EntryAgrees(Twice(es, F, G), Once(es, F + G), k) <==> Scrub(Scrub(es[k], F), G) == Scrub(es[k], F + G)
    ensures SettledEntry(es, F + G, k) <==> Settled(es[k], F + G)
  {
    EntryOfTwo(es, F, G, k);
    EntryOfOne(es, F + G, k);
    KeptTwice(F, G, k, es[k]);
  }

  lemma TwoScrubsDict(es: map<string, Value>, F: set<string>, G: set<string>)
    requires forall k | k in es :: Scrub(Scrub(es[k], F), G) == Scrub(es[k], F + G) <==> Settled(es[k], F + G)
    ensures Scrub(Scrub(Dict(es), F), G) == Scrub(Dict(es), F + G) <==> Settled(Dict(es), F + G)
  {
    var two, one := Twice(es, F, G), Once(es, F + G);
    forall k | k in es ensures SettledEntry(es, F + G, k) <==> EntryAgrees(two, one, k) {
      if !Kept(F + G, k, es[k]) {
        DroppedEntry(es, F, G, k);
      } else if Mixed(es[k]) && k !in Exempt {
        LostEntry(es, F, G, k);
      } else {
        KeptEntry(es, F, G, k);
      }
    }
    TwoMapsAgree(es, F, G);
  }

  lemma TwoMapsAgree(es: map<string, Value>, F: set<string>, G: set<string>)
    requires forall k | k in es :: SettledEntry(es, F + G, k) <==> EntryAgrees(Twice(es, F, G), Once(es, F + G), k)
    ensures Scrub(Scrub(Dict(es), F), G) == Scrub(Dict(es), F + G) <==> Settled(Dict(es), F + G)
  {
    var two, one := Twice(es, F, G), Once(es, F + G);
    if Settled(Dict(es), F + G) {
      forall k | k in es ensures SettledEntry(es, F + G, k) {}
      assert two == one;
    } else {
      var k :| k in es && !SettledEntry(es, F + G, k);
      assert !EntryAgrees(two, one, k);
    }
  }

  ghost predicate SettledItems(items: seq<Value>, fields: set<string>) {
    forall i | 0 <= i < |items| && !IsVector(items[i]) :: !Mixed(items[i]) && Settled(items[i], fields)
  }

  lemma SettledItemsStep(items: seq<Value>, fields: set<string>)
    requires items != []
    ensures SettledItems(items, fields) <==>
            (IsVector(items[0]) || (!Mixed(items[0]) && Settled(items[0], fields))) && SettledItems(items[1..], fields)
  {
    if SettledItems(items, fields) {
      forall i | 0 <= i < |items[1..]| && !IsVector(items[1..][i])
        ensures !Mixed(items[1..][i]) && Settled(items[1..][i], fields)
      {
        assert items[1..][i] == items[i + 1];
      }
    }
    if SettledItems(items[1..], fields) {
      assert forall i | 1 <= i < |items| :: items[i] == items[1..][i - 1];
    }
  }

  lemma {:induction false} LengthsOfTwo(items: seq<Value>, F: set<string>, G: set<string>)
    ensures |ScrubItems(ScrubItems(items, F), G)| <= |ScrubItems(items, F + G)|
  {
    if items != [] {
      LengthsOfTwo(items[1..], F, G);
      var rest := ScrubItems(items[1..], F);
      if IsVector(items[0]) {
        assert ScrubItems(items, F) == rest;
      } else {
        assert ScrubItems(items, F)[1..] == rest;
      }
    }
  }

  lemma {:induction false} TwoScrubsItems(items: seq<Value>, F: set<string>, G: set<string>)
    ensures ScrubItems(ScrubItems(items, F), G) == ScrubItems(items, F + G) <==> SettledItems(items, F + G)
    decreases items
  {
    if items != [] {
      var x, tail := items[0], items[1..];
      SettledItemsStep(items, F + G);
      TwoScrubsItems(tail, F, G);
      LengthsOfTwo(tail, F, G);
      var rest := ScrubItems(tail, F);
      var two, one := ScrubItems(rest, G), ScrubItems(tail, F + G);
      if IsVector(x) {
        assert ScrubItems(items, F) == rest && ScrubItems(items, F + G) == one;
      } else {
        TwoScrubsExactly(x, F, G);
        EmergesExactly(x, F);
        var first := Scrub(x, F);
        assert ScrubItems(items, F) == [first] + rest && ScrubItems(items, F + G) == [Scrub(x, F + G)] + one;
        assert ([first] + rest)[1..] == rest;
        if Mixed(x) {
          assert ScrubItems([first] + rest, G) == two;
        } else {
          var again := Scrub(first, G);
          assert ScrubItems([first] + rest, G) == [again] + two;
          assert ([again] + two)[1..] == two && ([Scrub(x, F + G)] + one)[1..] == one;
          assert ([again] + two)[0] == again && ([Scrub(x, F + G)] + one)[0] == Scrub(x, F + G);
        }
      }
    }
  }

  /** Scrubbing again changes nothing exactly on the settled payloads. */
  lemma IdempotentExactly(v: Value, fields: set<string>)
    ensures Scrub(Scrub(v, fields), fields) == Scrub(v, fields) <==> Settled(v, fields)
  {
    TwoScrubsExactly(v, fields, fields);
    assert fields + fields == fields;
  }

  /** `strip_vectors` first and content second is the one combined scrub, on settled payloads. */
  lemma StripThenContentExactly(v: Value, content: set<string>)
    ensures Scrub(Scrub(v, {}), content) == Scrub(v, content) <==> Settled(v, content)
  {
    TwoScrubsExactly(v, {}, content);
    assert {} + content == content;
  }

  // ------------------------------------------------------------------ no embedding is left

  /** No numeric vector at any depth, but for the values of the exempt keys. */
  ghost predicate VectorFree(v: Value)
    decreases v
  {
    match v
    case Dict(es) => forall k | k in es :: (IsVector(es[k]) ==> k in Exempt) && VectorFree(es[k])
    case List(_, items) => forall i | 0 <= i < |items| :: !IsVector(items[i]) && VectorFree(items[i])
    case _ => true
  }

  /** What leaves the boundary has no numeric vector exactly when the payload is settled. */
  lemma {:induction false} VectorFreeExactly(v: Value, fields: set<string>)
    ensures VectorFree(Scrub(v, fields)) <==> Settled(v, fields)
    decreases v
  {
    match v
    case Dict(es) =>
      forall k | k in es
        ensures VectorFree(Scrub(es[k], fields)) <==> Settled(es[k], fields)
        ensures IsVector(Scrub(es[k], fields)) <==> IsVector(es[k]) || Mixed(es[k])
      {
        VectorFreeExactly(es[k], fields);
        if IsVector(es[k]) { VectorStays(es[k], fields); } else { EmergesExactly(es[k], fields); }
      }
      VectorFreeDict(es, fields);
    case List(_, items) => VectorFreeItems(items, fields);
    case _ =>
  }

  lemma VectorFreeDict(es: map<string, Value>, fields: set<string>)
    requires forall k | k in es :: VectorFree(Scrub(es[k], fields)) <==> Settled(es[k], fields)
    requires forall k | k in es :: IsVector(Scrub(es[k], fields)) <==> IsVector(es[k]) || Mixed(es[k])
    ensures VectorFree(Scrub(Dict(es), fields)) <==> Settled(Dict(es), fields)
  {
    var out := Scrub(Dict(es), fields).entries;
    if VectorFree(Dict(out)) {
      forall k | k in es && Kept(fields, k, es[k]) ensures (Mixed(es[k]) ==> k in Exempt) && Settled(es[k], fields) {
        assert k in out && out[k] == Scrub(es[k], fields);
      }
    }
    if Settled(Dict(es), fields) {
      forall k | k in out ensures (IsVector(out[k]) ==> k in Exempt) && VectorFree(out[k]) {
        assert Kept(fields, k, es[k]);
      }
    }
  }

  ghost predicate ItemsFree(items: seq<Value>) { forall i | 0 <= i < |items| :: !IsVector(items[i]) && VectorFree(items[i]) }

  lemma ItemsFreeStep(x: Value, rest: seq<Value>)
    ensures ItemsFree([x] + rest) <==> !IsVector(x) && VectorFree(x) && ItemsFree(rest)
  {
    var all := [x] + rest;
    if ItemsFree(all) {
      forall i | 0 <= i < |rest| ensures !IsVector(rest[i]) && VectorFree(rest[i]) { assert rest[i] == all[i + 1]; }
      assert all[0] == x;
    }
    if ItemsFree(rest) { assert forall i | 1 <= i < |all| :: all[i] == rest[i - 1]; }
  }

  lemma {:induction false} VectorFreeItems(items: seq<Value>, fields: set<string>)
    ensures ItemsFree(ScrubItems(items, fields)) <==> SettledItems(items, fields)
    decreases items
  {
    if items != [] {
      var x, rest := items[0], ScrubItems(items[1..], fields);
      SettledItemsStep(items, fields);
      VectorFreeItems(items[1..], fields);
      if IsVector(x) {
        assert ScrubItems(items, fields) == rest;
      } else {
        VectorFreeExactly(x, fields);
        EmergesExactly(x, fields);
        ItemsFreeStep(Scrub(x, fields), rest);
      }
    }
  }

  /** The side condition is necessary: twenty bare numbers and one nested vector come out as a vector. */
  lemma NestedVectorLeavesVector(numbers: seq<Value>, nested: Value)
    requires |numbers| == 20 && AllNumbers(numbers) && IsVector(nested)
    ensures var v := Dict(map["trace" := List(false, numbers + [nested])]);
            Mixed(v.entries["trace"]) && !VectorFree(Scrub(v, {})) && Scrub(Scrub(v, {}), {}) != Scrub(v, {})
  {
    var xs := List(false, numbers + [nested]);
    var v := Dict(map["trace" := xs]);
    assert xs.items[20] == nested;
    NumbersAppend(numbers, nested);
    AllNumbersCount(numbers);
    assert !Settled(v, {}) by { assert Kept({}, "trace", v.entries["trace"]); }
    VectorFreeExactly(v, {});
    IdempotentExactly(v, {});
  }

  lemma {:induction false} NumbersAppend(items: seq<Value>, last: Value)
    ensures Numbers(items + [last]) == Numbers(items) + (if last.Num? then 1 else 0)
  {
    if items == [] {
      assert items + [last] == [last] && [last][1..] == [];
    } else {
      assert (items + [last])[1..] == items[1..] + [last];
      NumbersAppend(items[1..], last);
    }
  }

  // ------------------------------------------------------------------ the filter

  /** An event; its time stamp as it is written. */
  datatype Event = Event(
    source: string, kind: string, payload: Value, salience: real, timestamp: string, causalParent: Option<string>)

  datatype Filter = Filter(devContentOverride: bool, extraContentFields: set<string>)
  {
    function Fields(): set<string> { ContentFields + extraContentFields }

    function FilterForDiagnostics(e: Event): Event {
      e.(payload := Scrub(e.payload, if devContentOverride then {} else Fields()))
    }
  }

  /** Whatever the mode, no vector field crosses the boundary and nothing is invented; outside dev
      mode no content field crosses it either. */
  lemma DiagnosticsAreClear(f: Filter, e: Event)
    ensures var out := f.FilterForDiagnostics(e);
            && Clear(out.payload, {}) && Within(out.payload, e.payload)
            && (!f.devContentOverride ==> Clear(out.payload, ContentFields + f.extraContentFields))
            && out.(payload := e.payload) == e
  {
    var fields := if f.devContentOverride then {} else f.Fields();
    ScrubClears(e.payload, fields);
    ScrubInventsNothing(e.payload, fields);
    FewerNames(Scrub(e.payload, fields), fields, {});
  }

  lemma {:induction false} NamedNeverCrosses(v: Value, fields: set<string>, q: seq<Step>, i: nat)
    requires At(Scrub(v, fields), q).Some? && i < |q| && q[i].Key?
    ensures q[i].k !in VectorFields && q[i].k !in fields
    decreases q
  {
    var step, child := FirstFrom(v, fields, q);
    if i > 0 {
      assert q[1..][i - 1] == q[i];
      NamedNeverCrosses(child, fields, q[1..], i - 1);
    }
  }

  /** By name: nowhere in what the diagnostics show is an embedding, and outside dev mode no text of the
      entity. */
  lemma ShownNames(f: Filter, e: Event, q: seq<Step>, i: nat)
    requires At(f.FilterForDiagnostics(e).payload, q).Some? && i < |q| && q[i].Key?
    ensures q[i].k !in {"latent", "peripheral", "foveal", "temporal_context", "feature_vector"}
    ensures !f.devContentOverride ==> q[i].k !in f.extraContentFields
    ensures !f.devContentOverride ==>
              q[i].k !in {"text", "body", "content", "internal_speech", "belief_text", "memory_text", "affect_reason",
                          "transcription", "user_input", "faithful_rendering", "description", "statement", "values",
                          "behavioral_norms", "situation_facts"}
  {
    NamedNeverCrosses(e.payload, if f.devContentOverride then {} else f.Fields(), q, i);
  }

  /** And everything that is neither named nor a long list of numbers, nor below such a thing, is shown as it is;
      in dev mode the text of the entity too. */
  lemma ShownWhole(f: Filter, e: Event, p: seq<Step>)
    requires At(e.payload, p).Some? && (At(e.payload, p).value.Num? || At(e.payload, p).value.Atom?)
    requires Crosses(e.payload, if f.devContentOverride then {} else ContentFields + f.extraContentFields, p)
    ensures At(f.FilterForDiagnostics(e).payload, Image(e.payload, p)) == At(e.payload, p)
  {
    CrossesWhole(e.payload, if f.devContentOverride then {} else f.Fields(), p);
  }

  lemma {:induction false} FewerNames(v: Value, F: set<string>, G: set<string>)
    requires Clear(v, F) && G <= F
    ensures Clear(v, G)
    decreases v
  {
    match v
    case Dict(es) => forall k | k in es ensures Clear(es[k], G) { FewerNames(es[k], F, G); }
    case List(_, items) => forall i | 0 <= i < |items| ensures Clear(items[i], G) { FewerNames(items[i], F, G); }
    case _ =>
  }
}
