/**
 * The entity's subjective clock (kaine/entity_clock.py): an anchor in subjective and in wall time
 * and a rate, re-anchored whenever the rate changes.  Clock readings are parameters.
 */
module EntityClocks {

  /** The three fields of the clock. */
  datatype Anchor = Anchor(origin: real, wallOrigin: real, scale: real)

  function Subjective(a: Anchor, wall: real): real { a.origin + (wall - a.wallOrigin) * a.scale }

  /** The setter: it reads the wall clock twice, first for `now()` and then for the new anchor.  A
      negative scale is refused before either reading. */
  function Rescaled(a: Anchor, value: real, first: real, second: real): Anchor {
    if value < 0.0 then a else Anchor(Subjective(a, first), second, value)
  }

  class EntityClock {
    var origin: real
    var wallOrigin: real
    var scale: real

    ghost function Fields(): Anchor
      reads this
    { Anchor(origin, wallOrigin, scale) }

    constructor (scale: real, wall: real, origin: real)
      requires scale >= 0.0
      ensures Fields() == Anchor(origin, wall, scale) && Subjective(Fields(), wall) == origin
    {
      this.scale, this.wallOrigin, this.origin := scale, wall, origin;
    }

    method Now(wall: real) returns (now: real)
      ensures now == Subjective(Fields(), wall)
    {
      now := origin + (wall - wallOrigin) * scale;
    }

    /** False when the scale is refused. */
    method SetScale(value: real, first: real, second: real) returns (ok: bool)
      modifies this
      ensures ok == (value >= 0.0) && Fields() == Rescaled(old(Fields()), value, first, second)
      ensures ok ==> Subjective(Fields(), second) == Subjective(old(Fields()), first)
    {
      if value < 0.0 {
        return false;
      }
      var now := Now(first);
      origin := now;
      wallOrigin := second;
      scale := value;
      ok := true;
    }
  }

  // ------------------------------------------------------------------ runs

  datatype Use = Read(wall: real) | SetScale(value: real, first: real, second: real)

  function After(a: Anchor, u: Use): Anchor {
    match u
    case Read(_) => a
    case SetScale(value, first, second) => Rescaled(a, value, first, second)
  }

  function AfterAll(a: Anchor, us: seq<Use>): Anchor
    decreases us
  { if us == [] then a else AfterAll(After(a, us[0]), us[1..]) }

  /** The first and the last reading of the wall clock in one use. */
  function FirstOf(u: Use): real { if u.Read? then u.wall else u.first }

  function LastOf(u: Use): real { if u.Read? then u.wall else u.second }

  /** The wall clock does not go backwards. */
  predicate Ordered(wall: real, us: seq<Use>)
    decreases us
  {
    us == [] ||
    match us[0]
    case Read(w) => wall <= w && Ordered(w, us[1..])
    case SetScale(_, first, second) => wall <= first <= second && Ordered(second, us[1..])
  }

  /** Each use reads the clock in order, and no earlier than the use before it. */
  lemma {:induction false} OrderedExactly(wall: real, us: seq<Use>)
    ensures Ordered(wall, us) <==>
              && (us != [] ==> wall <= FirstOf(us[0]))
              && (forall i | 0 <= i < |us| :: FirstOf(us[i]) <= LastOf(us[i]))
              && (forall i | 0 < i < |us| :: LastOf(us[i - 1]) <= FirstOf(us[i]))
    decreases us
  {
    if us != [] {
      var rest := us[1..];
      OrderedExactly(LastOf(us[0]), rest);
      assert forall i | 0 <= i < |rest| :: rest[i] == us[i + 1];
      assert forall i | 0 < i < |us| :: us[i] == rest[i - 1];
      if rest != [] { assert us[1] == rest[0] && us[1 - 1] == us[0]; }
      forall i | 0 < i < |rest| ensures rest[i - 1] == us[i] && rest[i] == us[i + 1] {}
    }
  }

  lemma Forward(a: Anchor, v: real, w: real)
    requires a.scale >= 0.0 && v <= w
    ensures Subjective(a, v) <= Subjective(a, w)
  {
    assert Subjective(a, w) - Subjective(a, v) == (w - v) * a.scale;
  }

  /** The subjective time at use `i` of a run. */
  function ShownAt(a: Anchor, us: seq<Use>, i: nat): real
    requires i < |us|
  { Subjective(AfterAll(a, us[..i]), FirstOf(us[i])) }

  lemma ShownRest(a: Anchor, us: seq<Use>, i: nat)
    requires 0 < i < |us|
    ensures ShownAt(a, us, i) == ShownAt(After(a, us[0]), us[1..], i - 1)
  {
    assert us[..i][0] == us[0] && us[..i][1..] == us[1..][..i - 1];
  }

  /** One use keeps the scale in range and subjective time from going back. */
  lemma UseForward(a: Anchor, u: Use, wall: real)
    requires a.scale >= 0.0 && wall <= FirstOf(u) <= LastOf(u)
    ensures After(a, u).scale >= 0.0
    ensures Subjective(a, wall) <= Subjective(a, FirstOf(u)) <= Subjective(After(a, u), LastOf(u))
  {
    Forward(a, wall, FirstOf(u));
    Forward(a, FirstOf(u), LastOf(u));
    if u.SetScale? && u.value >= 0.0 { Continuous(a, u.value, u.first, u.second); }
  }

  lemma {:induction false} Later(a: Anchor, us: seq<Use>, wall: real, i: nat)
    requires a.scale >= 0.0 && Ordered(wall, us) && i < |us|
    ensures Subjective(a, wall) <= ShownAt(a, us, i)
    decreases us
  {
    UseForward(a, us[0], wall);
    if i == 0 {
      assert us[..0] == [];
    } else {
      Later(After(a, us[0]), us[1..], LastOf(us[0]), i - 1);
      ShownRest(a, us, i);
    }
  }

  /** Subjective time never goes backwards, through any readings and scale changes. */
  lemma {:induction false} NeverBackwards(a: Anchor, us: seq<Use>, wall: real, i: nat, j: nat)
    requires a.scale >= 0.0 && Ordered(wall, us) && i <= j < |us|
    ensures Subjective(a, wall) <= ShownAt(a, us, i) <= ShownAt(a, us, j)
    decreases us
  {
    Later(a, us, wall, i);
    UseForward(a, us[0], wall);
    if i > 0 {
      NeverBackwards(After(a, us[0]), us[1..], LastOf(us[0]), i - 1, j - 1);
      ShownRest(a, us, i);
      ShownRest(a, us, j);
    } else if j > 0 {
      Later(After(a, us[0]), us[1..], LastOf(us[0]), j - 1);
      ShownRest(a, us, j);
      assert us[..0] == [];
    }
  }

  /** A change of scale does not move subjective time. */
  lemma Continuous(a: Anchor, value: real, first: real, second: real)
    requires value >= 0.0
    ensures Subjective(Rescaled(a, value, first, second), second) == Subjective(a, first)
  {}

  /** Scale times elapsed wall time, added up over the scales in force since `from`. */
  function Elapsed(scale: real, from: real, us: seq<Use>, to: real): real
    decreases us
  {
    if us == [] then scale * (to - from)
    else
      match us[0]
      case Read(_) => Elapsed(scale, from, us[1..], to)
      case SetScale(value, first, second) =>
        if value < 0.0 then Elapsed(scale, from, us[1..], to)
        else scale * (second - from) + Elapsed(value, second, us[1..], to)
  }

  /** The subjective time lost between the two readings of each change. */
  function Lost(scale: real, us: seq<Use>): real
    decreases us
  {
    if us == [] then 0.0
    else
      match us[0]
      case Read(_) => Lost(scale, us[1..])
      case SetScale(value, first, second) =>
        if value < 0.0 then Lost(scale, us[1..]) else scale * (second - first) + Lost(value, us[1..])
  }

  /** Subjective time is the origin plus scale times elapsed time, less exactly the old scale times
      the gap between the two clock readings of each change. */
  lemma {:induction false} SubjectiveIsElapsed(a: Anchor, us: seq<Use>, wall: real)
    ensures Subjective(AfterAll(a, us), wall) == a.origin + Elapsed(a.scale, a.wallOrigin, us, wall) - Lost(a.scale, us)
    decreases us
  {
    if us != [] {
      SubjectiveIsElapsed(After(a, us[0]), us[1..], wall);
    }
  }

  lemma LostOnce(scale: real, gap: real)
    requires scale >= 0.0 && gap >= 0.0
    ensures scale * gap >= 0.0 && (scale * gap == 0.0 <==> scale == 0.0 || gap == 0.0)
  {}

  /** Nothing is gained, and nothing is lost exactly when every change finds a stopped clock or reads
      the same time twice. */
  lemma {:induction false} LostExactly(a: Anchor, us: seq<Use>, wall: real)
    requires a.scale >= 0.0 && Ordered(wall, us)
    ensures Lost(a.scale, us) >= 0.0
    ensures Lost(a.scale, us) == 0.0 <==> NoGap(a.scale, us)
    decreases us
  {
    if us != [] {
      match us[0] {
        case Read(w) => LostExactly(a, us[1..], w);
        case SetScale(value, first, second) =>
          LostExactly(After(a, us[0]), us[1..], second);
          LostOnce(a.scale, second - first);
      }
    }
  }

  predicate NoGap(scale: real, us: seq<Use>)
    decreases us
  {
    us == [] ||
    match us[0]
    case Read(_) => NoGap(scale, us[1..])
    case SetScale(value, first, second) =>
      if value < 0.0 then NoGap(scale, us[1..]) else (scale == 0.0 || first == second) && NoGap(value, us[1..])
  }
}
