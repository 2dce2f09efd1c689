/**
 * Editing a .env text whose lines end in anything Python breaks lines at (kaine/secrets_file.py,
 * upsert_env): when the edited text says what it should.
 */
module AnyLineEnds {
  import opened Wrappers
  import opened Sequences
  import opened TextLines
  import opened LineEdits
  import opened SecretsFile

  // ------------------------------------------------------------------ cutting joined lines again

  /** Lines that are all ended, and not cut. */
  predicate EndedLines(a: seq<string>) { (forall i | 0 <= i < |a| :: IsLine(a[i]) && EndsLine(a[i])) && NoCut(a) }

  lemma EndedOff(a: seq<string>)
    requires EndedLines(a) && a != []
    ensures EndedLines(a[1..]) && (|a| > 1 ==> !Cut(a[0], a[1]) && a[1] != "") && a == [a[0]] + a[1..]
  {
    var b := a[1..];
    forall i | 0 <= i < |b| ensures IsLine(b[i]) && EndsLine(b[i]) { assert b[i] == a[i + 1]; }
    forall i | 0 <= i < |b| - 1 ensures !Cut(b[i], b[i + 1]) { assert !Cut(a[i + 1], a[i + 2]); }
  }

  lemma JoinCons(x: string, b: seq<string>, rest: string)
    ensures Join([x] + b) + rest == x + (Join(b) + rest)
  {
    assert ([x] + b)[1..] == b;
    Associate(x, Join(b), rest);
  }

  lemma JoinFirst(b: seq<string>, rest: string)
    requires b != [] && b[0] != ""
    ensures Join(b) + rest != "" && (Join(b) + rest)[0] == b[0][0]
  {}

  lemma NotCutNext(a: seq<string>, rest: string)
    requires EndedLines(a) && a != [] && !Cut(a[|a| - 1], rest)
    ensures !Cut(a[0], Join(a[1..]) + rest)
  {
    EndedOff(a);
    if |a| > 1 { JoinFirst(a[1..], rest); } else { assert Join(a[1..]) + rest == rest; }
  }

  lemma SplitStep(x: string, b: seq<string>, rest: string, after: seq<string>)
    requires IsLine(x) && EndsLine(x) && !Cut(x, Join(b) + rest) && SplitLines(Join(b) + rest) == b + after
    ensures SplitLines(Join([x] + b) + rest) == ([x] + b) + after
  {
    JoinCons(x, b, rest);
    SplitOff(x, Join(b) + rest);
    assert [x] + (b + after) == ([x] + b) + after;
  }

  /** Ended lines are cut off a text as they are. */
  lemma {:induction false} SplitAfter(a: seq<string>, rest: string)
    requires EndedLines(a)
    requires a != [] ==> !Cut(a[|a| - 1], rest)
    ensures SplitLines(Join(a) + rest) == a + SplitLines(rest)
  {
    if a == [] {
      assert Join(a) + rest == rest;
    } else {
      EndedOff(a);
      SplitAfter(a[1..], rest);
      NotCutNext(a, rest);
      SplitStep(a[0], a[1..], rest, SplitLines(rest));
    }
  }

  /** A line that ends in "\r", and the "\n" that makes it longer. */
  lemma {:induction false} CrLine(a: string)
    requires IsLine(a) && a[|a| - 1] == '\r'
    ensures IsLine(a + "\n")
  {
    if |a| > 1 {
      assert (a + "\n")[1..] == a[1..] + "\n" && (a + "\n")[1] == a[1];
      CrLine(a[1..]);
    }
  }

  lemma CutIsCr(a: string, b: string)
    requires IsLine(a) && IsLine(b) && Cut(a, b)
    ensures b == "\n" && IsLine(a + b)
  {
    CrLine(a);
  }

  /** The lines as they are read again: what was cut is one line. */
  function Healed(ls: seq<string>): seq<string>
    decreases |ls|
  {
    if |ls| < 2 then ls
    else if Cut(ls[0], ls[1]) then [ls[0] + ls[1]] + Healed(ls[2..])
    else [ls[0]] + Healed(ls[1..])
  }

  lemma EndedRest(ls: seq<string>, n: nat)
    requires Ended(IsLine, EndsLine, ls) && n <= |ls|
    ensures Ended(IsLine, EndsLine, ls[n..])
  {
    forall i | 0 <= i < |ls[n..]| ensures IsLine(ls[n..][i]) && (i < |ls[n..]| - 1 ==> EndsLine(ls[n..][i])) {
      assert ls[n..][i] == ls[n + i];
    }
  }

  lemma JoinTwo(ls: seq<string>)
    requires |ls| >= 2
    ensures Join(ls) == (ls[0] + ls[1]) + Join(ls[2..])
  {
    assert ls[1..][1..] == ls[2..];
    Associate(ls[0], ls[1], Join(ls[2..]));
  }

  lemma {:induction false} HealedLines(ls: seq<string>)
    requires Ended(IsLine, EndsLine, ls)
    ensures SplitLines(Join(ls)) == Healed(ls)
    decreases |ls|
  {
    if |ls| == 1 {
      JoinOne(ls[0]);
      SplitOff(ls[0], "");
      assert ls[0] + "" == ls[0] && [ls[0]] + [] == ls;
    } else if |ls| >= 2 {
      if Cut(ls[0], ls[1]) {
        CutIsCr(ls[0], ls[1]);
        EndedRest(ls, 2);
        HealedLines(ls[2..]);
        JoinTwo(ls);
        SplitOff(ls[0] + ls[1], Join(ls[2..]));
      } else {
        EndedRest(ls, 1);
        HealedLines(ls[1..]);
        assert IsLine(ls[1]) && Join(ls[1..])[0] == ls[1][0];
        SplitOff(ls[0], Join(ls[1..]));
      }
    }
  }

  lemma {:induction false} OpenLength(now: string, rest: string)
    requires NoBreaks(now) && rest != ""
    ensures LineLength(now + rest) == |now| + LineLength(rest)
  {
    if now == "" {
      assert now + rest == rest;
    } else {
      assert (now + rest)[0] == now[0] && (now + rest)[1..] == now[1..] + rest;
      OpenLength(now[1..], rest);
    }
  }

  /** Text without a break runs into the first line of what follows it. */
  lemma SplitOpen(now: string, rest: string)
    requires now != "" && NoBreaks(now) && rest != ""
    ensures SplitLines(rest) != []
    ensures SplitLines(now + rest) == [now + SplitLines(rest)[0]] + SplitLines(rest)[1..]
  {
    var n, all := LineLength(rest), now + rest;
    OpenLength(now, rest);
    assert all[..|now| + n] == now + rest[..n] && all[|now| + n..] == rest[n..];
  }

  // ------------------------------------------------------------------ what lines say that were cut

  lemma {:induction false} LStripLonger(l: string, e: string)
    ensures LStrip(l + e) == if LStrip(l) == "" then LStrip(e) else LStrip(l) + e
  {
    if l == "" {
      assert l + e == e;
    } else {
      assert (l + e)[0] == l[0] && (l + e)[1..] == l[1..] + e;
      if IsSpace(l[0]) { LStripLonger(l[1..], e); }
    }
  }

  lemma EndedCr(s: string, key: string)
    requires s != "" && s[|s| - 1] == '\r' && KeyOk(key)
    ensures SetsKey(s + "\n", key) <==> SetsKey(s, key)
    ensures SetsKey(s, key) ==> ValueIn(s + "\n", key) != ValueIn(s, key)
  {
    var t := s + "\n";
    assert t[|s|] == '\n' && t[|s| - 1] == '\r';
    if |key| < |s| { assert t[|key|] == s[|key|] && t[..|key|] == s[..|key|]; }
    assert Ending(t) == "\r\n" && Ending(s) == "";
    assert Content(s) == s && Content(t) == s[..|s| - 1];
  }

  lemma BreaksAreSpace()
    ensures LStrip("\n") == "" && LStrip("\r\n") == ""
  {
    assert "\n"[1..] == "" && "\r\n"[1..] == "\n";
    assert IsSpace('\n') && IsSpace('\r');
  }

  lemma LStripEnd(l: string)
    requires LStrip(l) != ""
    ensures l != "" && LStrip(l)[|LStrip(l)| - 1] == l[|l| - 1]
  {
    var s := LStrip(l);
    assert l[|l| - |s|..] == s;
  }

  /** What a stripped line sets. */
  function Saying(s: string, key: string): Option<string> {
    if SetsKey(s, key) then Some(ValueIn(s, key)) else None
  }

  lemma SetToIs(l: string, key: string)
    ensures SetTo(key)(l) == Saying(LStrip(l), key)
  {}

  /** A "\n" after a line that ends in "\r" changes what the line sets, and nothing else. */
  lemma CutLineSays(l: string, key: string)
    requires l != "" && l[|l| - 1] == '\r' && KeyOk(key)
    ensures SetTo(key)(l + "\n").Some? <==> SetTo(key)(l).Some?
    ensures SetTo(key)(l).Some? ==> SetTo(key)(l + "\n") != SetTo(key)(l)
  {
    SetToIs(l, key);
    SetToIs(l + "\n", key);
    LStripLonger(l, "\n");
    CutSaying(l, LStrip(l), key);
  }

  lemma CutSaying(l: string, s: string, key: string)
    requires l != "" && l[|l| - 1] == '\r' && KeyOk(key) && s == LStrip(l)
    ensures var t := if s == "" then LStrip("\n") else s + "\n";
            && (Saying(t, key).Some? <==> Saying(s, key).Some?)
            && (Saying(s, key).Some? ==> Saying(t, key) != Saying(s, key))
  {
    if s == "" {
      BreaksAreSpace();
    } else {
      LStripEnd(l);
      EndedCr(s, key);
    }
  }

  lemma BreakSaysNothing(key: string)
    requires KeyOk(key)
    ensures SetTo(key)("\n") == None && SetTo(key)("\r\n") == None
  {
    BreaksAreSpace();
    SetToIs("\n", key);
    SetToIs("\r\n", key);
  }

  function Said<V>(read: string -> Option<V>, l: string): seq<V> { if read(l).Some? then [read(l).value] else [] }

  lemma PickCons<V>(read: string -> Option<V>, l: string, ls: seq<string>)
    ensures Pick(read, [l] + ls) == Said(read, l) + Pick(read, ls)
  {
    PickAppend(read, [l], ls);
    PickOne(read, l);
  }

  lemma PickFirst<V>(read: string -> Option<V>, ls: seq<string>)
    requires ls != []
    ensures Pick(read, ls) == Said(read, ls[0]) + Pick(read, ls[1..])
  {
    assert ls == [ls[0]] + ls[1..];
    PickCons(read, ls[0], ls[1..]);
  }

  /** No line that says anything is cut. */
  predicate CutsSpare<V>(read: string -> Option<V>, ls: seq<string>) {
    forall i | 0 <= i < |ls| - 1 && Cut(ls[i], ls[i + 1]) :: read(ls[i]).None?
  }

  lemma CutsSpareStep<V>(read: string -> Option<V>, ls: seq<string>)
    requires |ls| >= 2
    ensures CutsSpare(read, ls) <==> (Cut(ls[0], ls[1]) ==> read(ls[0]).None?) && CutsSpare(read, ls[1..])
  {
    var rest := ls[1..];
    assert forall i | 0 <= i < |rest| :: rest[i] == ls[i + 1];
    if CutsSpare(read, ls) {
      forall i | 0 <= i < |rest| - 1 && Cut(rest[i], rest[i + 1]) ensures read(rest[i]).None? {
        assert Cut(ls[i + 1], ls[i + 2]);
      }
    }
    if CutsSpare(read, rest) {
      forall i | 1 <= i < |ls| - 1 && Cut(ls[i], ls[i + 1]) ensures read(ls[i]).None? {
        assert Cut(rest[i - 1], rest[i]);
      }
    }
  }

  /** A reading that sees a "\n" added after a "\r" exactly on the lines it reads something from. */
  ghost predicate SeesCuts<V>(read: string -> Option<V>) {
    && read("\n") == None
    && (forall l: string | l != "" && l[|l| - 1] == '\r' ::
          (read(l + "\n").Some? <==> read(l).Some?) && (read(l).Some? ==> read(l + "\n") != read(l)))
  }

  lemma SaidApart<V>(a: seq<V>, b: seq<V>, c: seq<V>, d: seq<V>)
    requires |a| == |b| && |c| == |d|
    ensures a + c == b + d <==> a == b && c == d
  {
    if a + c == b + d {
      assert (a + c)[..|a|] == a && (b + d)[..|b|] == b && (a + c)[|a|..] == c && (b + d)[|b|..] == d;
    }
  }

  lemma CutSaid<V>(read: string -> Option<V>, l: string)
    requires SeesCuts(read) && l != "" && l[|l| - 1] == '\r'
    ensures |Said(read, l + "\n")| == |Said(read, l)|
    ensures Said(read, l + "\n") == Said(read, l) <==> read(l).None?
  {
    if read(l).Some? { assert Said(read, l + "\n")[0] != Said(read, l)[0]; }
  }

  lemma PickAfterBreak<V>(read: string -> Option<V>, ls: seq<string>)
    requires read("\n") == None && |ls| >= 2 && ls[1] == "\n"
    ensures Pick(read, ls) == Said(read, ls[0]) + Pick(read, ls[2..])
  {
    assert ls[1..][0] == "\n" && ls[1..][1..] == ls[2..];
    PickFirst(read, ls);
    PickFirst(read, ls[1..]);
  }

  lemma CutPick<V>(read: string -> Option<V>, ls: seq<string>, all: seq<string>)
    requires SeesCuts(read) && |ls| >= 2 && Cut(ls[0], ls[1]) && ls[1] == "\n"
    requires |Pick(read, all)| == |Pick(read, ls[2..])|
    ensures |Pick(read, [ls[0] + ls[1]] + all)| == |Pick(read, ls)|
    ensures Pick(read, [ls[0] + ls[1]] + all) == Pick(read, ls)
            <==> read(ls[0]).None? && Pick(read, all) == Pick(read, ls[2..])
  {
    CutSaid(read, ls[0]);
    PickAfterBreak(read, ls);
    PickCons(read, ls[0] + ls[1], all);
    SaidApart(Said(read, ls[0] + ls[1]), Said(read, ls[0]), Pick(read, all), Pick(read, ls[2..]));
  }

  lemma UncutPick<V>(read: string -> Option<V>, ls: seq<string>, all: seq<string>)
    requires ls != [] && |Pick(read, all)| == |Pick(read, ls[1..])|
    ensures |Pick(read, [ls[0]] + all)| == |Pick(read, ls)|
    ensures Pick(read, [ls[0]] + all) == Pick(read, ls) <==> Pick(read, all) == Pick(read, ls[1..])
  {
    PickFirst(read, ls);
    PickCons(read, ls[0], all);
    SaidApart(Said(read, ls[0]), Said(read, ls[0]), Pick(read, all), Pick(read, ls[1..]));
  }

  /** Read again, lines say what they said exactly when no line that says anything is cut. */
  lemma {:induction false} HealedPick<V>(read: string -> Option<V>, ls: seq<string>)
    requires Ended(IsLine, EndsLine, ls) && SeesCuts(read)
    ensures |Pick(read, Healed(ls))| == |Pick(read, ls)|
    ensures Pick(read, Healed(ls)) == Pick(read, ls) <==> CutsSpare(read, ls)
    decreases |ls|
  {
    if |ls| >= 2 {
      CutsSpareStep(read, ls);
      if Cut(ls[0], ls[1]) {
        CutIsCr(ls[0], ls[1]);
        EndedRest(ls, 2);
        HealedPick(read, ls[2..]);
        if |ls| > 2 { CutsSpareStep(read, ls[1..]); }
        assert ls[1..][1..] == ls[2..];
        CutPick(read, ls, Healed(ls[2..]));
      } else {
        EndedRest(ls, 1);
        HealedPick(read, ls[1..]);
        UncutPick(read, ls, Healed(ls[1..]));
      }
    }
  }

  lemma SettingsSeeCuts(key: string)
    requires KeyOk(key)
    ensures SeesCuts(SetTo(key))
  {
    BreakSaysNothing(key);
    forall l: string | l != "" && l[|l| - 1] == '\r'
      ensures SetTo(key)(l + "\n").Some? <==> SetTo(key)(l).Some?
      ensures SetTo(key)(l).Some? ==> SetTo(key)(l + "\n") != SetTo(key)(l)
    {
      CutLineSays(l, key);
    }
  }

  // ------------------------------------------------------------------ the new line and what follows it

  lemma EndingAfter(a: string, h: string)
    requires a != "" && !IsBreak(a[|a| - 1])
    ensures Ending(a + h) == Ending(h) && Content(a + h) == a + Content(h)
  {
    var l := a + h;
    if h == "" {
      assert l == a;
    } else if |h| == 1 {
      assert l[|l| - 1] == h[0] && l[|l| - 2] == a[|a| - 1];
    } else {
      assert l[|l| - 1] == h[|h| - 1] && l[|l| - 2] == h[|h| - 2];
    }
    assert l[..|l| - |Ending(h)|] == a + h[..|h| - |Ending(h)|];
  }

  lemma EmptyContent(h: string)
    ensures Content(h) == "" <==> IsEnding(h)
  {
    if Content(h) == "" { assert h == h[|h| - |Ending(h)|..] && |h| == |Ending(h)|; }
  }

  predicate Spaces(ws: string) { NoBreaks(ws) && forall i | 0 <= i < |ws| :: IsSpace(ws[i]) }

  lemma AssignedSaying(key: string, value: string, h: string)
    requires KeyOk(key) && ValueOk(value)
    ensures var s := Assignment(key, value) + h;
            SetsKey(s, key) && ValueIn(s, key) == value + Content(h) && s != "" && !IsSpace(s[0])
    ensures value + Content(h) == value <==> IsEnding(h)
  {
    var a := Assignment(key, value);
    var s := a + h;
    AssignmentText(key, value);
    EndingAfter(a, h);
    EmptyContent(h);
    assert s[|key|] == '=' && s[..|key|] == key && s[0] == a[0];
    assert (a + Content(h))[|key| + 1..] == value + Content(h);
    assert value + Content(h) == value <==> Content(h) == "";
  }

  /** The assignment followed by `h` sets the key to the value and the content of `h`, which is the value
      exactly when `h` is a line end, and no other key. */
  lemma NowSays(ws: string, key: string, value: string, h: string, other: string)
    requires KeyOk(key) && ValueOk(value) && KeyOk(other) && Spaces(ws)
    ensures var l := ws + (Assignment(key, value) + h);
            && (other == key ==> SetTo(key)(l) == Some(value + Content(h)))
            && (other != key ==> SetTo(other)(l).None?)
    ensures value + Content(h) == value <==> IsEnding(h)
  {
    var s := Assignment(key, value) + h;
    AssignedSaying(key, value, h);
    LStripSpaces(ws, s);
    SetToIs(ws + s, other);
    SetToIs(ws + s, key);
    if other != key && Active(other, ws + s) { OneKey(ws + s, key, other); }
  }

  /** After the replaced line comes a new line. */
  predicate GoesOn(ending: string, rest: string) {
    ending != "" || rest == "" || rest[0] == '\n' || "\r\n" <= rest
  }

  lemma FirstIsBreak(rest: string)
    requires rest != ""
    ensures SplitLines(rest) != []
    ensures IsEnding(SplitLines(rest)[0]) <==> rest[0] == '\n' || "\r\n" <= rest
  {
    var n := LineLength(rest);
    var first := rest[..n];
    assert SplitLines(rest)[0] == first && n > 0;
    assert first[0] == rest[0] && (n > 1 ==> first[1] == rest[1]);
    if "\r\n" <= rest { assert rest[0] == '\r' && rest[1] == '\n'; }
  }

  lemma NowText(ws: string, key: string, value: string)
    requires KeyOk(key) && ValueOk(value) && Spaces(ws)
    ensures NoBreaks(ws + Assignment(key, value)) && ws + Assignment(key, value) != ""
    ensures IsLine(ws + Assignment(key, value))
  {
    AssignmentText(key, value);
    var l := ws + Assignment(key, value);
    forall i | 0 <= i < |l| ensures !IsBreak(l[i]) {
      if i >= |ws| { assert l[i] == Assignment(key, value)[i - |ws|]; }
    }
    BodyLength(l, "");
    assert l + "" == l;
  }

  lemma OnlySaid<V>(read: string -> Option<V>, x: string, ls: seq<string>, v: V)
    requires Pick(read, ls) == [] && read(x).Some?
    ensures Pick(read, [x] + ls) == [v] <==> read(x) == Some(v)
  {
    PickCons(read, x, ls);
    assert Pick(read, [x] + ls) == [read(x).value];
    assert [read(x).value] == [v] ==> [read(x).value][0] == [v][0];
  }

  lemma NotSaid<V>(read: string -> Option<V>, x: string, ls: seq<string>)
    requires read(x).None?
    ensures Pick(read, [x] + ls) == Pick(read, ls)
  {
    PickCons(read, x, ls);
  }

  lemma SilentRest<V>(read: string -> Option<V>, ls: seq<string>)
    requires ls != []
    ensures Pick(read, ls) == [] ==> Pick(read, ls[1..]) == []
    ensures read(ls[0]).None? ==> Pick(read, ls) == Pick(read, ls[1..])
  {
    PickFirst(read, ls);
  }

  lemma FirstLineSaysNothing(rest: string, key: string)
    requires KeyOk(key) && rest != ""
    ensures SplitLines(rest) != [] && (IsEnding(SplitLines(rest)[0]) ==> SetTo(key)(SplitLines(rest)[0]).None?)
  {
    FirstLine(rest);
    BreakSaysNothing(key);
  }

  /** An open new line runs into the first line after it. */
  lemma OpenTailOwn(ws: string, key: string, value: string, rest: string)
    requires KeyOk(key) && ValueOk(value) && Spaces(ws) && rest != "" && Pick(SetTo(key), SplitLines(rest)) == []
    ensures SplitLines(rest) != []
    ensures Pick(SetTo(key), SplitLines((ws + Assignment(key, value)) + rest)) == [value] <==> IsEnding(SplitLines(rest)[0])
  {
    var a, H := Assignment(key, value), SplitLines(rest);
    NowText(ws, key, value);
    SplitOpen(ws + a, rest);
    Associate(ws, a, H[0]);
    NowSays(ws, key, value, H[0], key);
    SilentRest(SetTo(key), H);
    OnlySaid(SetTo(key), (ws + a) + H[0], H[1..], value);
  }

  lemma OpenTailOther(ws: string, key: string, value: string, rest: string, other: string)
    requires KeyOk(key) && ValueOk(value) && Spaces(ws) && rest != "" && KeyOk(other) && other != key
    ensures SplitLines(rest) != []
    ensures IsEnding(SplitLines(rest)[0]) ==>
              Pick(SetTo(other), SplitLines((ws + Assignment(key, value)) + rest)) == Pick(SetTo(other), SplitLines(rest))
  {
    var a, H := Assignment(key, value), SplitLines(rest);
    NowText(ws, key, value);
    SplitOpen(ws + a, rest);
    Associate(ws, a, H[0]);
    NowSays(ws, key, value, H[0], other);
    FirstLineSaysNothing(rest, other);
    SilentRest(SetTo(other), H);
    NotSaid(SetTo(other), (ws + a) + H[0], H[1..]);
  }

  /** The new line with its end, or with nothing after it. */
  lemma WholeTail(line: string, key: string, value: string, rest: string, other: string)
    requires KeyOk(key) && ValueOk(value) && KeyOk(other) && IsLine(line) && Active(key, line)
    requires Ending(line) != "" || rest == ""
    ensures var T, H := SplitLines(NewLine(line, key, value) + rest), SplitLines(rest);
            && (other == key && Pick(SetTo(key), H) == [] ==> Pick(SetTo(key), T) == [value])
            && (other != key ==> Pick(SetTo(other), T) == Pick(SetTo(other), H))
  {
    var now := NewLine(line, key, value);
    LeadingText(line, key);
    NewLineEnds(line, key, value);
    SplitOff(now, rest);
    NowSays(Leading(line), key, value, Ending(line), other);
    if other == key {
      if Pick(SetTo(key), SplitLines(rest)) == [] { OnlySaid(SetTo(key), now, SplitLines(rest), value); }
    } else {
      NotSaid(SetTo(other), now, SplitLines(rest));
    }
  }

  /** What the new line and the text after it say, against what that text says alone. */
  lemma TailSettings(line: string, key: string, value: string, rest: string, other: string)
    requires KeyOk(key) && ValueOk(value) && KeyOk(other) && IsLine(line) && Active(key, line)
    ensures var T, H := SplitLines(NewLine(line, key, value) + rest), SplitLines(rest);
            && (other == key && Pick(SetTo(key), H) == [] ==> (Pick(SetTo(key), T) == [value] <==> GoesOn(Ending(line), rest)))
            && (other != key && GoesOn(Ending(line), rest) ==> Pick(SetTo(other), T) == Pick(SetTo(other), H))
  {
    if Ending(line) != "" || rest == "" {
      WholeTail(line, key, value, rest, other);
    } else {
      var ws := Leading(line);
      LeadingText(line, key);
      assert NewLine(line, key, value) == ws + Assignment(key, value);
      FirstIsBreak(rest);
      if other == key {
        if Pick(SetTo(key), SplitLines(rest)) == [] { OpenTailOwn(ws, key, value, rest); }
      } else {
        OpenTailOther(ws, key, value, rest, other);
      }
    }
  }

  // ------------------------------------------------------------------ a replaced line

  lemma AroundSplit(text: string, f: nat)
    requires f < |SplitLines(text)|
    ensures var ls := SplitLines(text);
            && EndedLines(ls[..f]) && IsLine(ls[f]) && Ended(IsLine, EndsLine, ls[f + 1..])
  {
    var ls := SplitLines(text);
    SplitIsWellSplit(text);
    WellSplitIs(ls);
    forall i | 0 <= i < f - 1 ensures !Cut(ls[..f][i], ls[..f][i + 1]) { assert !Cut(ls[i], ls[i + 1]); }
    EndedRest(ls, f + 1);
  }

  /** The lines kept after the replaced one. */
  function KeptAfter(text: string, key: string, f: nat): seq<string>
    requires f < |SplitLines(text)|
  { Filter(Inactive(key), SplitLines(text)[f + 1..]) }

  lemma ReplacedText(text: string, key: string, value: string, f: nat)
    requires KeyOk(key) && ValueOk(value) && FirstBad(Inactive(key), SplitLines(text)) == Some(f)
    ensures f < |SplitLines(text)| && Active(key, SplitLines(text)[f]) && IsLine(SplitLines(text)[f])
    ensures var ls, rest := SplitLines(text), Join(KeptAfter(text, key, f));
            && SplitLines(Upserted(text, key, value)) == ls[..f] + SplitLines(NewLine(ls[f], key, value) + rest)
            && SplitLines(rest) == Healed(KeptAfter(text, key, f))
  {
    var ls := SplitLines(text);
    FirstBadIs(Inactive(key), ls);
    AroundSplit(text, f);
    var head, now, kept := ls[..f], NewLine(ls[f], key, value), KeptAfter(text, key, f);
    JoinAppend(head + [now], kept);
    JoinSnoc(head, now);
    Associate(Join(head), now, Join(kept));
    NewLineEnds(ls[f], key, value);
    assert (now + Join(kept))[0] == now[0];
    SplitAfter(head, now + Join(kept));
    EndedFilter(IsLine, EndsLine, Inactive(key), ls[f + 1..]);
    HealedLines(kept);
  }

  lemma KeptSaysNothing(ls: seq<string>, key: string, f: nat)
    requires FirstBad(Inactive(key), ls) == Some(f) && f < |ls|
    ensures Pick(SetTo(key), ls[..f]) == [] && Pick(SetTo(key), Filter(Inactive(key), ls[f + 1..])) == []
  {
    FirstBadIs(Inactive(key), ls);
    var head, tail := ls[..f], ls[f + 1..];
    forall i | 0 <= i < |head| ensures SetTo(key)(head[i]).None? { assert Inactive(key)(ls[i]); }
    PickNone(SetTo(key), head);
    InactiveSaysNothing(tail, key);
    PickKept(SetTo(key), Inactive(key), tail);
  }

  lemma PickAround<V>(read: string -> Option<V>, ls: seq<string>, f: nat)
    requires f < |ls| && read(ls[f]).None?
    ensures Pick(read, ls) == Pick(read, ls[..f]) + Pick(read, ls[f + 1..])
  {
    Around(ls, f);
    PickAppend(read, ls[..f] + [ls[f]], ls[f + 1..]);
    PickAppend(read, ls[..f], [ls[f]]);
    PickOne(read, ls[f]);
  }

  lemma KeptSays(ls: seq<string>, key: string, f: nat, other: string)
    requires FirstBad(Inactive(key), ls) == Some(f) && KeyOk(key) && KeyOk(other) && f < |ls| && other != key
    ensures Pick(SetTo(other), ls) == Pick(SetTo(other), ls[..f]) + Pick(SetTo(other), Filter(Inactive(key), ls[f + 1..]))
  {
    FirstBadIs(Inactive(key), ls);
    ActiveSaysNothingElse(ls[f + 1..], key, other);
    PickFilter(SetTo(other), Inactive(key), ls[f + 1..]);
    ActiveSaysNothingElse(ls, key, other);
    PickAround(SetTo(other), ls, f);
  }

  /** After a replacement the key is set once, to the value, exactly when a new line comes after it. */
  lemma ReplacedOwnExactly(text: string, key: string, value: string, f: nat)
    requires KeyOk(key) && ValueOk(value) && FirstBad(Inactive(key), SplitLines(text)) == Some(f)
    ensures f < |SplitLines(text)|
    ensures Settings(Upserted(text, key, value), key) == [value]
            <==> GoesOn(Ending(SplitLines(text)[f]), Join(KeptAfter(text, key, f)))
  {
    ReplacedText(text, key, value, f);
    var ls, kept, read := SplitLines(text), KeptAfter(text, key, f), SetTo(key);
    KeptSaysNothing(ls, key, f);
    AroundSplit(text, f);
    EndedFilter(IsLine, EndsLine, Inactive(key), ls[f + 1..]);
    SettingsSeeCuts(key);
    HealedPick(read, kept);
    TailSettings(ls[f], key, value, Join(kept), key);
    PickAppend(read, ls[..f], SplitLines(NewLine(ls[f], key, value) + Join(kept)));
  }

  /** Then every other key is set as before exactly when no line that sets it is cut. */
  lemma ReplacedOtherExactly(text: string, key: string, value: string, f: nat, other: string)
    requires KeyOk(key) && ValueOk(value) && FirstBad(Inactive(key), SplitLines(text)) == Some(f)
    requires KeyOk(other) && other != key && f < |SplitLines(text)|
    requires GoesOn(Ending(SplitLines(text)[f]), Join(KeptAfter(text, key, f)))
    ensures Settings(Upserted(text, key, value), other) == Settings(text, other)
            <==> CutsSpare(SetTo(other), KeptAfter(text, key, f))
  {
    ReplacedText(text, key, value, f);
    var ls, kept, read := SplitLines(text), KeptAfter(text, key, f), SetTo(other);
    KeptSays(ls, key, f, other);
    AroundSplit(text, f);
    EndedFilter(IsLine, EndsLine, Inactive(key), ls[f + 1..]);
    SettingsSeeCuts(other);
    HealedPick(read, kept);
    TailSettings(ls[f], key, value, Join(kept), other);
    var T := SplitLines(NewLine(ls[f], key, value) + Join(kept));
    PickAppend(read, ls[..f], T);
    SaidApart(Pick(read, ls[..f]), Pick(read, ls[..f]), Pick(read, T), Pick(read, kept));
  }

  // ------------------------------------------------------------------ an appended line

  /** The text an assignment is appended to. */
  function EndedText(text: string): string { if text == "" || Closed(text) then text else text + "\n" }

  lemma AppendedText(text: string, key: string, value: string)
    requires FirstBad(Inactive(key), SplitLines(text)).None?
    ensures Upserted(text, key, value) == EndedText(text) + (Assignment(key, value) + "\n")
  {
    var ls, now := SplitLines(text), Assignment(key, value) + "\n";
    JoinSplit(text);
    JoinSnoc(ls, "\n");
    JoinSnoc(ls + ["\n"], now);
    JoinSnoc(ls, now);
  }

  lemma OneLine(l: string)
    requires IsLine(l)
    ensures SplitLines(l) == [l]
  {
    SplitOff(l, "");
    assert l + "" == l;
  }

  lemma ClosedLines(t: string)
    requires t == "" || Closed(t)
    ensures var ls := SplitLines(t);
            && EndedLines(ls) && (ls != [] ==> Closed(ls[|ls| - 1]))
  {
    SplitIsWellSplit(t);
    WellSplitIs(SplitLines(t));
    if t != "" { LastLineClosed(t); }
  }

  lemma AppendedSplit(t: string, key: string, value: string)
    requires (t == "" || Closed(t)) && KeyOk(key) && ValueOk(value)
    ensures SplitLines(t + (Assignment(key, value) + "\n")) == SplitLines(t) + [Assignment(key, value) + "\n"]
  {
    var now := Assignment(key, value) + "\n";
    ClosedLines(t);
    JoinSplit(t);
    AppendedLine(key, value);
    SplitAfter(SplitLines(t), now);
    OneLine(now);
  }

  lemma {:induction false} OpenIsBare(l: string)
    requires IsLine(l) && !EndsLine(l)
    ensures NoBreaks(l)
  {
    if |l| > 1 {
      OpenIsBare(l[1..]);
      assert forall i | 1 <= i < |l| :: l[i] == l[1..][i - 1];
    }
  }

  /** A line end added to the last line of a text. */
  lemma LastLineEnded(l: string, key: string)
    requires IsLine(l) && !Closed(l) && KeyOk(key)
    ensures Pick(SetTo(key), SplitLines(l + "\n")) == Pick(SetTo(key), [l])
            <==> !(l[|l| - 1] == '\r' && SetTo(key)(l).Some?)
  {
    var read := SetTo(key);
    PickOne(read, l);
    PickOne(read, l + "\n");
    if l[|l| - 1] == '\r' {
      CrLine(l);
      OneLine(l + "\n");
      CutLineSays(l, key);
    } else if EndsLine(l) {
      SplitOff(l, "\n");
      OneLine("\n");
      PickCons(read, l, ["\n"]);
      PickOne(read, "\n");
      BreakSaysNothing(key);
    } else {
      OpenIsBare(l);
      BodyLine(l, "");
      assert l + "" == l;
      SplitOpen(l, "\n");
      OneLine("\n");
      assert [l + "\n"] + ["\n"][1..] == [l + "\n"];
      SaysTheSame(l, key);
    }
  }

  /** The lines of a text that lacks a line end, and of the text once it has one. */
  lemma EndedTextLines(text: string)
    requires text != "" && !Closed(text)
    ensures SplitLines(text) != []
    ensures var ls := SplitLines(text); var n := |ls| - 1;
            && ls == ls[..n] + [ls[n]] && IsLine(ls[n]) && !Closed(ls[n])
            && text[|text| - 1] == ls[n][|ls[n]| - 1]
            && SplitLines(text + "\n") == ls[..n] + SplitLines(ls[n] + "\n")
  {
    var ls := SplitLines(text);
    var n := |ls| - 1;
    LastLineClosed(text);
    AroundSplit(text, n);
    JoinSplit(text);
    var head, l := ls[..n], ls[n];
    assert ls == head + [l];
    JoinSnoc(head, l);
    Associate(Join(head), l, "\n");
    SplitIsWellSplit(text);
    WellSplitIs(ls);
    if n > 0 { assert !Cut(ls[n - 1], ls[n]) && (l + "\n")[0] == l[0]; }
    SplitAfter(head, l + "\n");
  }

  lemma SamePrefix<V>(a: seq<V>, b: seq<V>, c: seq<V>)
    ensures a + b == a + c <==> b == c
  {
    if a + b == a + c { assert (a + b)[|a|..] == b && (a + c)[|a|..] == c; }
  }

  /** The last line of the text ends in "\r" and sets `key`. */
  predicate EndsInCr(text: string, key: string) {
    text != "" && text[|text| - 1] == '\r' && SplitLines(text) != []
    && SetTo(key)(SplitLines(text)[|SplitLines(text)| - 1]).Some?
  }

  /** The line end added to a text that lacks one changes what it says exactly when it turns the "\r" of
      a setting into a line end. */
  lemma EndedTextSays(text: string, key: string)
    requires KeyOk(key) && text != "" && !Closed(text)
    ensures Settings(EndedText(text), key) == Settings(text, key) <==> !EndsInCr(text, key)
  {
    var ls, read := SplitLines(text), SetTo(key);
    EndedTextLines(text);
    var head, l := ls[..|ls| - 1], ls[|ls| - 1];
    PickAppend(read, head, SplitLines(l + "\n"));
    PickAppend(read, head, [l]);
    LastLineEnded(l, key);
    SamePrefix(Pick(read, head), Pick(read, SplitLines(l + "\n")), Pick(read, [l]));
  }

  lemma SilentText(text: string, key: string)
    requires FirstBad(Inactive(key), SplitLines(text)).None?
    ensures Settings(text, key) == [] && !EndsInCr(text, key)
  {
    var ls := SplitLines(text);
    FirstBadIs(Inactive(key), ls);
    forall i | 0 <= i < |ls| ensures SetTo(key)(ls[i]).None? { assert Inactive(key)(ls[i]); }
    PickNone(SetTo(key), ls);
  }

  /** What the appended line says. */
  lemma AppendedSays(key: string, value: string, other: string)
    requires KeyOk(key) && ValueOk(value) && KeyOk(other)
    ensures Pick(SetTo(other), [Assignment(key, value) + "\n"]) == if other == key then [value] else []
  {
    var now := Assignment(key, value) + "\n";
    PickOne(SetTo(other), now);
    AppendedLine(key, value);
    if other != key && Active(other, now) { OneKey(now, key, other); }
  }

  /** An appended text says what the ended text says, and then the assignment. */
  lemma AppendedSettingsOf(text: string, key: string, value: string, other: string)
    requires KeyOk(key) && ValueOk(value) && KeyOk(other) && FirstBad(Inactive(key), SplitLines(text)).None?
    ensures Settings(Upserted(text, key, value), other) ==
            Settings(EndedText(text), other) + (if other == key then [value] else [])
  {
    AppendedText(text, key, value);
    AppendedSplit(EndedText(text), key, value);
    PickAppend(SetTo(other), SplitLines(EndedText(text)), [Assignment(key, value) + "\n"]);
    AppendedSays(key, value, other);
  }

  /** A closed text is ended as it is, and its last line does not end in "\r". */
  lemma EndedTextSettings(text: string, key: string)
    requires KeyOk(key)
    ensures Settings(EndedText(text), key) == Settings(text, key) <==> !EndsInCr(text, key)
  {
    if text != "" && !Closed(text) { EndedTextSays(text, key); }
  }

  /** After an append the key is set once, to the value, and another key is set as before exactly when
      the last line, if it ends in "\r", does not set it. */
  lemma AppendedExactly(text: string, key: string, value: string, other: string)
    requires KeyOk(key) && ValueOk(value) && KeyOk(other) && FirstBad(Inactive(key), SplitLines(text)).None?
    ensures Settings(Upserted(text, key, value), other) == (if other == key then [value] else Settings(text, other))
            <==> !EndsInCr(text, other)
    ensures !EndsInCr(text, key)
  {
    AppendedSettingsOf(text, key, value, other);
    SilentText(text, key);
    EndedTextSettings(text, other);
  }

  // ------------------------------------------------------------------ any text

  /** The text sets the key once, to the value, and every other key as `before` does. */
  ghost predicate SaysOnly(after: string, before: string, key: string, value: string) {
    forall other | KeyOk(other) :: Settings(after, other) == if other == key then [value] else Settings(before, other)
  }

  ghost predicate SetsSome(l: string) { exists k :: KeyOk(k) && SetTo(k)(l).Some? }

  /** What the line ends have to be: after the replaced line a new line comes, and no "\r" that ends a
      setting is brought before a "\n", be it by a deletion or by the line end an append adds. */
  ghost predicate LineEndsHold(text: string, key: string) {
    var ls := SplitLines(text);
    FirstBadIs(Inactive(key), ls);
    match FirstBad(Inactive(key), ls)
    case Some(f) =>
      var kept := KeptAfter(text, key, f);
      && GoesOn(Ending(ls[f]), Join(kept))
      && forall i | 0 <= i < |kept| - 1 && Cut(kept[i], kept[i + 1]) :: !SetsSome(kept[i])
    case None => text != "" && text[|text| - 1] == '\r' && ls != [] ==> !SetsSome(ls[|ls| - 1])
  }

  lemma ReplacedSaysExactly(text: string, key: string, value: string, f: nat)
    requires KeyOk(key) && ValueOk(value) && FirstBad(Inactive(key), SplitLines(text)) == Some(f)
    ensures SaysOnly(Upserted(text, key, value), text, key, value) <==> LineEndsHold(text, key)
  {
    var ls := SplitLines(text);
    ReplacedOwnExactly(text, key, value, f);
    var kept := KeptAfter(text, key, f);
    if GoesOn(Ending(ls[f]), Join(kept)) {
      forall other | KeyOk(other) && other != key
        ensures Settings(Upserted(text, key, value), other) == Settings(text, other) <==> CutsSpare(SetTo(other), kept)
      {
        ReplacedOtherExactly(text, key, value, f, other);
      }
      forall x | x in kept ensures SetTo(key)(x).None? { FilterIs(Inactive(key), ls[f + 1..], x); }
      AllSpared(kept, key);
    }
  }

  /** Sparing every key but one that no line sets is sparing every line that sets some key. */
  lemma AllSpared(kept: seq<string>, key: string)
    requires forall x | x in kept :: SetTo(key)(x).None?
    ensures (forall other | KeyOk(other) && other != key :: CutsSpare(SetTo(other), kept))
            <==> forall i | 0 <= i < |kept| - 1 && Cut(kept[i], kept[i + 1]) :: !SetsSome(kept[i])
  {
    if forall other | KeyOk(other) && other != key :: CutsSpare(SetTo(other), kept) {
      forall i, k | 0 <= i < |kept| - 1 && Cut(kept[i], kept[i + 1]) && KeyOk(k) ensures SetTo(k)(kept[i]).None? {
        assert k == key || CutsSpare(SetTo(k), kept);
        assert kept[i] in kept;
      }
    }
  }

  lemma AppendedSaysExactly(text: string, key: string, value: string)
    requires KeyOk(key) && ValueOk(value) && FirstBad(Inactive(key), SplitLines(text)).None?
    ensures SaysOnly(Upserted(text, key, value), text, key, value) <==> LineEndsHold(text, key)
  {
    forall other | KeyOk(other)
      ensures Settings(Upserted(text, key, value), other) == (if other == key then [value] else Settings(text, other))
              <==> !EndsInCr(text, other)
    {
      AppendedExactly(text, key, value, other);
    }
  }

  /** Whatever its line ends, an edited text sets the key once, to the value, and every other key as the
      text did, exactly when the line ends hold. */
  lemma UpsertedSettingsExactly(text: string, key: string, value: string)
    requires KeyOk(key) && ValueOk(value)
    ensures SaysOnly(Upserted(text, key, value), text, key, value) <==> LineEndsHold(text, key)
  {
    var first := FirstBad(Inactive(key), SplitLines(text));
    if first.Some? { ReplacedSaysExactly(text, key, value, first.value); } else { AppendedSaysExactly(text, key, value); }
  }

  // ------------------------------------------------------------------ two lines that are joined

  /** Two settings, the first ended by "\r". */
  function TwoSettings(key: string, was: string, other: string, w: string): string {
    (Assignment(key, was) + "\r") + (Assignment(other, w) + "\n")
  }

  lemma CrSetting(key: string, was: string)
    requires KeyOk(key) && ValueOk(was)
    ensures var l := Assignment(key, was) + "\r"; IsLine(l) && EndsLine(l)
  {
    AssignmentText(key, was);
    OpenLength(Assignment(key, was), "\r");
  }

  lemma LfSetting(key: string, w: string)
    requires KeyOk(key) && ValueOk(w)
    ensures var l := Assignment(key, w) + "\n"; IsLine(l) && l[0] != '\n'
  {
    AssignmentText(key, w);
    BodyLength(Assignment(key, w), "\n");
    BodyEnds(Assignment(key, w), "\n");
  }

  lemma TwoLines(a: string, b: string)
    requires IsLine(a) && EndsLine(a) && IsLine(b) && !Cut(a, b)
    ensures SplitLines(a + b) == [a, b]
  {
    OneLine(b);
    SplitOff(a, b);
  }

  lemma TwoSettingsLines(key: string, was: string, other: string, w: string)
    requires KeyOk(key) && ValueOk(was) && KeyOk(other) && ValueOk(w)
    ensures SplitLines(TwoSettings(key, was, other, w)) == [Assignment(key, was) + "\r", Assignment(other, w) + "\n"]
  {
    CrSetting(key, was);
    LfSetting(other, w);
    TwoLines(Assignment(key, was) + "\r", Assignment(other, w) + "\n");
  }

  lemma Bare(key: string, value: string, h: string)
    ensures "" + (Assignment(key, value) + h) == Assignment(key, value) + h
  {}

  lemma BadThenGood(ok: string -> bool, x: string, y: string)
    requires !ok(x) && ok(y)
    ensures FirstBad(ok, [x, y]) == Some(0) && Filter(ok, [x, y][1..]) == [y]
  {
    FirstBadIs(ok, [x, y]);
    assert [x, y][0] == x && [x, y][1] == y && [x, y][1..] == [y];
    FilterAll(ok, [y]);
  }

  lemma FirstOfTwo(key: string, was: string, other: string, w: string)
    requires KeyOk(key) && ValueOk(was) && KeyOk(other) && ValueOk(w) && key != other
    ensures var first, second := Assignment(key, was) + "\r", Assignment(other, w) + "\n";
            && FirstBad(Inactive(key), [first, second]) == Some(0)
            && Filter(Inactive(key), [first, second][1..]) == [second]
  {
    NowSays("", key, was, "\r", key);
    NowSays("", other, w, "\n", key);
    Bare(key, was, "\r");
    Bare(other, w, "\n");
    BadThenGood(Inactive(key), Assignment(key, was) + "\r", Assignment(other, w) + "\n");
  }

  lemma NewFirst(key: string, was: string, value: string)
    requires KeyOk(key) && ValueOk(was)
    ensures NewLine(Assignment(key, was) + "\r", key, value) == Assignment(key, value)
  {
    var line := Assignment(key, was) + "\r";
    AssignmentText(key, was);
    EndingAfter(Assignment(key, was), "\r");
    assert line[0] == Assignment(key, was)[0] && Leading(line) == "" && Ending(line) == "";
  }

  /** Setting the first of two keys whose lines are separated by "\r" swallows the second: "K=1\rA=2\n"
      becomes "K=vA=2\n", which sets K to "vA=2" and A to nothing. */
  lemma JoinedLines(key: string, was: string, value: string, other: string, w: string)
    requires KeyOk(key) && ValueOk(was) && ValueOk(value) && KeyOk(other) && ValueOk(w) && key != other
    ensures var text := TwoSettings(key, was, other, w); var after := Upserted(text, key, value);
            && after == Assignment(key, value) + (Assignment(other, w) + "\n")
            && Settings(text, other) == [w] && Settings(after, other) == []
            && Settings(after, key) == [value + Assignment(other, w)]
  {
    var text, second := TwoSettings(key, was, other, w), Assignment(other, w) + "\n";
    var now := Assignment(key, value);
    TwoSettingsLines(key, was, other, w);
    FirstOfTwo(key, was, other, w);
    NewFirst(key, was, value);
    assert Edited(text, key, value) == [now, second];
    assert [now, second][1..] == [second];
    JoinOne(second);
    JoinedText(key, value, other, w);
    BeforeJoining(key, was, other, w);
  }

  lemma BeforeJoining(key: string, was: string, other: string, w: string)
    requires KeyOk(key) && ValueOk(was) && KeyOk(other) && ValueOk(w) && key != other
    ensures Settings(TwoSettings(key, was, other, w), other) == [w]
  {
    var first, second := Assignment(key, was) + "\r", Assignment(other, w) + "\n";
    TwoSettingsLines(key, was, other, w);
    NowSays("", key, was, "\r", other);
    NowSays("", other, w, "\n", other);
    Bare(key, was, "\r");
    Bare(other, w, "\n");
    PickFirst(SetTo(other), [first, second]);
    assert [first, second][1..] == [second];
    PickOne(SetTo(other), second);
  }

  lemma OneOpenLine(a: string, l: string)
    requires a != "" && NoBreaks(a) && IsLine(l)
    ensures SplitLines(a + l) == [a + l]
  {
    OneLine(l);
    SplitOpen(a, l);
  }

  lemma SettingContent(key: string, w: string)
    requires KeyOk(key) && ValueOk(w)
    ensures Content(Assignment(key, w) + "\n") == Assignment(key, w)
  {
    AssignmentText(key, w);
    EndingAfter(Assignment(key, w), "\n");
    assert Content("\n") == "";
  }

  lemma JoinedText(key: string, value: string, other: string, w: string)
    requires KeyOk(key) && ValueOk(value) && KeyOk(other) && ValueOk(w) && key != other
    ensures var after := Assignment(key, value) + (Assignment(other, w) + "\n");
            Settings(after, other) == [] && Settings(after, key) == [value + Assignment(other, w)]
  {
    var after, second := Assignment(key, value) + (Assignment(other, w) + "\n"), Assignment(other, w) + "\n";
    AssignmentText(key, value);
    LfSetting(other, w);
    OneOpenLine(Assignment(key, value), second);
    SettingContent(other, w);
    NowSays("", key, value, second, other);
    NowSays("", key, value, second, key);
    Bare(key, value, second);
    PickOne(SetTo(other), after);
    PickOne(SetTo(key), after);
  }
}
