/**
 * Editing a .env file of secrets (kaine/secrets_file.py, upsert_env): the text is cut into lines,
 * one line is replaced, duplicates are deleted, and the lines are joined again.
 */
module SecretsFile {
  import opened Wrappers
  import opened Sequences
  import opened TextLines
  import opened LineEdits

  // ------------------------------------------------------------------ the edit

  predicate Letter(c: char) { 'A' <= c <= 'Z' || 'a' <= c <= 'z' }

  predicate KeyChar(c: char) { Letter(c) || '0' <= c <= '9' || c == '_' }

  predicate ValueChar(c: char) { KeyChar(c) || c == '.' || c == '~' || c == '+' || c == '/' || c == '=' || c == '-' }

  predicate KeyOk(key: string) {
    key != "" && !('0' <= key[0] <= '9') && forall i | 0 <= i < |key| :: KeyChar(key[i])
  }

  predicate ValueOk(value: string) { value != "" && forall i | 0 <= i < |value| :: ValueChar(value[i]) }

  /** The line sets `key`. */
  predicate Active(key: string, line: string) { SetsKey(LStrip(line), key) }

  /** `s.startswith(key + "=")`. */
  predicate SetsKey(s: string, key: string) { |key| < |s| && s[|key|] == '=' && s[..|key|] == key }

  function Inactive(key: string): string -> bool { l => !Active(key, l) }

  function Assignment(key: string, value: string): string { key + "=" + value }

  function NewLine(line: string, key: string, value: string): string {
    Leading(line) + (Assignment(key, value) + Ending(line))
  }

  /** The edited lines: the first active one replaced and the others deleted, or one appended. */
  function EditedAt(ls: seq<string>, first: Option<nat>, ended: bool, key: string, value: string): seq<string>
    requires first.Some? ==> first.value < |ls|
  {
    if first.Some? then Replaced(Inactive(key), ls, first.value, NewLine(ls[first.value], key, value))
    else if ended then ls + [Assignment(key, value) + "\n"]
    else ls + ["\n"] + [Assignment(key, value) + "\n"]
  }

  function Edited(text: string, key: string, value: string): seq<string> {
    var ls := SplitLines(text);
    FirstBadIs(Inactive(key), ls);
    EditedAt(ls, FirstBad(Inactive(key), ls), text == "" || Closed(text), key, value)
  }

  function Upserted(text: string, key: string, value: string): string { Join(Edited(text, key, value)) }

  method EditLines(was: seq<string>, ended: bool, key: string, value: string) returns (lines: seq<string>)
    ensures FirstBad(Inactive(key), was).Some? ==> FirstBad(Inactive(key), was).value < |was|
    ensures lines == EditedAt(was, FirstBad(Inactive(key), was), ended, key, value)
  {
    lines := was;
    var first, dups := FindBad(Inactive(key), lines);
    FirstBadIs(Inactive(key), lines);
    if first.Some? {
      var line := NewLine(lines[first.value], key, value);
      lines := ReplaceAndDelete(Inactive(key), lines, first.value, dups, line);
    } else {
      if !ended {
        lines := lines + ["\n"];
      }
      lines := lines + [Assignment(key, value) + "\n"];
    }
  }

  /** The source's edit of a text; an invalid key or value is refused. */
  method UpsertEnv(text: string, key: string, value: string) returns (r: Option<string>)
    ensures r == if KeyOk(key) && ValueOk(value) then Some(Upserted(text, key, value)) else None
  {
    if !KeyOk(key) || !ValueOk(value) {
      return None;
    }
    var lines := EditLines(SplitLines(text), text == "" || Closed(text), key, value);
    r := Some(Join(lines));
  }

  /** The edited lines are the lines of the edited text exactly when they are well split. */
  lemma EditedTextExactly(text: string, key: string, value: string)
    ensures SplitLines(Upserted(text, key, value)) == Edited(text, key, value) <==> WellSplit(Edited(text, key, value))
  {
    ResplitExactly(Edited(text, key, value));
  }

  // ------------------------------------------------------------------ what a line says

  /** What the line sets `key` to. */
  function SetTo(key: string): string -> Option<string> {
    l => if Active(key, l) then Some(ValueIn(LStrip(l), key)) else None
  }

  function ValueIn(assignment: string, key: string): string {
    var c := Content(assignment);
    if |c| > |key| then c[|key| + 1..] else ""
  }

  /** All values `key` is set to, in the order of the lines. */
  function Settings(text: string, key: string): seq<string> { Pick(SetTo(key), SplitLines(text)) }

  /** What a key or a value may be written with. */
  lemma WrittenWith(c: char)
    ensures KeyChar(c) <==> c in "ABCDEFGHIJKLMNOPQRSTUVWXYZ" || c in "abcdefghijklmnopqrstuvwxyz" || c in "0123456789_"
    ensures ValueChar(c) <==> KeyChar(c) || c in "._~+/=-"
  {}

  /** A key is accepted exactly when it is not empty, is written with key characters and does not start with a
      digit, a value exactly when it is not empty and written with value characters. */
  lemma AcceptedExactly(key: string, value: string)
    ensures KeyOk(key) <==> key != "" && key[0] !in "0123456789" && forall c | c in key :: KeyChar(c)
    ensures ValueOk(value) <==> value != "" && forall c | c in value :: ValueChar(c)
  {}

  predicate Blank(ws: string) { forall i | 0 <= i < |ws| :: IsSpace(ws[i]) }

  lemma ActiveParts(line: string, key: string) returns (ws: string, rest: string)
    requires Active(key, line)
    ensures Blank(ws) && line == ws + (key + "=" + rest)
  {
    var s := LStrip(line);
    ws, rest := line[..|line| - |s|], s[|key| + 1..];
    Around(s, |key|);
    assert line == line[..|line| - |s|] + line[|line| - |s|..];
  }

  lemma AssignmentParts(key: string, value: string)
    ensures var a := Assignment(key, value); |a| == |key| + 1 + |value| && a[..|key|] == key && a[|key|] == '='
    ensures Assignment(key, value)[|key| + 1..] == value
  {}

  /** White space, a key, "=" and anything. */
  lemma ActiveFrom(ws: string, key: string, rest: string)
    requires Blank(ws) && (key == "" || !IsSpace(key[0]))
    ensures var l := ws + (key + "=" + rest); Active(key, l) && LStrip(l) == key + "=" + rest
  {
    var s := key + "=" + rest;
    assert s[|key|] == '=' && s[..|key|] == key;
    assert s[0] == if key == "" then '=' else key[0];
    LStripSpaces(ws, s);
  }

  /** A line sets the key exactly when it is white space, the key, "=" and anything. */
  lemma ActiveExactly(line: string, key: string)
    requires key == "" || !IsSpace(key[0])
    ensures Active(key, line) <==> exists ws, rest :: Blank(ws) && line == ws + (key + "=" + rest)
  {
    if Active(key, line) {
      var ws, rest := ActiveParts(line, key);
    } else {
      forall ws, rest | Blank(ws) ensures line != ws + (key + "=" + rest) { ActiveFrom(ws, key, rest); }
    }
  }

  lemma AssignmentBreaks(key: string, value: string)
    requires NoBreaks(key) && NoBreaks(value)
    ensures NoBreaks(Assignment(key, value))
  {
    var a := Assignment(key, value);
    forall i | 0 <= i < |a| ensures !IsBreak(a[i]) {
      if i < |key| { assert a[i] == key[i]; } else if i > |key| { assert a[i] == value[i - |key| - 1]; }
    }
  }

  lemma AssignmentSays(key: string, value: string, ending: string)
    requires NoBreaks(key) && NoBreaks(value) && IsEnding(ending)
    ensures ValueIn(Assignment(key, value) + ending, key) == value
  {
    var a := Assignment(key, value);
    AssignmentParts(key, value);
    AssignmentBreaks(key, value);
    BodyEnding(a, ending);
    assert (a + ending)[..|a|] == a;
  }

  /** And what it sets it to is all that follows the "=", without the line end. */
  lemma SettingSays(ws: string, key: string, value: string, ending: string)
    requires (key == "" || !IsSpace(key[0])) && Blank(ws)
    requires NoBreaks(key) && NoBreaks(value) && IsEnding(ending)
    ensures SetTo(key)(ws + (key + "=" + (value + ending))) == Some(value)
  {
    ActiveFrom(ws, key, value + ending);
    Associate(key + "=", value, ending);
    AssignmentSays(key, value, ending);
  }

  lemma Associate(a: string, b: string, c: string)
    ensures a + (b + c) == (a + b) + c
  {}

  lemma AssignmentText(key: string, value: string)
    requires KeyOk(key) && ValueOk(value)
    ensures NoBreaks(Assignment(key, value)) && Assignment(key, value) != "" && !IsSpace(Assignment(key, value)[0])
  {
    var a := Assignment(key, value);
    forall i | 0 <= i < |a| ensures !IsBreak(a[i]) {
      if i < |key| {
        assert a[i] == key[i];
      } else if i > |key| {
        assert a[i] == value[i - |key| - 1];
      }
    }
    assert a[0] == key[0];
  }

  /** A line sets one key. */
  lemma OneKey(line: string, key: string, other: string)
    requires KeyOk(key) && KeyOk(other) && Active(key, line) && Active(other, line)
    ensures key == other
  {
    var s := LStrip(line);
    assert s[|key|] == '=' && s[|other|] == '=';
    assert KeyChar('=') == false;
    LongerKey(s, key, other);
    LongerKey(s, other, key);
  }

  lemma LongerKey(s: string, key: string, other: string)
    requires KeyOk(key) && KeyOk(other) && SetsKey(s, key) && SetsKey(s, other)
    ensures |key| >= |other|
  {
    forall i | 0 <= i < |other| ensures s[i] != '=' { assert s[i] == other[i]; }
  }

  lemma LeadingText(line: string, key: string)
    requires IsLine(line) && Active(key, line) && key != ""
    ensures NoBreaks(Leading(line)) && forall i | 0 <= i < |Leading(line)| :: IsSpace(Leading(line)[i])
  {
    var n := |line| - |LStrip(line)|;
    assert |LStrip(line)| > |key| >= 1;
    forall i | 0 <= i < n ensures !IsBreak(line[i]) {
      if IsBreak(line[i]) { LineBreaks(line, i); }
    }
  }

  /** An assignment after white space, with a line end. */
  lemma AssignedText(ws: string, key: string, value: string, ending: string)
    requires KeyOk(key) && ValueOk(value) && NoBreaks(ws) && (forall i | 0 <= i < |ws| :: IsSpace(ws[i])) && IsEnding(ending)
    ensures var l := ws + (Assignment(key, value) + ending);
            PlainLine(l) && Ending(l) == ending && (Closed(l) <==> ending != "")
            && LStrip(l) == Assignment(key, value) + ending
  {
    var a := Assignment(key, value);
    AssignmentText(key, value);
    BodyLine(ws + a, ending);
    Associate(ws, a, ending);
    assert (a + ending)[0] == a[0];
    LStripSpaces(ws, a + ending);
  }

  lemma AssignedValue(key: string, value: string, ending: string)
    requires KeyOk(key) && ValueOk(value) && IsEnding(ending)
    ensures SetsKey(Assignment(key, value) + ending, key) && ValueIn(Assignment(key, value) + ending, key) == value
  {
    var a := Assignment(key, value);
    AssignmentText(key, value);
    BodyEnding(a, ending);
    assert Content(a + ending) == a;
    assert (a + ending)[..|key|] == a[..|key|] == key && (a + ending)[|key|] == a[|key|] == '=';
    assert a[|key| + 1..] == value;
  }

  /** What there is to know of a line that sets `key` to `value`. */
  predicate SetLine(l: string, key: string, value: string) {
    && PlainLine(l) && Active(key, l) && SetTo(key)(l) == Some(value)
    && NewLine(l, key, value) == l
  }

  lemma LeadingIs(ws: string, rest: string)
    requires LStrip(ws + rest) == rest
    ensures Leading(ws + rest) == ws
  {}

  lemma AssignedSays(l: string, key: string, value: string, ending: string)
    requires KeyOk(key) && ValueOk(value) && IsEnding(ending) && LStrip(l) == Assignment(key, value) + ending
    ensures Active(key, l) && SetTo(key)(l) == Some(value)
  {
    AssignedValue(key, value, ending);
  }

  lemma AssignedSame(ws: string, key: string, value: string, ending: string)
    requires LStrip(ws + (Assignment(key, value) + ending)) == Assignment(key, value) + ending
    requires Ending(ws + (Assignment(key, value) + ending)) == ending
    ensures var l := ws + (Assignment(key, value) + ending); NewLine(l, key, value) == l
  {
    LeadingIs(ws, Assignment(key, value) + ending);
  }

  lemma AssignedLine(ws: string, key: string, value: string, ending: string)
    requires KeyOk(key) && ValueOk(value) && NoBreaks(ws) && (forall i | 0 <= i < |ws| :: IsSpace(ws[i])) && IsEnding(ending)
    ensures var l := ws + (Assignment(key, value) + ending); SetLine(l, key, value) && (Closed(l) <==> ending != "")
  {
    AssignedText(ws, key, value, ending);
    AssignedSays(ws + (Assignment(key, value) + ending), key, value, ending);
    AssignedSame(ws, key, value, ending);
  }

  lemma NewLineFacts(line: string, key: string, value: string)
    requires PlainLine(line) && Active(key, line) && KeyOk(key) && ValueOk(value)
    ensures SetLine(NewLine(line, key, value), key, value) && (Closed(NewLine(line, key, value)) <==> Closed(line))
  {
    LeadingText(line, key);
    AssignedLine(Leading(line), key, value, Ending(line));
  }

  lemma AppendedLine(key: string, value: string)
    requires KeyOk(key) && ValueOk(value)
    ensures SetLine(Assignment(key, value) + "\n", key, value) && Closed(Assignment(key, value) + "\n")
  {
    AssignedLine("", key, value, "\n");
    assert "" + (Assignment(key, value) + "\n") == Assignment(key, value) + "\n";
  }

  lemma ValueEnded(s: string, key: string)
    requires s != "" && NoBreaks(s)
    ensures ValueIn(s + "\n", key) == ValueIn(s, key)
  {
    BodyEnding(s, "\n");
    BodyEnding(s, "");
    assert s + "" == s && Content(s + "\n") == s == Content(s);
  }

  lemma LStripNoBreaks(l: string)
    requires NoBreaks(l)
    ensures NoBreaks(LStrip(l))
  {
    var s := LStrip(l);
    forall i | 0 <= i < |s| ensures !IsBreak(s[i]) { assert s[i] == l[|l| - |s| + i]; }
  }

  lemma ActiveEnded(l: string, key: string)
    requires NoBreaks(l) && KeyOk(key)
    ensures Active(key, l + "\n") <==> Active(key, l)
    ensures LStrip(l + "\n") == if LStrip(l) == "" then "" else LStrip(l) + "\n"
  {
    LStripEnded(l);
    var s := LStrip(l);
    var t := s + "\n";
    assert t[|s|] == '\n';
    if |key| < |s| { assert t[|key|] == s[|key|] && t[..|key|] == s[..|key|]; }
  }

  /** A line end changes nothing a line says. */
  lemma SaysTheSame(l: string, key: string)
    requires PlainLine(l) && !Closed(l) && KeyOk(key)
    ensures SetTo(key)(l + "\n") == SetTo(key)(l)
    ensures PlainLine(l + "\n") && Closed(l + "\n")
  {
    OpenLine(l);
    BodyLine(l, "\n");
    ActiveEnded(l, key);
    LStripNoBreaks(l);
    if Active(key, l) { ValueEnded(LStrip(l), key); }
  }

  lemma AppendedActive(key: string, value: string)
    requires KeyOk(key) && ValueOk(value)
    ensures !Inactive(key)(Assignment(key, value) + "\n")
  {
    AppendedLine(key, value);
  }

  function AddEnd(l: string): string { l + "\n" }

  lemma LfIsEnded(ls: seq<string>)
    ensures LfLines(ls) <==> Ended(PlainLine, Closed, ls)
  {}

  // ------------------------------------------------------------------ the lines of the edited text

  /** What the edited text reads as. */
  function Settled(ls: seq<string>, key: string, value: string): seq<string> {
    FirstBadIs(Inactive(key), ls);
    match FirstBad(Inactive(key), ls)
    case Some(f) => Replaced(Inactive(key), ls, f, NewLine(ls[f], key, value))
    case None => CloseLast(Closed, AddEnd, ls) + [Assignment(key, value) + "\n"]
  }

  /** The first active line, and the line that replaces it. */
  lemma NewLineAt(ls: seq<string>, key: string, value: string, f: nat)
    requires LfLines(ls) && KeyOk(key) && ValueOk(value) && FirstBad(Inactive(key), ls) == Some(f)
    ensures f < |ls| && SetLine(NewLine(ls[f], key, value), key, value)
    ensures Closed(NewLine(ls[f], key, value)) <==> Closed(ls[f])
    ensures !Inactive(key)(NewLine(ls[f], key, value))
  {
    FirstBadIs(Inactive(key), ls);
    NewLineFacts(ls[f], key, value);
  }

  lemma ReplacedLf(ls: seq<string>, key: string, value: string, f: nat)
    requires LfLines(ls) && KeyOk(key) && ValueOk(value) && FirstBad(Inactive(key), ls) == Some(f)
    ensures LfLines(Settled(ls, key, value))
  {
    NewLineAt(ls, key, value, f);
    LfIsEnded(ls);
    ReplacedEnded(PlainLine, Closed, Inactive(key), ls, f, NewLine(ls[f], key, value));
    LfIsEnded(Settled(ls, key, value));
  }

  lemma AppendedLf(ls: seq<string>, key: string, value: string)
    requires LfLines(ls) && KeyOk(key) && ValueOk(value) && FirstBad(Inactive(key), ls).None?
    ensures LfLines(Settled(ls, key, value))
  {
    AppendedLine(key, value);
    if ls != [] && !Closed(ls[|ls| - 1]) { SaysTheSame(ls[|ls| - 1], key); }
    LfIsEnded(ls);
    AppendedEnded(PlainLine, Closed, AddEnd, ls, Assignment(key, value) + "\n");
    LfIsEnded(Settled(ls, key, value));
  }

  lemma JoinSnoc(ls: seq<string>, l: string)
    ensures Join(ls + [l]) == Join(ls) + l
  {
    JoinAppend(ls, [l]);
    JoinOne(l);
  }

  lemma {:induction false} JoinCloseLast(ls: seq<string>)
    requires ls != [] && !Closed(ls[|ls| - 1])
    ensures Join(CloseLast(Closed, AddEnd, ls)) == Join(ls) + "\n"
    decreases |ls|
  {
    var c := CloseLast(Closed, AddEnd, ls);
    if |ls| == 1 {
      JoinOne(ls[0]);
      JoinOne(ls[0] + "\n");
      assert c == [ls[0] + "\n"] && ls == [ls[0]];
    } else {
      assert c[1..] == CloseLast(Closed, AddEnd, ls[1..]);
      JoinCloseLast(ls[1..]);
      Associate(ls[0], Join(ls[1..]), "\n");
    }
  }

  lemma OpenJoin(ls: seq<string>, now: string)
    requires ls != [] && !Closed(ls[|ls| - 1])
    ensures Join(ls + ["\n"] + [now]) == Join(CloseLast(Closed, AddEnd, ls) + [now])
  {
    JoinCloseLast(ls);
    JoinSnoc(ls, "\n");
    JoinSnoc(ls + ["\n"], now);
    JoinSnoc(CloseLast(Closed, AddEnd, ls), now);
  }

  lemma LastLineOf(text: string)
    ensures var ls := SplitLines(text);
            (text == "" || Closed(text)) <==> (ls == [] || Closed(ls[|ls| - 1]))
  {
    if text != "" { LastLineClosed(text); }
  }

  /** The edited lines and the settled lines join to the same text. */
  lemma EditedText(text: string, key: string, value: string)
    ensures Upserted(text, key, value) == Join(Settled(SplitLines(text), key, value))
  {
    var ls := SplitLines(text);
    LastLineOf(text);
    if FirstBad(Inactive(key), ls).None? && ls != [] && !Closed(ls[|ls| - 1]) {
      OpenJoin(ls, Assignment(key, value) + "\n");
    }
  }

  /** The edited text reads as the settled lines. */
  lemma UpsertedLines(text: string, key: string, value: string)
    requires Plain(text) && KeyOk(key) && ValueOk(value)
    ensures SplitLines(Upserted(text, key, value)) == Settled(SplitLines(text), key, value)
    ensures Plain(Upserted(text, key, value)) && LfLines(SplitLines(text))
  {
    var ls := SplitLines(text);
    PlainSplit(text);
    EditedText(text, key, value);
    var first := FirstBad(Inactive(key), ls);
    if first.Some? { ReplacedLf(ls, key, value, first.value); } else { AppendedLf(ls, key, value); }
    LfResplit(Settled(ls, key, value));
    LfPlain(Settled(ls, key, value));
  }

  // ------------------------------------------------------------------ the guarantees

  lemma InactiveSaysNothing(ls: seq<string>, key: string)
    ensures forall i | 0 <= i < |ls| :: Inactive(key)(ls[i]) ==> SetTo(key)(ls[i]).None?
  {}

  lemma ActiveSaysNothingElse(ls: seq<string>, key: string, other: string)
    requires KeyOk(key) && KeyOk(other) && key != other
    ensures forall i | 0 <= i < |ls| :: !Inactive(key)(ls[i]) ==> SetTo(other)(ls[i]).None?
  {
    forall i | 0 <= i < |ls| && !Inactive(key)(ls[i]) ensures SetTo(other)(ls[i]).None? {
      if Active(other, ls[i]) { OneKey(ls[i], key, other); }
    }
  }

  lemma ReplacedOwn(ls: seq<string>, key: string, value: string, f: nat)
    requires LfLines(ls) && KeyOk(key) && ValueOk(value) && FirstBad(Inactive(key), ls) == Some(f)
    ensures Pick(SetTo(key), Settled(ls, key, value)) == [value]
  {
    NewLineAt(ls, key, value, f);
    InactiveSaysNothing(ls, key);
    ReplacedPickOwn(SetTo(key), Inactive(key), ls, f, NewLine(ls[f], key, value), value);
  }

  lemma ReplacedOther(ls: seq<string>, key: string, value: string, other: string, f: nat)
    requires LfLines(ls) && KeyOk(key) && ValueOk(value) && KeyOk(other) && other != key
    requires FirstBad(Inactive(key), ls) == Some(f)
    ensures Pick(SetTo(other), Settled(ls, key, value)) == Pick(SetTo(other), ls)
  {
    NewLineAt(ls, key, value, f);
    var now := NewLine(ls[f], key, value);
    ActiveSaysNothingElse(ls, key, other);
    ActiveSaysNothingElse([now], key, other);
    assert [now][0] == now;
    ReplacedPickOther(SetTo(other), Inactive(key), ls, f, now);
  }

  lemma AppendedSettings(ls: seq<string>, key: string, value: string, other: string)
    requires LfLines(ls) && KeyOk(key) && ValueOk(value) && KeyOk(other) && FirstBad(Inactive(key), ls).None?
    ensures Pick(SetTo(other), Settled(ls, key, value)) == if other == key then [value] else Pick(SetTo(other), ls)
  {
    var read, now := SetTo(other), Assignment(key, value) + "\n";
    FirstBadIs(Inactive(key), ls);
    AppendedLine(key, value);
    if ls != [] && !Closed(ls[|ls| - 1]) { SaysTheSame(ls[|ls| - 1], other); }
    CloseLastPick(read, Closed, AddEnd, ls);
    PickAppend(read, CloseLast(Closed, AddEnd, ls), [now]);
    PickOne(read, now);
    if other == key {
      forall i | 0 <= i < |ls| ensures read(ls[i]).None? { assert Inactive(key)(ls[i]); }
      PickNone(read, ls);
    } else if Active(other, now) {
      OneKey(now, key, other);
    }
  }

  /** On a text with LF or CRLF line ends the edited text sets the key once, to the value, and every
      other key to what the text set it to. */
  lemma UpsertedSettings(text: string, key: string, value: string, other: string)
    requires Plain(text) && KeyOk(key) && ValueOk(value) && KeyOk(other)
    ensures Settings(Upserted(text, key, value), other) == if other == key then [value] else Settings(text, other)
  {
    UpsertedLines(text, key, value);
    var ls := SplitLines(text);
    var first := FirstBad(Inactive(key), ls);
    if first.None? {
      AppendedSettings(ls, key, value, other);
    } else if other == key {
      ReplacedOwn(ls, key, value, first.value);
    } else {
      ReplacedOther(ls, key, value, other, first.value);
    }
  }

  lemma ClosedInactive(ls: seq<string>, key: string)
    requires LfLines(ls) && KeyOk(key) && FirstBad(Inactive(key), ls).None?
    ensures forall l | l in CloseLast(Closed, AddEnd, ls) :: Inactive(key)(l)
  {
    FirstBadIs(Inactive(key), ls);
    if ls != [] && !Closed(ls[|ls| - 1]) {
      SaysTheSame(ls[|ls| - 1], key);
      assert Inactive(key)(ls[|ls| - 1]);
    }
  }

  lemma SettledOthers(ls: seq<string>, key: string, value: string)
    requires LfLines(ls) && KeyOk(key) && ValueOk(value)
    ensures Filter(Inactive(key), Settled(ls, key, value)) ==
            if FirstBad(Inactive(key), ls).Some? then Filter(Inactive(key), ls) else CloseLast(Closed, AddEnd, ls)
  {
    var first := FirstBad(Inactive(key), ls);
    if first.Some? {
      NewLineAt(ls, key, value, first.value);
      ReplacedRest(Inactive(key), ls, first.value, NewLine(ls[first.value], key, value));
    } else {
      AppendedActive(key, value);
      ClosedInactive(ls, key);
      AppendedRest(Inactive(key), CloseLast(Closed, AddEnd, ls), Assignment(key, value) + "\n");
    }
  }

  /** All other lines stay, in order; a last line without an end gets one when a line is appended. */
  lemma OtherLinesStay(text: string, key: string, value: string)
    requires Plain(text) && KeyOk(key) && ValueOk(value)
    ensures var ls, keep := SplitLines(text), Inactive(key);
            Filter(keep, SplitLines(Upserted(text, key, value))) ==
            if FirstBad(keep, ls).Some? then Filter(keep, ls) else CloseLast(Closed, AddEnd, ls)
  {
    UpsertedLines(text, key, value);
    SettledOthers(SplitLines(text), key, value);
  }

  lemma OneActiveReplaced(ls: seq<string>, key: string, value: string, f: nat)
    requires LfLines(ls) && KeyOk(key) && ValueOk(value) && FirstBad(Inactive(key), ls) == Some(f)
    ensures var all := Settled(ls, key, value);
            && f < |all| && SetLine(all[f], key, value)
            && forall i | 0 <= i < |all| :: i != f ==> Inactive(key)(all[i])
  {
    NewLineAt(ls, key, value, f);
    var all := Settled(ls, key, value);
    forall i | 0 <= i < |all| && i != f ensures Inactive(key)(all[i]) {
      ReplacedOnlyOne(Inactive(key), ls, f, NewLine(ls[f], key, value), i);
    }
  }

  lemma OneActiveAppended(ls: seq<string>, key: string, value: string)
    requires LfLines(ls) && KeyOk(key) && ValueOk(value) && FirstBad(Inactive(key), ls).None?
    ensures var all, f := Settled(ls, key, value), |ls|;
            && f < |all| && SetLine(all[f], key, value)
            && forall i | 0 <= i < |all| :: i != f ==> Inactive(key)(all[i])
  {
    var now := Assignment(key, value) + "\n";
    assert Settled(ls, key, value)[|ls|] == now;
    AppendedLine(key, value);
    AppendedActive(key, value);
    ClosedInactive(ls, key);
    AppendedRest(Inactive(key), CloseLast(Closed, AddEnd, ls), now);
  }

  /** Settling settled lines changes nothing. */
  lemma SettledAgain(ls: seq<string>, key: string, value: string)
    requires LfLines(ls) && KeyOk(key) && ValueOk(value)
    ensures Settled(Settled(ls, key, value), key, value) == Settled(ls, key, value)
  {
    var first := FirstBad(Inactive(key), ls);
    if first.Some? { OneActiveReplaced(ls, key, value, first.value); } else { OneActiveAppended(ls, key, value); }
    var f := if first.Some? then first.value else |ls|;
    var all := Settled(ls, key, value);
    assert !Inactive(key)(all[f]);
    OnlyBad(Inactive(key), all, f);
  }

  /** Setting the same value again changes nothing. */
  lemma UpsertIdempotent(text: string, key: string, value: string)
    requires Plain(text) && KeyOk(key) && ValueOk(value)
    ensures Upserted(Upserted(text, key, value), key, value) == Upserted(text, key, value)
  {
    var now := Upserted(text, key, value);
    UpsertedLines(text, key, value);
    SettledAgain(SplitLines(text), key, value);
    EditedText(now, key, value);
    EditedText(text, key, value);
  }

  // ------------------------------------------------------------------ other line ends

  /** The break between two lines would be read as one. */
  predicate Cut(a: string, b: string) { a != "" && b != "" && a[|a| - 1] == '\r' && b[0] == '\n' }

  predicate NoCut(ls: seq<string>) { forall i | 0 <= i < |ls| - 1 :: !Cut(ls[i], ls[i + 1]) }

  lemma WellSplitIs(ls: seq<string>)
    ensures WellSplit(ls) <==> Ended(IsLine, EndsLine, ls) && NoCut(ls)
  {
    if WellSplit(ls) {
      forall i | 0 <= i < |ls| - 1 ensures !Cut(ls[i], ls[i + 1]) && EndsLine(ls[i]) { assert IsLine(ls[i + 1]); }
    } else if Ended(IsLine, EndsLine, ls) && NoCut(ls) {
      forall i | 0 <= i < |ls| - 1
        ensures EndsLine(ls[i]) && !(ls[i][|ls[i]| - 1] == '\r' && ls[i + 1][0] == '\n')
      {
        assert IsLine(ls[i + 1]) && !Cut(ls[i], ls[i + 1]);
      }
    }
  }

  lemma NoCutAround(a: seq<string>, x: string, b: seq<string>)
    requires x != "" && x[0] != '\n' && x[|x| - 1] != '\r'
    ensures NoCut(a + [x] + b) <==> NoCut(a) && NoCut(b)
  {
    var ls := a + [x] + b;
    if NoCut(a) && NoCut(b) {
      forall i | 0 <= i < |ls| - 1 ensures !Cut(ls[i], ls[i + 1]) {
        if i + 1 < |a| {
          assert !Cut(a[i], a[i + 1]);
        } else if i > |a| {
          assert !Cut(b[i - |a| - 1], b[i - |a|]);
        }
      }
    }
    if NoCut(ls) {
      forall i | 0 <= i < |a| - 1 ensures !Cut(a[i], a[i + 1]) { assert !Cut(ls[i], ls[i + 1]); }
      forall i | 0 <= i < |b| - 1 ensures !Cut(b[i], b[i + 1]) {
        assert !Cut(ls[|a| + 1 + i], ls[|a| + 1 + i + 1]);
      }
    }
  }

  lemma NewLineEnds(line: string, key: string, value: string)
    requires IsLine(line) && Active(key, line) && KeyOk(key) && ValueOk(value)
    ensures var l := NewLine(line, key, value);
            && IsLine(l) && l[0] != '\n' && l[|l| - 1] != '\r' && (EndsLine(l) <==> Ending(line) != "")
  {
    var ws, a, ending := Leading(line), Assignment(key, value), Ending(line);
    LeadingText(line, key);
    AssignmentText(key, value);
    BodyLine(ws + a, ending);
    BodyEnds(ws + a, ending);
    Associate(ws, a, ending);
  }

  /** Replacing a line in a text with any line ends: the edited text reads as the edited lines exactly
      when the replaced line ends in "\n" or nothing kept follows it, and no deletion brings a "\r"
      before a "\n". */
  lemma ReplacedReadsBackExactly(text: string, key: string, value: string, f: nat)
    requires KeyOk(key) && ValueOk(value) && FirstBad(Inactive(key), SplitLines(text)) == Some(f)
    ensures f < |SplitLines(text)|
    ensures var kept := Filter(Inactive(key), SplitLines(text)[f + 1..]);
            SplitLines(Upserted(text, key, value)) == Edited(text, key, value)
            <==> (kept != [] ==> Ending(SplitLines(text)[f]) != "") && NoCut(kept)
  {
    var ls := SplitLines(text);
    FirstBadIs(Inactive(key), ls);
    SplitIsWellSplit(text);
    WellSplitIs(ls);
    NewLineEnds(ls[f], key, value);
    ReplacedWellSplit(ls, key, NewLine(ls[f], key, value), f);
    EditedTextExactly(text, key, value);
  }

  lemma ReplacedWellSplit(ls: seq<string>, key: string, now: string, f: nat)
    requires f < |ls| && Ended(IsLine, EndsLine, ls) && NoCut(ls)
    requires IsLine(now) && now[0] != '\n' && now[|now| - 1] != '\r'
    ensures var kept := Filter(Inactive(key), ls[f + 1..]);
            WellSplit(Replaced(Inactive(key), ls, f, now)) <==> (kept != [] ==> EndsLine(now)) && NoCut(kept)
  {
    var head, tail := ls[..f], ls[f + 1..];
    var kept := Filter(Inactive(key), tail);
    var all := Replaced(Inactive(key), ls, f, now);
    WellSplitIs(all);
    NoCutAround(head, now, kept);
    forall i | 0 <= i < |head| - 1 ensures !Cut(head[i], head[i + 1]) { assert !Cut(ls[i], ls[i + 1]); }
    forall i | 0 <= i < |tail| ensures IsLine(tail[i]) && (i < |tail| - 1 ==> EndsLine(tail[i])) {
      assert tail[i] == ls[f + 1 + i];
    }
    EndedFilter(IsLine, EndsLine, Inactive(key), tail);
    if kept != [] && !EndsLine(now) {
      assert all[f] == now && f < |all| - 1;
    } else {
      EndedParts(IsLine, EndsLine, head, now, kept);
    }
  }
}
