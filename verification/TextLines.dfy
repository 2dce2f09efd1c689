/** Python's view of a text as lines: where it breaks them, and what joining them gives. */
module TextLines {

  /** What `str.splitlines` breaks a line at. */
  predicate IsBreak(c: char) {
    '\n' <= c <= '\r' || '\U{1c}' <= c <= '\U{1e}' || c == '\U{85}' || c == '\U{2028}' || c == '\U{2029}'
  }

  /** What `str.lstrip` and `str.strip` remove. */
  predicate IsSpace(c: char) {
    || c == ' ' || c == '\t' || IsBreak(c) || c == '\U{1f}' || c == '\U{a0}' || c == '\U{1680}'
    || '\U{2000}' <= c <= '\U{200a}' || c == '\U{202f}' || c == '\U{205f}' || c == '\U{3000}'
  }

  /** The two sets by their code points. */
  lemma BlanksExactly(c: char)
    ensures IsBreak(c) <==> c as int in {10, 11, 12, 13, 28, 29, 30, 133, 8232, 8233}
    ensures IsSpace(c) <==>
              || c as int in {9, 10, 11, 12, 13, 28, 29, 30, 31, 32, 133, 160, 5760, 8232, 8233, 8239, 8287, 12288}
              || 8192 <= c as int <= 8202
  {}

  /** The length of the first line with its break; "\r\n" is one break. */
  function LineLength(s: string): (n: nat)
    ensures n <= |s| && (s != "" ==> n > 0)
  {
    if s == "" then 0
    else if s[0] == '\r' && |s| > 1 && s[1] == '\n' then 2
    else if IsBreak(s[0]) then 1
    else 1 + LineLength(s[1..])
  }

  /** `text.splitlines(keepends=True)`. */
  function SplitLines(s: string): seq<string>
    decreases |s|
  {
    if s == "" then [] else [s[..LineLength(s)]] + SplitLines(s[LineLength(s)..])
  }

  function Join(ls: seq<string>): string { if ls == [] then "" else ls[0] + Join(ls[1..]) }

  lemma {:induction false} JoinSplit(s: string)
    ensures Join(SplitLines(s)) == s
    decreases |s|
  {
    if s != "" { JoinSplit(s[LineLength(s)..]); }
  }

  lemma {:induction false} JoinAppend(a: seq<string>, b: seq<string>)
    ensures Join(a + b) == Join(a) + Join(b)
  {
    if a == [] {
      assert a + b == b;
    } else {
      assert (a + b)[1..] == a[1..] + b;
      JoinAppend(a[1..], b);
    }
  }

  lemma JoinOne(l: string)
    ensures Join([l]) == l
  {
    assert Join([l]) == l + Join([l][1..]);
  }

  predicate IsLine(l: string) { l != "" && LineLength(l) == |l| }

  predicate EndsLine(l: string) { l != "" && IsBreak(l[|l| - 1]) }

  /** Each is one line, all but the last are ended, and no break is cut in two. */
  predicate WellSplit(ls: seq<string>) {
    && (forall i | 0 <= i < |ls| :: IsLine(ls[i]))
    && (forall i | 0 <= i < |ls| - 1 :: EndsLine(ls[i]) && !(ls[i][|ls[i]| - 1] == '\r' && ls[i + 1][0] == '\n'))
  }

  /** A line is cut off where it ends. */
  lemma {:induction false} LineOf(l: string, rest: string)
    requires IsLine(l) && EndsLine(l) && !(l[|l| - 1] == '\r' && rest != "" && rest[0] == '\n')
    ensures LineLength(l + rest) == |l|
  {
    if (l[0] == '\r' && |l| > 1 && l[1] == '\n') || IsBreak(l[0]) {
      assert (l + rest)[0] == l[0];
    } else {
      LineOf(l[1..], rest);
      assert (l + rest)[1..] == l[1..] + rest;
    }
  }

  lemma {:induction false} FirstLine(s: string)
    requires s != ""
    ensures var n := LineLength(s);
            && IsLine(s[..n])
            && (n < |s| ==> EndsLine(s[..n]) && !(s[n - 1] == '\r' && s[n] == '\n'))
  {
    var n := LineLength(s);
    if !(s[0] == '\r' && |s| > 1 && s[1] == '\n') && !IsBreak(s[0]) && |s| > 1 {
      FirstLine(s[1..]);
      assert s[..n][1..] == s[1..][..n - 1];
    }
  }

  lemma {:induction false} SplitIsWellSplit(s: string)
    ensures WellSplit(SplitLines(s))
    decreases |s|
  {
    if s != "" {
      var n := LineLength(s);
      var rest := SplitLines(s[n..]);
      FirstLine(s);
      SplitIsWellSplit(s[n..]);
      var ls := SplitLines(s);
      assert forall i | 1 <= i < |ls| :: ls[i] == rest[i - 1];
      if n < |s| { FirstLine(s[n..]); }
    }
  }

  lemma SplitOff(l: string, rest: string)
    requires IsLine(l) && (rest != "" ==> EndsLine(l) && !(l[|l| - 1] == '\r' && rest[0] == '\n'))
    ensures SplitLines(l + rest) == [l] + SplitLines(rest)
  {
    var s := l + rest;
    if rest == "" { assert s == l; } else { LineOf(l, rest); }
    assert s[..|l|] == l && s[|l|..] == rest;
  }

  lemma WellSplitRest(ls: seq<string>)
    requires WellSplit(ls) && ls != []
    ensures WellSplit(ls[1..]) && IsLine(ls[0])
    ensures Join(ls[1..]) != "" ==> |ls| > 1 && Join(ls[1..])[0] == ls[1][0] && EndsLine(ls[0])
    ensures |ls| > 1 ==> !(ls[0][|ls[0]| - 1] == '\r' && ls[1][0] == '\n')
  {
    assert forall i | 0 <= i < |ls[1..]| :: ls[1..][i] == ls[i + 1];
    if |ls| > 1 { assert IsLine(ls[1]); }
  }

  lemma {:induction false} Resplit(ls: seq<string>)
    requires WellSplit(ls)
    ensures SplitLines(Join(ls)) == ls
  {
    if ls != [] {
      WellSplitRest(ls);
      Resplit(ls[1..]);
      SplitOff(ls[0], Join(ls[1..]));
    }
  }

  /** Joining lines and cutting the text again gives the same lines exactly when they are well
      split. */
  lemma ResplitExactly(ls: seq<string>)
    ensures SplitLines(Join(ls)) == ls <==> WellSplit(ls)
  {
    SplitIsWellSplit(Join(ls));
    if WellSplit(ls) { Resplit(ls); }
  }

  // ------------------------------------------------------------------ LF and CRLF

  /** Every break is "\n" or "\r\n". */
  predicate Plain(s: string) {
    if s == "" then true
    else if s[0] == '\r' then |s| > 1 && s[1] == '\n' && Plain(s[2..])
    else (IsBreak(s[0]) ==> s[0] == '\n') && Plain(s[1..])
  }

  predicate Closed(s: string) { s != "" && s[|s| - 1] == '\n' }

  predicate PlainLine(l: string) { IsLine(l) && Plain(l) }

  lemma {:induction false} PlainFirst(s: string)
    requires Plain(s) && s != ""
    ensures var n := LineLength(s); PlainLine(s[..n]) && Plain(s[n..]) && (n < |s| ==> Closed(s[..n]))
  {
    var n := LineLength(s);
    FirstLine(s);
    if s[0] == '\r' {
      assert s[..n][2..] == "";
    } else if IsBreak(s[0]) || |s| == 1 {
      assert s[..n][1..] == "";
    } else {
      PlainFirst(s[1..]);
      PlainLonger(s, n);
    }
  }

  /** One more character in front of a plain first line. */
  lemma PlainLonger(s: string, n: nat)
    requires 1 < n <= |s| && s[0] != '\r' && !IsBreak(s[0]) && IsLine(s[..n])
    requires PlainLine(s[1..][..n - 1]) && Plain(s[1..][n - 1..]) && (n < |s| ==> Closed(s[1..][..n - 1]))
    ensures PlainLine(s[..n]) && Plain(s[n..]) && (n < |s| ==> Closed(s[..n]))
  {
    assert s[..n][1..] == s[1..][..n - 1] && s[n..] == s[1..][n - 1..];
  }

  /** The lines of a plain text: plain lines, all but the last closed. */
  predicate LfLines(ls: seq<string>) {
    && (forall i | 0 <= i < |ls| :: PlainLine(ls[i]))
    && (forall i | 0 <= i < |ls| - 1 :: Closed(ls[i]))
  }

  lemma {:induction false} PlainSplit(s: string)
    requires Plain(s)
    ensures LfLines(SplitLines(s))
    decreases |s|
  {
    if s != "" {
      var n := LineLength(s);
      PlainFirst(s);
      PlainSplit(s[n..]);
      var ls, rest := SplitLines(s), SplitLines(s[n..]);
      assert forall i | 1 <= i < |ls| :: ls[i] == rest[i - 1];
    }
  }

  lemma LfResplit(ls: seq<string>)
    requires LfLines(ls)
    ensures SplitLines(Join(ls)) == ls
  {
    Resplit(ls);
  }

  lemma {:induction false} PlainAppend(a: string, b: string)
    requires Plain(a) && Plain(b)
    ensures Plain(a + b)
  {
    if a == "" {
      assert a + b == b;
    } else if a[0] == '\r' {
      PlainAppend(a[2..], b);
      assert (a + b)[2..] == a[2..] + b;
    } else {
      PlainAppend(a[1..], b);
      assert (a + b)[1..] == a[1..] + b;
    }
  }

  lemma {:induction false} LfPlain(ls: seq<string>)
    requires forall i | 0 <= i < |ls| :: PlainLine(ls[i])
    ensures Plain(Join(ls))
  {
    if ls != [] {
      LfPlain(ls[1..]);
      PlainAppend(ls[0], Join(ls[1..]));
    }
  }

  lemma LastLineClosed(text: string)
    requires text != ""
    ensures var ls := SplitLines(text); ls != [] && (Closed(ls[|ls| - 1]) <==> Closed(text))
  {
    var ls := SplitLines(text);
    JoinSplit(text);
    SplitIsWellSplit(text);
    var n := |ls| - 1;
    assert IsLine(ls[n]);
    assert ls == ls[..n] + [ls[n]];
    JoinAppend(ls[..n], [ls[n]]);
    JoinOne(ls[n]);
  }

  // ------------------------------------------------------------------ one line

  predicate NoBreaks(s: string) { forall i | 0 <= i < |s| :: !IsBreak(s[i]) }

  predicate IsEnding(e: string) { e == "" || e == "\n" || e == "\r\n" }

  function Ending(line: string): (e: string)
    ensures IsEnding(e) && |e| <= |line|
  {
    var n := |line|;
    if n >= 2 && line[n - 2] == '\r' && line[n - 1] == '\n' then "\r\n"
    else if Closed(line) then "\n"
    else ""
  }

  lemma {:induction false} BodyLength(body: string, ending: string)
    requires NoBreaks(body) && IsEnding(ending)
    ensures LineLength(body + ending) == |body| + |ending| && Plain(body + ending)
  {
    if body == "" {
      assert body + ending == ending;
    } else {
      assert (body + ending)[0] == body[0] && (body + ending)[1..] == body[1..] + ending;
      BodyLength(body[1..], ending);
    }
  }

  lemma BodyEnding(body: string, ending: string)
    requires body != "" && NoBreaks(body) && IsEnding(ending)
    ensures Ending(body + ending) == ending && (Closed(body + ending) <==> ending != "")
  {
    var l, n := body + ending, |body|;
    assert l[n - 1] == body[n - 1] && !IsBreak(body[n - 1]);
    if ending == "\n" {
      assert l[n] == '\n';
    } else if ending == "\r\n" {
      assert l[n] == '\r' && l[n + 1] == '\n';
    }
  }

  /** A line: text without breaks, and a line end. */
  lemma BodyLine(body: string, ending: string)
    requires body != "" && NoBreaks(body) && IsEnding(ending)
    ensures PlainLine(body + ending) && Ending(body + ending) == ending && (Closed(body + ending) <==> ending != "")
  {
    BodyLength(body, ending);
    BodyEnding(body, ending);
  }

  lemma BodyEnds(body: string, ending: string)
    requires body != "" && NoBreaks(body) && IsEnding(ending)
    ensures var l := body + ending; l[0] != '\n' && l[|l| - 1] != '\r' && (EndsLine(l) <==> ending != "")
  {
    var l := body + ending;
    assert l[0] == body[0] && !IsBreak(body[0]) && !IsBreak(body[|body| - 1]);
    if ending == "" { assert l == body; } else { assert l[|l| - 1] == ending[|ending| - 1] == '\n'; }
  }

  lemma {:induction false} LineBreaks(l: string, i: nat)
    requires IsLine(l) && i < |l| && IsBreak(l[i])
    ensures i + 2 >= |l|
  {
    if !(l[0] == '\r' && |l| > 1 && l[1] == '\n') && !IsBreak(l[0]) {
      LineBreaks(l[1..], i - 1);
    }
  }

  /** A plain line without a line end has no break at all. */
  lemma {:induction false} OpenLine(l: string)
    requires PlainLine(l) && !Closed(l)
    ensures NoBreaks(l)
  {
    if |l| > 1 && !IsBreak(l[0]) {
      OpenLine(l[1..]);
      assert forall i | 1 <= i < |l| :: l[i] == l[1..][i - 1];
    }
  }

  // ------------------------------------------------------------------ leading white space

  function LStrip(s: string): (r: string)
    ensures |r| <= |s| && s[|s| - |r|..] == r
    ensures forall i | 0 <= i < |s| - |r| :: IsSpace(s[i])
    ensures r != "" ==> !IsSpace(r[0])
  { if s != "" && IsSpace(s[0]) then LStrip(s[1..]) else s }

  function Leading(line: string): string { line[..|line| - |LStrip(line)|] }

  lemma {:induction false} LStripSpaces(ws: string, s: string)
    requires (forall i | 0 <= i < |ws| :: IsSpace(ws[i])) && s != "" && !IsSpace(s[0])
    ensures LStrip(ws + s) == s
  {
    if ws == "" {
      assert ws + s == s;
    } else {
      assert (ws + s)[1..] == ws[1..] + s;
      LStripSpaces(ws[1..], s);
    }
  }

  lemma {:induction false} LStripEnded(l: string)
    requires NoBreaks(l)
    ensures LStrip(l + "\n") == if LStrip(l) == "" then "" else LStrip(l) + "\n"
  {
    if l == "" {
      assert l + "\n" == "\n" && "\n"[1..] == "";
    } else if IsSpace(l[0]) {
      assert (l + "\n")[1..] == l[1..] + "\n";
      LStripEnded(l[1..]);
    }
  }

  /** The line without its line end. */
  function Content(s: string): string { s[..|s| - |Ending(s)|] }
}
