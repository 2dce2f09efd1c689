/**
 * The WordPiece tokenizer of the numpy embedder (kaine/text_embedding_numpy.py): the punctuation
 * splitter, the greedy longest-match loop and the truncation of `encode`.
 */
module WordPiece {
  import opened Wrappers
  import opened Sequences

  // ------------------------------------------------------------------ punctuation

  /** ASCII punctuation, and the characters of a Unicode punctuation category (`category`). */
  predicate Punctuation(category: char -> bool, c: char) {
    || '!' <= c <= '/' || ':' <= c <= '@' || '[' <= c <= '`' || '{' <= c <= '~'
    || category(c)
  }

  predicate IsAlphanumeric(c: char) { '0' <= c <= '9' || 'A' <= c <= 'Z' || 'a' <= c <= 'z' }

  /** In ASCII, punctuation is all that prints and is neither a blank nor a letter or digit; elsewhere the
      category decides. */
  lemma PunctuationExactly(category: char -> bool, c: char)
    ensures !category(c) ==> (Punctuation(category, c) <==> ' ' < c <= '~' && !IsAlphanumeric(c))
    ensures category(c) ==> Punctuation(category, c)
  {}

  predicate PunctuationFree(category: char -> bool, w: string) {
    forall i | 0 <= i < |w| :: !Punctuation(category, w[i])
  }

  predicate Lone(category: char -> bool, w: string) { |w| == 1 && Punctuation(category, w[0]) }

  predicate Word(category: char -> bool, w: string) {
    Lone(category, w) || (w != "" && PunctuationFree(category, w))
  }

  function Concat(ws: seq<string>): string {
    if ws == [] then "" else ws[0] + Concat(ws[1..])
  }

  /** The words of `text`: lone punctuation and the longest runs between it. */
  predicate IsSplit(category: char -> bool, text: string, ws: seq<string>) {
    && Concat(ws) == text
    && (forall i | 0 <= i < |ws| :: Word(category, ws[i]))
    && (forall i | 0 <= i < |ws| - 1 :: Lone(category, ws[i]) || Lone(category, ws[i + 1]))
  }

  lemma {:induction false} ConcatSnoc(ws: seq<string>, w: string)
    ensures Concat(ws + [w]) == Concat(ws) + w
  {
    if ws == [] {
      assert Concat([w]) == w + Concat([w][1..]);
    } else {
      assert (ws + [w])[1..] == ws[1..] + [w];
      ConcatSnoc(ws[1..], w);
    }
  }

  lemma NoWordsNoText(category: char -> bool, ws: seq<string>)
    requires forall i | 0 <= i < |ws| :: Word(category, ws[i])
    ensures Concat(ws) == "" <==> ws == []
  {
    if ws != [] { assert Word(category, ws[0]); }
  }

  /** How far the first word reaches. */
  lemma FirstWord(category: char -> bool, text: string, ws: seq<string>)
    requires IsSplit(category, text, ws) && text != ""
    ensures ws != [] && ws[0] <= text && Concat(ws[1..]) == text[|ws[0]|..]
    ensures Lone(category, ws[0]) <==> Punctuation(category, text[0])
    ensures !Lone(category, ws[0]) && |ws[0]| < |text| ==> Punctuation(category, text[|ws[0]|])
    ensures !Lone(category, ws[0]) ==> forall j | 0 <= j < |ws[0]| :: !Punctuation(category, text[j])
    ensures IsSplit(category, text[|ws[0]|..], ws[1..])
  {
    assert text[0] == ws[0][0];
    if |ws| > 1 {
      assert Concat(ws[1..]) == ws[1] + Concat(ws[1..][1..]);
      assert text[|ws[0]|] == ws[1][0];
    }
  }

  /** There is one way to split a text. */
  lemma {:induction false} SplitUnique(category: char -> bool, text: string, a: seq<string>, b: seq<string>)
    requires IsSplit(category, text, a) && IsSplit(category, text, b)
    ensures a == b
    decreases |a|
  {
    if text == "" {
      NoWordsNoText(category, a);
      NoWordsNoText(category, b);
    } else {
      FirstWord(category, text, a);
      FirstWord(category, text, b);
      assert |a[0]| == |b[0]|;
      SplitUnique(category, text[|a[0]|..], a[1..], b[1..]);
      assert a == [a[0]] + a[1..] && b == [b[0]] + b[1..];
    }
  }

  /** A new word at the end. */
  lemma SplitSnoc(category: char -> bool, text: string, ws: seq<string>, w: string)
    requires IsSplit(category, text, ws) && Word(category, w)
    requires ws != [] && !Lone(category, w) ==> Lone(category, ws[|ws| - 1])
    ensures IsSplit(category, text + w, ws + [w])
  {
    ConcatSnoc(ws, w);
  }

  lemma ConcatExtend(ws: seq<string>, w: string, c: char)
    ensures Concat(ws + [w + [c]]) == Concat(ws + [w]) + [c]
  {
    ConcatSnoc(ws, w);
    ConcatSnoc(ws, w + [c]);
    assert (Concat(ws) + w) + [c] == Concat(ws) + (w + [c]);
  }

  lemma SplitExtend(category: char -> bool, text: string, ws: seq<string>, w: string, c: char)
    requires IsSplit(category, text, ws + [w]) && !Lone(category, w) && !Punctuation(category, c)
    ensures IsSplit(category, text + [c], ws + [w + [c]])
  {
    var was, now := ws + [w], ws + [w + [c]];
    ConcatExtend(ws, w, c);
    assert was[|ws|] == w && forall i | 0 <= i < |ws| :: was[i] == now[i] == ws[i];
    assert Word(category, was[|ws|]) && PunctuationFree(category, w + [c]);
    if ws != [] { assert Lone(category, was[|ws| - 1]); }
  }

  /** The source's loop; a word is open until punctuation comes. */
  method SplitOnPunc(category: char -> bool, text: string) returns (output: seq<string>)
    ensures IsSplit(category, text, output)
  {
    var startNewWord := true;
    output := [];
    for i := 0 to |text|
      invariant IsSplit(category, text[..i], output)
      invariant startNewWord <==> output == [] || Lone(category, output[|output| - 1])
    {
      var c := text[i];
      assert text[..i + 1] == text[..i] + [c];
      if Punctuation(category, c) {
        SplitSnoc(category, text[..i], output, [c]);
        output := output + [[c]];
        startNewWord := true;
      } else {
        if startNewWord {
          SplitSnoc(category, text[..i], output, [c]);
          output := output + [[c]];
        } else {
          assert output == output[..|output| - 1] + [output[|output| - 1]];
          SplitExtend(category, text[..i], output[..|output| - 1], output[|output| - 1], c);
          output := output[..|output| - 1] + [output[|output| - 1] + [c]];
        }
        startNewWord := false;
      }
    }
    assert text[..|text|] == text;
  }

  // ------------------------------------------------------------------ continuation marks

  const Mark := "##"

  predicate MarkAt(s: string, i: int) { 0 <= i < |s| - 1 && s[i] == '#' && s[i + 1] == '#' }

  ghost predicate HasMarks(s: string) { exists i :: MarkAt(s, i) }

  /** `s.replace("##", "")`, from left to right. */
  function RemoveMarks(s: string): string {
    if s == "" then ""
    else if MarkAt(s, 0) then RemoveMarks(s[2..])
    else [s[0]] + RemoveMarks(s[1..])
  }

  lemma {:induction false} NothingToRemove(s: string)
    requires !HasMarks(s)
    ensures RemoveMarks(s) == s
  {
    if s != "" {
      assert !MarkAt(s, 0);
      forall i ensures !MarkAt(s[1..], i) { assert MarkAt(s[1..], i) ==> MarkAt(s, i + 1); }
      NothingToRemove(s[1..]);
    }
  }

  lemma NoMarksBelow(s: string, i: nat, j: nat)
    requires !HasMarks(s) && i <= j <= |s|
    ensures !HasMarks(s[i..j])
  {
    forall k ensures !MarkAt(s[i..j], k) { assert MarkAt(s[i..j], k) ==> MarkAt(s, i + k); }
  }

  /** No word of a split has a mark: '#' is punctuation and stands alone. */
  lemma WordHasNoMarks(category: char -> bool, w: string)
    requires Word(category, w)
    ensures !HasMarks(w)
  {
    assert forall i | MarkAt(w, i) :: Punctuation(category, w[i]);
  }

  // ------------------------------------------------------------------ greedy matching

  function Piece(text: string, start: nat, end: nat): string
    requires start <= end <= |text|
  { if start > 0 then Mark + text[start..end] else text[start..end] }

  predicate LongestMatch(vocab: set<string>, text: string, start: nat, end: nat) {
    && start < end <= |text| && Piece(text, start, end) in vocab
    && forall e | end < e <= |text| :: Piece(text, start, e) !in vocab
  }

  predicate NoMatch(vocab: set<string>, text: string, start: nat) {
    forall e | start < e <= |text| :: Piece(text, start, e) !in vocab
  }

  /** `pieces` covers the text from `start` on by longest matches. */
  ghost predicate Greedy(vocab: set<string>, text: string, start: nat, pieces: seq<string>)
    decreases |pieces|
  {
    if pieces == [] then start == |text|
    else exists end :: LongestMatch(vocab, text, start, end) && pieces[0] == Piece(text, start, end)
                       && Greedy(vocab, text, end, pieces[1..])
  }

  /** Longest matches from `start` on come to a place where nothing matches. */
  ghost predicate Stuck(vocab: set<string>, text: string, start: nat, pieces: seq<string>)
    decreases |pieces|
  {
    if pieces == [] then start < |text| && NoMatch(vocab, text, start)
    else exists end :: LongestMatch(vocab, text, start, end) && pieces[0] == Piece(text, start, end)
                       && Stuck(vocab, text, end, pieces[1..])
  }

  lemma OneLongestMatch(vocab: set<string>, text: string, start: nat, d: nat, e: nat)
    requires LongestMatch(vocab, text, start, d) && LongestMatch(vocab, text, start, e)
    ensures d == e
  {}

  /** There is one greedy segmentation, and none of a text that gets stuck. */
  lemma {:induction false} GreedyUnique(vocab: set<string>, text: string, start: nat, a: seq<string>, b: seq<string>)
    requires Greedy(vocab, text, start, a)
    ensures Greedy(vocab, text, start, b) ==> a == b
    ensures !Stuck(vocab, text, start, b)
    decreases |a|
  {
    if a == [] {
    } else {
      var d := GreedyStep(vocab, text, start, a);
      if b != [] {
        GreedyUnique(vocab, text, d, a[1..], b[1..]);
        forall e | LongestMatch(vocab, text, start, e) ensures e == d { OneLongestMatch(vocab, text, start, d, e); }
        assert a == [a[0]] + a[1..] && b == [b[0]] + b[1..];
      }
    }
  }

  /** The first piece of a segmentation and the rest. */
  lemma GreedyStep(vocab: set<string>, text: string, start: nat, pieces: seq<string>) returns (end: nat)
    requires Greedy(vocab, text, start, pieces) && pieces != []
    ensures LongestMatch(vocab, text, start, end) && pieces[0] == Piece(text, start, end)
    ensures Greedy(vocab, text, end, pieces[1..])
  {
    end :| LongestMatch(vocab, text, start, end) && pieces[0] == Piece(text, start, end)
           && Greedy(vocab, text, end, pieces[1..]);
  }

  lemma GreedyCons(vocab: set<string>, text: string, start: nat, end: nat, pieces: seq<string>, rest: seq<string>)
    requires LongestMatch(vocab, text, start, end) && pieces != [] && pieces[0] == Piece(text, start, end)
    requires pieces[1..] == rest
    ensures Greedy(vocab, text, end, rest) ==> Greedy(vocab, text, start, pieces)
    ensures Stuck(vocab, text, end, rest) ==> Stuck(vocab, text, start, pieces)
  {}

  /** A piece of a text without marks is its stretch of the text, once its own mark is removed. */
  lemma PieceText(text: string, start: nat, end: nat)
    requires !HasMarks(text) && start <= end <= |text|
    ensures RemoveMarks(Piece(text, start, end)) == text[start..end]
  {
    NoMarksBelow(text, start, end);
    NothingToRemove(text[start..end]);
    if start > 0 { assert MarkAt(Mark + text[start..end], 0) && (Mark + text[start..end])[2..] == text[start..end]; }
  }

  function Unmarked(pieces: seq<string>): string {
    if pieces == [] then "" else RemoveMarks(pieces[0]) + Unmarked(pieces[1..])
  }

  /** A greedy segmentation spells the text. */
  lemma {:induction false} GreedySpells(vocab: set<string>, text: string, start: nat, pieces: seq<string>)
    requires !HasMarks(text) && Greedy(vocab, text, start, pieces)
    ensures start <= |text| && Unmarked(pieces) == text[start..]
    decreases |pieces|
  {
    if pieces != [] {
      var end := GreedyStep(vocab, text, start, pieces);
      PieceText(text, start, end);
      GreedySpells(vocab, text, end, pieces[1..]);
      assert text[start..] == text[start..end] + text[end..];
    }
  }

  /** The same, for pieces put before others. */
  lemma ConsSnoc(vocab: set<string>, text: string, start: nat, end: nat, pieces: seq<string>, rest: seq<string>)
    requires LongestMatch(vocab, text, start, end) && pieces != [] && pieces[0] == Piece(text, start, end)
    ensures Greedy(vocab, text, end, pieces[1..] + rest) ==> Greedy(vocab, text, start, pieces + rest)
    ensures Stuck(vocab, text, end, pieces[1..] + rest) ==> Stuck(vocab, text, start, pieces + rest)
  {
    assert (pieces + rest)[1..] == pieces[1..] + rest;
    GreedyCons(vocab, text, start, end, pieces + rest, pieces[1..] + rest);
  }

  lemma {:induction false} GreedySnoc(
      vocab: set<string>, text: string, start: nat, pieces: seq<string>, at: nat, rest: seq<string>)
    requires Chain(vocab, text, start, pieces) == Some(at) && Greedy(vocab, text, at, rest)
    ensures Greedy(vocab, text, start, pieces + rest)
    decreases |pieces|
  {
    if pieces == [] {
      assert pieces + rest == rest;
    } else {
      var end := ChainStep(vocab, text, start, pieces);
      GreedySnoc(vocab, text, end, pieces[1..], at, rest);
      ConsSnoc(vocab, text, start, end, pieces, rest);
    }
  }

  lemma {:induction false} StuckSnoc(
      vocab: set<string>, text: string, start: nat, pieces: seq<string>, at: nat, rest: seq<string>)
    requires Chain(vocab, text, start, pieces) == Some(at) && Stuck(vocab, text, at, rest)
    ensures Stuck(vocab, text, start, pieces + rest)
    decreases |pieces|
  {
    if pieces == [] {
      assert pieces + rest == rest;
    } else {
      var end := ChainStep(vocab, text, start, pieces);
      StuckSnoc(vocab, text, end, pieces[1..], at, rest);
      ConsSnoc(vocab, text, start, end, pieces, rest);
    }
  }

  /** Where the longest matches `pieces` from `start` on lead. */
  ghost function Chain(vocab: set<string>, text: string, start: nat, pieces: seq<string>): Option<nat>
    decreases |pieces|
  {
    if pieces == [] then Some(start)
    else if exists end :: LongestMatch(vocab, text, start, end) && pieces[0] == Piece(text, start, end) then
      var end :| LongestMatch(vocab, text, start, end) && pieces[0] == Piece(text, start, end);
      Chain(vocab, text, end, pieces[1..])
    else None
  }

  lemma ChainStep(vocab: set<string>, text: string, start: nat, pieces: seq<string>) returns (end: nat)
    requires pieces != [] && Chain(vocab, text, start, pieces).Some?
    ensures LongestMatch(vocab, text, start, end) && pieces[0] == Piece(text, start, end)
    ensures Chain(vocab, text, end, pieces[1..]) == Chain(vocab, text, start, pieces)
  {
    end :| LongestMatch(vocab, text, start, end) && pieces[0] == Piece(text, start, end);
    forall e | LongestMatch(vocab, text, start, e) ensures e == end { OneLongestMatch(vocab, text, start, end, e); }
  }

  lemma {:induction false} ChainSnoc(vocab: set<string>, text: string, start: nat, pieces: seq<string>, at: nat, end: nat)
    requires Chain(vocab, text, start, pieces) == Some(at) && LongestMatch(vocab, text, at, end)
    ensures Chain(vocab, text, start, pieces + [Piece(text, at, end)]) == Some(end)
    decreases |pieces|
  {
    var all := pieces + [Piece(text, at, end)];
    if pieces == [] {
      assert all[1..] == [];
      forall e | LongestMatch(vocab, text, start, e) ensures e == end { OneLongestMatch(vocab, text, start, end, e); }
    } else {
      var mid := ChainStep(vocab, text, start, pieces);
      ChainSnoc(vocab, text, mid, pieces[1..], at, end);
      assert all[0] == pieces[0] && all[1..] == pieces[1..] + [Piece(text, at, end)];
      forall e | LongestMatch(vocab, text, start, e) ensures e == mid { OneLongestMatch(vocab, text, start, mid, e); }
    }
  }

  /** The inner loop: `end` comes down from the end of the text. */
  method FindLongest(vocab: set<string>, text: string, start: nat) returns (found: Option<nat>)
    requires start < |text|
    ensures found.Some? ==> LongestMatch(vocab, text, start, found.value)
    ensures found.None? ==> NoMatch(vocab, text, start)
  {
    var end := |text|;
    while start < end
      invariant start <= end <= |text|
      invariant forall e | end < e <= |text| :: Piece(text, start, e) !in vocab
    {
      if Piece(text, start, end) in vocab {
        return Some(end);
      }
      end := end - 1;
    }
    found := None;
  }

  /** Longer words, and words that get stuck, are unknown; all others are segmented greedily. */
  ghost predicate Pieces(vocab: set<string>, unk: string, text: string, pieces: seq<string>) {
    if |text| > 100 || exists ps :: Stuck(vocab, text, 0, ps) then pieces == [unk]
    else Greedy(vocab, text, 0, pieces)
  }

  lemma StuckPieces(vocab: set<string>, unk: string, text: string, pieces: seq<string>, start: nat)
    requires Chain(vocab, text, 0, pieces) == Some(start) && start < |text| && NoMatch(vocab, text, start)
    ensures Pieces(vocab, unk, text, [unk])
  {
    assert Stuck(vocab, text, start, []);
    StuckSnoc(vocab, text, 0, pieces, start, []);
  }

  lemma GreedyPieces(vocab: set<string>, unk: string, text: string, pieces: seq<string>)
    requires |text| <= 100 && Chain(vocab, text, 0, pieces) == Some(|text|)
    ensures Pieces(vocab, unk, text, pieces)
  {
    assert Greedy(vocab, text, |text|, []) && pieces + [] == pieces;
    GreedySnoc(vocab, text, 0, pieces, |text|, []);
    forall ps ensures !Stuck(vocab, text, 0, ps) { GreedyUnique(vocab, text, 0, pieces, ps); }
  }

  /** One turn of the outer loop: the piece is appended and `start` moves past its match. */
  lemma NextPiece(vocab: set<string>, text: string, pieces: seq<string>, start: nat, end: nat)
    requires !HasMarks(text) && Chain(vocab, text, 0, pieces) == Some(start) && LongestMatch(vocab, text, start, end)
    ensures Chain(vocab, text, 0, pieces + [Piece(text, start, end)]) == Some(end)
    ensures start + |RemoveMarks(Piece(text, start, end))| == end
  {
    ChainSnoc(vocab, text, 0, pieces, start, end);
    PieceText(text, start, end);
  }

  /** The outer loop.  It advances by the length of the piece without its marks; on a text without
      marks this is the length of the match, so the loop ends. */
  method WordPieceTokenize(vocab: set<string>, unk: string, text: string) returns (output: seq<string>)
    requires |text| > 100 || !HasMarks(text)
    ensures Pieces(vocab, unk, text, output)
  {
    if |text| > 100 {
      return [unk];
    }
    output := [];
    var start := 0;
    while start < |text|
      invariant start <= |text| && Chain(vocab, text, 0, output) == Some(start)
    {
      var found := FindLongest(vocab, text, start);
      if found.None? {
        StuckPieces(vocab, unk, text, output, start);
        return [unk];
      }
      var piece := Piece(text, start, found.value);
      NextPiece(vocab, text, output, start, found.value);
      output := output + [piece];
      start := start + |RemoveMarks(piece)|;
    }
    GreedyPieces(vocab, unk, text, output);
  }

  /** What a word becomes: unknown, or pieces of the vocabulary that spell it. */
  lemma PiecesSpellTheWord(vocab: set<string>, unk: string, text: string, pieces: seq<string>)
    requires !HasMarks(text) && Pieces(vocab, unk, text, pieces)
    ensures pieces == [unk] || (Unmarked(pieces) == text && forall i | 0 <= i < |pieces| :: pieces[i] in vocab)
  {
    if Greedy(vocab, text, 0, pieces) {
      GreedySpells(vocab, text, 0, pieces);
      GreedyInVocab(vocab, text, 0, pieces);
    }
  }

  lemma {:induction false} GreedyInVocab(vocab: set<string>, text: string, start: nat, pieces: seq<string>)
    requires Greedy(vocab, text, start, pieces)
    ensures forall i | 0 <= i < |pieces| :: pieces[i] in vocab
    decreases |pieces|
  {
    if pieces != [] {
      var end := GreedyStep(vocab, text, start, pieces);
      GreedyInVocab(vocab, text, end, pieces[1..]);
    }
  }

  lemma PiecesUnique(vocab: set<string>, unk: string, text: string, a: seq<string>, b: seq<string>)
    requires Pieces(vocab, unk, text, a) && Pieces(vocab, unk, text, b)
    ensures a == b
  {
    if Greedy(vocab, text, 0, a) { GreedyUnique(vocab, text, 0, a, b); }
  }

  // ------------------------------------------------------------------ when the loop ends

  /** `start` after `k` turns of the outer loop; None when it has returned. */
  ghost function After(vocab: set<string>, text: string, k: nat): Option<nat> {
    if k == 0 then Some(0)
    else
      match After(vocab, text, k - 1)
      case None => None
      case Some(start) =>
        if start < |text| && exists end :: LongestMatch(vocab, text, start, end) then
          var end :| LongestMatch(vocab, text, start, end);
          Some(start + |RemoveMarks(Piece(text, start, end))|)
        else None
  }

  ghost predicate Ends(vocab: set<string>, text: string) { exists k :: After(vocab, text, k) == None }

  lemma Turn(vocab: set<string>, text: string, k: nat, start: nat, end: nat)
    requires After(vocab, text, k) == Some(start) && start < |text| && LongestMatch(vocab, text, start, end)
    ensures After(vocab, text, k + 1) == Some(start + |RemoveMarks(Piece(text, start, end))|)
  {
    forall e | LongestMatch(vocab, text, start, e) ensures e == end { OneLongestMatch(vocab, text, start, end, e); }
  }

  lemma {:induction false} Advances(vocab: set<string>, text: string, k: nat)
    requires !HasMarks(text)
    ensures var s := After(vocab, text, k); s.Some? ==> k <= s.value <= |text|
  {
    if k > 0 && After(vocab, text, k).Some? {
      Advances(vocab, text, k - 1);
      var start := After(vocab, text, k - 1).value;
      var end :| LongestMatch(vocab, text, start, end);
      Turn(vocab, text, k - 1, start, end);
      PieceText(text, start, end);
    }
  }

  lemma {:induction false} FirstMark(text: string, j: nat) returns (i: nat)
    requires MarkAt(text, j)
    ensures MarkAt(text, i) && i <= j && forall k | 0 <= k < i :: !MarkAt(text, k)
  {
    if exists k :: 0 <= k < j && MarkAt(text, k) {
      var k :| 0 <= k < j && MarkAt(text, k);
      i := FirstMark(text, k);
    } else {
      i := j;
    }
  }

  /** A vocabulary that leads to the first mark and matches just the mark there. */
  function Trap(text: string, i: nat): set<string>
    requires i <= |text|
  { if i == 0 then {Mark} else {text[..i], Mark + Mark} }

  lemma TrapAtMark(text: string, i: nat)
    requires MarkAt(text, i) && forall k | 0 <= k < i :: !MarkAt(text, k)
    ensures LongestMatch(Trap(text, i), text, i, i + 2)
    ensures RemoveMarks(Piece(text, i, i + 2)) == ""
  {
    assert text[i..i + 2] == Mark;
    assert Piece(text, i, i + 2) == if i > 0 then Mark + Mark else Mark;
    forall e | i + 2 < e <= |text| ensures Piece(text, i, e) !in Trap(text, i) {
      var p := Piece(text, i, e);
      assert |p| > |Piece(text, i, i + 2)|;
      if i > 0 {
        assert MarkAt(p, 0);
        assert p == text[..i] ==> MarkAt(text, 0);
      }
    }
    assert Mark[2..] == "" && (Mark + Mark)[2..] == Mark;
    assert MarkAt(Mark, 0) && MarkAt(Mark + Mark, 0);
  }

  lemma TrapLeads(text: string, i: nat)
    requires MarkAt(text, i) && i > 0 && forall k | 0 <= k < i :: !MarkAt(text, k)
    ensures LongestMatch(Trap(text, i), text, 0, i) && RemoveMarks(Piece(text, 0, i)) == text[..i]
  {
    forall e | i < e <= |text| ensures Piece(text, 0, e) !in Trap(text, i) {
      var p := Piece(text, 0, e);
      assert p[0] == text[0] && |p| != i;
      assert p == Mark + Mark ==> p[1] == text[1] && MarkAt(text, 0);
    }
    assert text[0..i] == text[..i];
    forall k ensures !MarkAt(text[..i], k) { assert MarkAt(text[..i], k) ==> MarkAt(text, k); }
    NothingToRemove(text[..i]);
  }

  lemma TrapEntered(text: string, i: nat)
    requires MarkAt(text, i) && forall j | 0 <= j < i :: !MarkAt(text, j)
    ensures After(Trap(text, i), text, 1) == Some(i)
  {
    if i > 0 {
      TrapLeads(text, i);
      Turn(Trap(text, i), text, 0, 0, i);
    } else {
      TrapAtMark(text, i);
      Turn(Trap(text, i), text, 0, 0, 2);
    }
  }

  /** A piece that is all marker leaves `start` where it is. */
  lemma Stays(vocab: set<string>, text: string, i: nat, end: nat, k: nat)
    requires After(vocab, text, k) == Some(i) && i < |text| && LongestMatch(vocab, text, i, end)
    requires RemoveMarks(Piece(text, i, end)) == ""
    ensures After(vocab, text, k + 1) == Some(i)
  {
    Turn(vocab, text, k, i, end);
    assert i + |RemoveMarks(Piece(text, i, end))| == i;
  }

  ghost predicate StaysAt(vocab: set<string>, text: string, i: nat) {
    forall k: nat :: After(vocab, text, k) == Some(i) ==> After(vocab, text, k + 1) == Some(i)
  }

  lemma TrapStays(text: string, i: nat)
    requires MarkAt(text, i) && forall j | 0 <= j < i :: !MarkAt(text, j)
    ensures StaysAt(Trap(text, i), text, i)
  {
    TrapAtMark(text, i);
    forall k: nat | After(Trap(text, i), text, k) == Some(i) ensures After(Trap(text, i), text, k + 1) == Some(i) {
      Stays(Trap(text, i), text, i, i + 2, k);
    }
  }

  lemma {:induction false} Trapped(vocab: set<string>, text: string, i: nat, k: nat)
    requires k >= 1 && After(vocab, text, 1) == Some(i) && StaysAt(vocab, text, i)
    ensures After(vocab, text, k) == Some(i)
  {
    if k > 1 {
      Trapped(vocab, text, i, k - 1);
      assert After(vocab, text, (k - 1) + 1) == Some(i);
    }
  }

  /** The loop ends on a text, whatever the vocabulary, exactly when the text has no "##". */
  lemma EndsExactlyWithoutMarks(text: string)
    ensures (forall vocab :: Ends(vocab, text)) <==> !HasMarks(text)
  {
    if HasMarks(text) {
      var j :| MarkAt(text, j);
      var i := FirstMark(text, j);
      var vocab := Trap(text, i);
      TrapEntered(text, i);
      TrapStays(text, i);
      forall k: nat ensures After(vocab, text, k) != None {
        if k > 0 { Trapped(vocab, text, i, k); }
      }
      assert !Ends(vocab, text);
    } else {
      forall vocab ensures Ends(vocab, text) {
        Advances(vocab, text, |text| + 1);
        assert After(vocab, text, |text| + 1) == None;
      }
    }
  }

  /** Every word the splitter emits is one the loop ends on. */
  lemma SplitWordsEnd(category: char -> bool, vocab: set<string>, text: string, ws: seq<string>, i: nat)
    requires IsSplit(category, text, ws) && i < |ws|
    ensures Ends(vocab, ws[i])
  {
    assert Word(category, ws[i]);
    WordHasNoMarks(category, ws[i]);
    EndsExactlyWithoutMarks(ws[i]);
  }

  // ------------------------------------------------------------------ tokenize and encode

  /** `basic` gives the whitespace-separated tokens of a segment, cleaned, lower-cased and stripped
      of accents. */
  datatype Tokenizer = Tokenizer(
    vocab: map<string, int>,
    unk: string, unkId: int, clsId: int, sepId: int,
    special: set<string>,
    category: char -> bool,
    basic: string -> seq<string>,
    maxLength: int)

  ghost predicate Splits(t: Tokenizer, tokens: seq<string>, parts: seq<seq<string>>) {
    |parts| == |tokens| && forall i | 0 <= i < |parts| :: IsSplit(t.category, tokens[i], parts[i])
  }

  /** The words of a segment: its tokens, each split on punctuation. */
  ghost predicate WordsOf(t: Tokenizer, segment: string, words: seq<string>) {
    exists parts :: Splits(t, t.basic(segment), parts) && words == Flat(parts)
  }

  ghost predicate PiecesOfEach(t: Tokenizer, words: seq<string>, groups: seq<seq<string>>) {
    |groups| == |words| && forall i | 0 <= i < |words| :: Pieces(t.vocab.Keys, t.unk, words[i], groups[i])
  }

  /** The tokens of a segment: a special token itself, or the pieces of its words. */
  ghost predicate SegmentTokens(t: Tokenizer, segment: string, pieces: seq<string>) {
    if segment in t.special then pieces == [segment]
    else exists words, groups :: WordsOf(t, segment, words) && PiecesOfEach(t, words, groups) && pieces == Flat(groups)
  }

  ghost predicate TokensOfEach(t: Tokenizer, segments: seq<string>, parts: seq<seq<string>>) {
    |parts| == |segments| && forall i | 0 <= i < |segments| :: SegmentTokens(t, segments[i], parts[i])
  }

  ghost predicate Tokens(t: Tokenizer, segments: seq<string>, pieces: seq<string>) {
    exists parts :: TokensOfEach(t, segments, parts) && pieces == Flat(parts)
  }

  method BasicTokenize(t: Tokenizer, segment: string) returns (words: seq<string>)
    ensures WordsOf(t, segment, words)
    ensures forall i | 0 <= i < |words| :: Word(t.category, words[i])
  {
    var tokens := t.basic(segment);
    words := [];
    ghost var parts := [];
    for i := 0 to |tokens|
      invariant Splits(t, tokens[..i], parts) && words == Flat(parts)
      invariant forall j | 0 <= j < |words| :: Word(t.category, words[j])
    {
      var split := SplitOnPunc(t.category, tokens[i]);
      FlatSnoc(parts, split);
      assert (parts + [split])[..i] == parts;
      words, parts := words + split, parts + [split];
    }
    assert tokens[..|tokens|] == tokens;
  }

  /** A segment that is not special is split into words, and each word is segmented. */
  method TokenizeSegment(t: Tokenizer, segment: string) returns (pieces: seq<string>)
    requires segment !in t.special
    ensures SegmentTokens(t, segment, pieces)
  {
    var words := BasicTokenize(t, segment);
    pieces := [];
    ghost var groups := [];
    for i := 0 to |words|
      invariant PiecesOfEach(t, words[..i], groups) && pieces == Flat(groups)
    {
      WordHasNoMarks(t.category, words[i]);
      var more := WordPieceTokenize(t.vocab.Keys, t.unk, words[i]);
      FlatSnoc(groups, more);
      assert (groups + [more])[..i] == groups;
      pieces, groups := pieces + more, groups + [more];
    }
    assert words[..|words|] == words;
  }

  /** The text arrives cut at the literal special tokens, which stay whole. */
  method Tokenize(t: Tokenizer, segments: seq<string>) returns (pieces: seq<string>)
    ensures Tokens(t, segments, pieces)
  {
    pieces := [];
    ghost var parts := [];
    for i := 0 to |segments|
      invariant TokensOfEach(t, segments[..i], parts) && pieces == Flat(parts)
    {
      var more := [segments[i]];
      if segments[i] !in t.special {
        more := TokenizeSegment(t, segments[i]);
      }
      FlatSnoc(parts, more);
      assert (parts + [more])[..i] == parts;
      pieces, parts := pieces + more, parts + [more];
    }
    assert segments[..|segments|] == segments;
  }

  lemma WordsUnique(t: Tokenizer, segment: string, a: seq<string>, b: seq<string>)
    requires WordsOf(t, segment, a) && WordsOf(t, segment, b)
    ensures a == b
  {
    var tokens := t.basic(segment);
    var x :| Splits(t, tokens, x) && a == Flat(x);
    var y :| Splits(t, tokens, y) && b == Flat(y);
    forall i | 0 <= i < |tokens| ensures x[i] == y[i] { SplitUnique(t.category, tokens[i], x[i], y[i]); }
    assert x == y;
  }

  lemma SegmentUnique(t: Tokenizer, segment: string, a: seq<string>, b: seq<string>)
    requires SegmentTokens(t, segment, a) && SegmentTokens(t, segment, b)
    ensures a == b
  {
    if segment !in t.special {
      var u, x :| WordsOf(t, segment, u) && PiecesOfEach(t, u, x) && a == Flat(x);
      var v, y :| WordsOf(t, segment, v) && PiecesOfEach(t, v, y) && b == Flat(y);
      WordsUnique(t, segment, u, v);
      forall i | 0 <= i < |u| ensures x[i] == y[i] { PiecesUnique(t.vocab.Keys, t.unk, u[i], x[i], y[i]); }
      assert x == y;
    }
  }

  /** The tokens of a text are determined by what its words and pieces must be. */
  lemma TokensUnique(t: Tokenizer, segments: seq<string>, a: seq<string>, b: seq<string>)
    requires Tokens(t, segments, a) && Tokens(t, segments, b)
    ensures a == b
  {
    var x :| TokensOfEach(t, segments, x) && a == Flat(x);
    var y :| TokensOfEach(t, segments, y) && b == Flat(y);
    forall i | 0 <= i < |segments| ensures x[i] == y[i] { SegmentUnique(t, segments[i], x[i], y[i]); }
    assert x == y;
  }

  function Id(t: Tokenizer, piece: string): int { if piece in t.vocab then t.vocab[piece] else t.unkId }

  function Ids(t: Tokenizer, pieces: seq<string>): seq<int> {
    seq(|pieces|, i requires 0 <= i < |pieces| => Id(t, pieces[i]))
  }

  function Encode(t: Tokenizer, pieces: seq<string>): seq<int> {
    var kept := if |pieces| > t.maxLength - 2 then Front(pieces, t.maxLength - 2) else pieces;
    [t.clsId] + Ids(t, kept) + [t.sepId]
  }

  /** How many pieces are kept: all when they fit; else as many as leave room for two markers, and with a
      limit that leaves none, all but the last ones. */
  ghost function Kept(n: nat, maxLength: int): nat {
    if n + 2 <= maxLength then n
    else if maxLength >= 2 then maxLength - 2
    else if n + maxLength >= 2 then n + maxLength - 2
    else 0
  }

  ghost predicate DistinctIds(t: Tokenizer) {
    forall p, q | p in t.vocab && q in t.vocab && t.vocab[p] == t.vocab[q] :: p == q
  }

  /** The vocabulary read backwards. */
  ghost function Inverse(t: Tokenizer): map<int, string>
    requires DistinctIds(t)
  { map p | p in t.vocab :: t.vocab[p] := p }

  /** Between its two markers the encoding says the kept pieces, one id for each, in order, a piece outside the
      vocabulary with the unknown id; with distinct ids those of the vocabulary can be read back. */
  ghost predicate EncodingSays(t: Tokenizer, pieces: seq<string>, ids: seq<int>) {
    var n := Kept(|pieces|, t.maxLength);
    && n <= |pieces| && |ids| == n + 2 && ids[0] == t.clsId && ids[n + 1] == t.sepId
    && (forall i | 0 <= i < n :: ids[i + 1] == if pieces[i] in t.vocab then t.vocab[pieces[i]] else t.unkId)
    && (DistinctIds(t) ==> forall i | 0 <= i < n && pieces[i] in t.vocab ::
          ids[i + 1] in Inverse(t) && Inverse(t)[ids[i + 1]] == pieces[i])
  }

  lemma EncodeSays(t: Tokenizer, pieces: seq<string>)
    ensures EncodingSays(t, pieces, Encode(t, pieces))
  {
    var ids := Encode(t, pieces);
    forall i | 0 <= i < Kept(|pieces|, t.maxLength) ensures ids[i + 1] == Id(t, pieces[i]) {}
  }

  method LookUp(t: Tokenizer, pieces: seq<string>) returns (ids: seq<int>)
    ensures ids == Ids(t, pieces)
  {
    ids := [];
    for i := 0 to |pieces|
      invariant ids == Ids(t, pieces[..i])
    {
      ids := ids + [if pieces[i] in t.vocab then t.vocab[pieces[i]] else t.unkId];
    }
    assert pieces[..|pieces|] == pieces;
  }

  /** The whole encoder: the pieces of the text, cut to the limit, between the markers. */
  method EncodeText(t: Tokenizer, segments: seq<string>) returns (ids: seq<int>)
    ensures exists pieces :: Tokens(t, segments, pieces) && EncodingSays(t, pieces, ids)
  {
    var tokens := Tokenize(t, segments);
    ghost var pieces := tokens;
    if |tokens| > t.maxLength - 2 {
      tokens := Front(tokens, t.maxLength - 2);
    }
    var inner := LookUp(t, tokens);
    ids := [t.clsId] + inner + [t.sepId];
    assert ids == Encode(t, pieces);
    EncodeSays(t, pieces);
  }

  /** The encoding fits the limit exactly when the limit leaves room for its two markers. */
  lemma EncodeFitsExactly(t: Tokenizer, pieces: seq<string>)
    ensures |Encode(t, pieces)| <= t.maxLength <==> t.maxLength >= 2
  {}

  /** Between its markers the encoding is the longest prefix of the pieces that fits. */
  lemma EncodeKeepsPrefix(t: Tokenizer, pieces: seq<string>)
    requires t.maxLength >= 2
    ensures var n := if |pieces| <= t.maxLength - 2 then |pieces| else t.maxLength - 2;
            Encode(t, pieces) == [t.clsId] + Ids(t, pieces[..n]) + [t.sepId]
  {
    assert pieces[..|pieces|] == pieces;
  }
}
