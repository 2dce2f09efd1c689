/**
 * Architecture lists of wheel builds (kaine/wheel_index.py): tokens such as "8.6+PTX", the sm_ and
 * compute_ entries printed for them, and which devices a list covers.
 */
module ArchTokens {
  import opened Wrappers

  /** A compute capability, or the version of a CUDA index. */
  datatype Pair = Pair(major: nat, minor: nat)

  predicate AtMost(a: Pair, b: Pair) { a.major < b.major || (a.major == b.major && a.minor <= b.minor) }

  // ------------------------------------------------------------------ text

  predicate IsDigit(c: char) { '0' <= c <= '9' }

  predicate AllDigits(s: string) { forall i | 0 <= i < |s| :: IsDigit(s[i]) }

  function Value(s: string): nat
    requires AllDigits(s)
  {
    if s == "" then 0 else 10 * Value(s[..|s| - 1]) + (s[|s| - 1] as int - '0' as int)
  }

  function Digit(n: nat): char
    requires n < 10
  { ('0' as int + n) as char }

  function Decimal(n: nat): string {
    if n < 10 then [Digit(n)] else Decimal(n / 10) + [Digit(n % 10)]
  }

  lemma {:induction false} DecimalValue(n: nat)
    ensures AllDigits(Decimal(n)) && Value(Decimal(n)) == n
    ensures |Decimal(n)| >= 1 && (|Decimal(n)| == 1 <==> n < 10)
    ensures n > 0 ==> Decimal(n)[0] != '0'
  {
    if n >= 10 {
      DecimalValue(n / 10);
      var s := Decimal(n / 10);
      assert (s + [Digit(n % 10)])[..|s|] == s;
    } else {
      assert [Digit(n)][..0] == "";
    }
  }

  predicate IsAsciiSpace(c: char) { c == ' ' || c == '\t' || c == '\n' || c == '\r' }

  function TrimLeft(s: string): string { if s != "" && IsAsciiSpace(s[0]) then TrimLeft(s[1..]) else s }

  function TrimRight(s: string): string {
    if s != "" && IsAsciiSpace(s[|s| - 1]) then TrimRight(s[..|s| - 1]) else s
  }

  function Trim(s: string): string { TrimRight(TrimLeft(s)) }

  function Lower(s: string): string {
    seq(|s|, i requires 0 <= i < |s| => if 'A' <= s[i] <= 'Z' then (s[i] as int + 32) as char else s[i])
  }

  function Split(s: string, sep: char): (parts: seq<string>)
    ensures parts != []
  {
    if s == "" then [""]
    else
      var rest := Split(s[1..], sep);
      if s[0] == sep then [""] + rest else [[s[0]] + rest[0]] + rest[1..]
  }

  // ------------------------------------------------------------------ tokens

  /** "87" is 8.7, "100" is 10.0 and "8.6" is 8.6. */
  function ParseSmDigits(s: string): Option<Pair> {
    if '.' in s then
      var parts := Split(s, '.');
      if |parts| != 2 || parts[0] == "" || parts[1] == "" || !AllDigits(parts[0]) || !AllDigits(parts[1]) then None
      else Some(Pair(Value(parts[0]), Value(parts[1])))
    else if |s| < 2 || !AllDigits(s) then None
    else Some(Pair(Value(s[..|s| - 1]), Value(s[|s| - 1..])))
  }

  /** The version of a "cuNNN" index. */
  function CudaVersion(name: string): Option<Pair> {
    if "cu" <= name && |name| >= 4 && AllDigits(name[2..]) then ParseSmDigits(name[2..]) else None
  }

  function SmName(v: Pair): string { "sm_" + Decimal(v.major) + Decimal(v.minor) }

  function PtxName(v: Pair): string { "compute_" + Decimal(v.major) + Decimal(v.minor) }

  /** What a token provides: machine code and intermediate code for a version. */
  datatype Token = Token(sass: Option<Pair>, ptx: Option<Pair>)
  {
    function Name(): Option<string> { if sass.Some? then Some(SmName(sass.value)) else None }
  }

  const Nothing := Token(None, None)

  predicate EndsWithPtx(s: string) { |s| >= 4 && s[|s| - 4..] == "+ptx" }

  function BaseSemantics(base: string, ptx: bool): Token {
    if "compute_" <= base then Token(None, ParseSmDigits(base[8..]))
    else
      var digits := if "sm_" <= base then base[3..] else base;
      match ParseSmDigits(digits)
      case Some(v) => Token(Some(v), if ptx then Some(v) else None)
      case None => Nothing
  }

  function Semantics(token: string): Token {
    var text := Lower(Trim(token));
    if text == "" then Nothing
    else if EndsWithPtx(text) then BaseSemantics(Trim(text[..|text| - 4]), true)
    else BaseSemantics(text, false)
  }

  function TokenEntries(token: string): seq<string> {
    var t := Semantics(token);
    (if t.sass.Some? then [SmName(t.sass.value)] else []) + (if t.ptx.Some? then [PtxName(t.ptx.value)] else [])
  }

  /** The entries of a list, each token read by `f`. */
  function EntriesBy(f: string -> seq<string>, tokens: seq<string>): seq<string> {
    if tokens == [] then [] else EntriesBy(f, tokens[..|tokens| - 1]) + f(tokens[|tokens| - 1])
  }

  function Entries(tokens: seq<string>): seq<string> { EntriesBy(TokenEntries, tokens) }

  /** The versions a list of tokens provides. */
  function Sass(tokens: seq<string>): set<Pair> {
    set t | t in tokens && Semantics(t).sass.Some? :: Semantics(t).sass.value
  }

  function Ptx(tokens: seq<string>): set<Pair> {
    set t | t in tokens && Semantics(t).ptx.Some? :: Semantics(t).ptx.value
  }

  method PrintToken(token: string) returns (entries: seq<string>)
    ensures entries == TokenEntries(token)
  {
    var t := Semantics(token);
    entries := [];
    if t.sass.Some? {
      entries := entries + [SmName(t.sass.value)];
    }
    if t.ptx.Some? {
      entries := entries + [PtxName(t.ptx.value)];
    }
  }

  /** A token reads the same trimmed, and a blank one provides nothing. */
  lemma TrimmedToken(token: string)
    ensures TokenEntries(Trim(token)) == TokenEntries(token)
    ensures Trim(token) == "" ==> TokenEntries(token) == []
  {
    TrimTwice(token);
  }

  /** The source's loop over an arch list: blank tokens are skipped. */
  method ArchListToEntries(archList: string) returns (entries: seq<string>)
    ensures entries == Entries(Split(archList, ';'))
  {
    var tokens := Split(archList, ';');
    entries := [];
    for i := 0 to |tokens|
      invariant entries == Entries(tokens[..i])
    {
      assert tokens[..i + 1][..i] == tokens[..i];
      TrimmedToken(tokens[i]);
      var token := Trim(tokens[i]);
      if token != "" {
        var printed := PrintToken(token);
        entries := entries + printed;
      }
    }
    assert tokens[..|tokens|] == tokens;
  }

  predicate Bare(s: string) { s == "" || (!IsAsciiSpace(s[0]) && !IsAsciiSpace(s[|s| - 1])) }

  lemma {:induction false} TrimRightBare(s: string)
    requires s == "" || !IsAsciiSpace(s[0])
    ensures Bare(TrimRight(s))
  {
    if s != "" && IsAsciiSpace(s[|s| - 1]) { TrimRightBare(s[..|s| - 1]); }
  }

  lemma {:induction false} TrimLeftBare(s: string)
    ensures TrimLeft(s) == "" || !IsAsciiSpace(TrimLeft(s)[0])
  {
    if s != "" && IsAsciiSpace(s[0]) { TrimLeftBare(s[1..]); }
  }

  lemma TrimTwice(s: string)
    ensures Bare(Trim(s)) && Trim(Trim(s)) == Trim(s)
  {
    TrimLeftBare(s);
    TrimRightBare(TrimLeft(s));
  }

  // ------------------------------------------------------------------ splitting

  function Join(parts: seq<string>, sep: char): string
    requires parts != []
  { if |parts| == 1 then parts[0] else parts[0] + [sep] + Join(parts[1..], sep) }

  predicate Without(s: string, sep: char) { forall i | 0 <= i < |s| :: s[i] != sep }

  lemma JoinGrow(c: char, first: string, rest: seq<string>, sep: char)
    ensures Join([[c] + first] + rest, sep) == [c] + Join([first] + rest, sep)
  {
    if rest != [] {
      assert ([[c] + first] + rest)[1..] == rest && ([first] + rest)[1..] == rest;
      assert ([c] + first) + [sep] + Join(rest, sep) == [c] + (first + [sep] + Join(rest, sep));
    }
  }

  /** The parts of a text joined again are the text ... */
  lemma {:induction false} SplitJoined(s: string, sep: char)
    ensures Join(Split(s, sep), sep) == s
  {
    if s != "" {
      var rest := Split(s[1..], sep);
      SplitJoined(s[1..], sep);
      if s[0] == sep {
        assert ([""] + rest)[1..] == rest && "" + [sep] == [sep];
      } else {
        JoinGrow(s[0], rest[0], rest[1..], sep);
        assert [rest[0]] + rest[1..] == rest;
      }
    }
  }

  /** ... and no part has a separator in it. */
  lemma {:induction false} SplitWithout(s: string, sep: char)
    ensures forall p | p in Split(s, sep) :: Without(p, sep)
  {
    if s != "" {
      var rest := Split(s[1..], sep);
      SplitWithout(s[1..], sep);
      assert rest[0] in rest;
    }
  }

  lemma {:induction false} SplitOne(s: string, sep: char)
    requires Without(s, sep)
    ensures Split(s, sep) == [s]
  {
    if s != "" {
      SplitOne(s[1..], sep);
      assert s == [s[0]] + s[1..];
    }
  }

  lemma {:induction false} SplitFirst(first: string, rest: string, sep: char)
    requires Without(first, sep)
    ensures Split(first + [sep] + rest, sep) == [first] + Split(rest, sep)
  {
    var s := first + [sep] + rest;
    if first == "" {
      assert s[1..] == rest && s[0] == sep;
    } else {
      assert s[1..] == first[1..] + [sep] + rest && s[0] == first[0];
      SplitFirst(first[1..], rest, sep);
      assert first == [first[0]] + first[1..];
    }
  }

  // ------------------------------------------------------------------ printing and parsing again

  /** What the digits of a version may look like: "8.6", or "86" with the last digit the minor version. */
  ghost predicate Reads(s: string, v: Pair) {
    || (exists a, b :: s == a + "." + b && a != "" && b != "" && AllDigits(a) && AllDigits(b)
                       && Value(a) == v.major && Value(b) == v.minor)
    || (|s| >= 2 && AllDigits(s) && Value(s[..|s| - 1]) == v.major && Value(s[|s| - 1..]) == v.minor)
  }

  lemma DigitsWithout(s: string)
    requires AllDigits(s)
    ensures Without(s, '.') && '.' !in s
  {}

  lemma DottedReads(a: string, b: string)
    requires a != "" && b != "" && AllDigits(a) && AllDigits(b)
    ensures ParseSmDigits(a + "." + b) == Some(Pair(Value(a), Value(b)))
  {
    DigitsWithout(a);
    DigitsWithout(b);
    assert a + "." + b == a + ['.'] + b && (a + "." + b)[|a|] == '.';
    SplitFirst(a, b, '.');
    SplitOne(b, '.');
  }

  /** A version is read exactly from the texts that say it. */
  lemma ParsedExactly(s: string, v: Pair)
    ensures ParseSmDigits(s) == Some(v) <==> Reads(s, v)
  {
    if '.' in s {
      if ParseSmDigits(s) == Some(v) {
        var parts := Split(s, '.');
        SplitJoined(s, '.');
        assert parts[1..] == [parts[1]];
        assert s == parts[0] + "." + parts[1];
      }
      if Reads(s, v) {
        assert !AllDigits(s);
        var a, b :| s == a + "." + b && a != "" && b != "" && AllDigits(a) && AllDigits(b)
                    && Value(a) == v.major && Value(b) == v.minor;
        DottedReads(a, b);
      }
    } else {
      forall a, b ensures '.' in a + "." + b { assert (a + "." + b)[|a|] == '.'; }
    }
  }


  lemma DigitsOfPair(v: Pair)
    ensures var s := Decimal(v.major) + Decimal(v.minor);
            && AllDigits(s) && |s| >= 2 && ParseSmDigits(s).Some?
            && (ParseSmDigits(s) == Some(v) <==> v.minor < 10)
            && ParseSmDigits(s).value.minor < 10
  {
    var a, b := Decimal(v.major), Decimal(v.minor);
    DecimalValue(v.major);
    DecimalValue(v.minor);
    var s := a + b;
    assert '.' !in s;
    var last := s[|s| - 1..];
    assert last == [s[|s| - 1]] && last[..0] == "" && Value(last) == s[|s| - 1] as int - '0' as int;
    if v.minor < 10 {
      assert s[..|s| - 1] == a && last == b;
    }
  }

  lemma PlainToken(prefix: string, digits: string)
    requires prefix == "sm_" || prefix == "compute_"
    requires AllDigits(digits) && digits != ""
    ensures Semantics(prefix + digits) == BaseSemantics(prefix + digits, false)
  {
    var s := prefix + digits;
    assert Bare(s);
    assert Lower(s) == s;
    assert s[|s| - 4..][3] == s[|s| - 1];
  }

  lemma SmBase(digits: string)
    ensures BaseSemantics("sm_" + digits, false) == match ParseSmDigits(digits)
                                                    case Some(v) => Token(Some(v), None)
                                                    case None => Nothing
  {
    assert ("sm_" + digits)[3..] == digits && ("sm_" + digits)[0] != "compute_"[0];
  }

  lemma PtxBase(digits: string)
    ensures BaseSemantics("compute_" + digits, false) == Token(None, ParseSmDigits(digits))
  {
    assert ("compute_" + digits)[8..] == digits;
  }

  /** An entry printed for a version reads back as that version exactly when the minor version has
      one digit. */
  lemma PrintedSm(v: Pair)
    ensures Semantics(SmName(v)).sass.Some? && Semantics(SmName(v)).ptx == None
    ensures Semantics(SmName(v)).sass == Some(v) <==> v.minor < 10
  {
    var digits := Decimal(v.major) + Decimal(v.minor);
    DigitsOfPair(v);
    assert SmName(v) == "sm_" + digits;
    PlainToken("sm_", digits);
    SmBase(digits);
  }

  lemma PrintedPtx(v: Pair)
    ensures Semantics(PtxName(v)).ptx.Some? && Semantics(PtxName(v)).sass == None
    ensures Semantics(PtxName(v)).ptx == Some(v) <==> v.minor < 10
  {
    var digits := Decimal(v.major) + Decimal(v.minor);
    DigitsOfPair(v);
    assert PtxName(v) == "compute_" + digits;
    PlainToken("compute_", digits);
    PtxBase(digits);
  }

  /** The tokens of a shipped list: "8.6", and "8.6+PTX" where the intermediate code is there too. */
  function DottedToken(v: Pair, ptx: bool): string {
    Decimal(v.major) + "." + Decimal(v.minor) + (if ptx then "+PTX" else "")
  }

  lemma LowerAppend(a: string, b: string)
    ensures Lower(a + b) == Lower(a) + Lower(b)
  {}

  lemma DottedText(v: Pair, ptx: bool)
    ensures var token, text := DottedToken(v, ptx), Decimal(v.major) + "." + Decimal(v.minor);
            && Trim(token) == token && Lower(token) == text + (if ptx then "+ptx" else "")
            && Trim(text) == text && text != "" && IsDigit(text[0]) && IsDigit(text[|text| - 1])
  {
    var a, b := Decimal(v.major), Decimal(v.minor);
    DecimalValue(v.major);
    DecimalValue(v.minor);
    var text := a + "." + b;
    assert text[0] == a[0] && text[|text| - 1] == b[|b| - 1];
    assert Lower(text) == text;
    LowerAppend(text, "+PTX");
    assert Lower("+PTX") == "+ptx";
    assert text + "" == text;
    if ptx { assert (text + "+PTX")[|text| + 3] == 'X' && (text + "+PTX")[0] == text[0]; }
  }

  lemma DottedBase(v: Pair, ptx: bool)
    ensures var text := Decimal(v.major) + "." + Decimal(v.minor);
            BaseSemantics(text, ptx) == Token(Some(v), if ptx then Some(v) else None)
  {
    var a, b := Decimal(v.major), Decimal(v.minor);
    DecimalValue(v.major);
    DecimalValue(v.minor);
    DottedReads(a, b);
    var text := a + "." + b;
    assert text[0] == a[0] && "compute_"[0] == 'c' && "sm_"[0] == 's';
  }

  lemma DottedEnd(text: string, ptx: bool)
    requires text != "" && IsDigit(text[|text| - 1])
    ensures var full := text + (if ptx then "+ptx" else "");
            && EndsWithPtx(full) == ptx && (ptx ==> full[..|full| - 4] == text)
  {
    if ptx {
      assert (text + "+ptx")[|text|..] == "+ptx";
    } else {
      assert text + "" == text;
      if |text| >= 4 { assert text[|text| - 4..][3] == text[|text| - 1] && "+ptx"[3] == 'x'; }
    }
  }

  /** A dotted token provides its version, of any number of digits, as machine code, and with "+PTX" as
      intermediate code too. */
  lemma DottedSemantics(v: Pair, ptx: bool)
    ensures Semantics(DottedToken(v, ptx)) == Token(Some(v), if ptx then Some(v) else None)
  {
    var text := Decimal(v.major) + "." + Decimal(v.minor);
    DottedText(v, ptx);
    DottedEnd(text, ptx);
    DottedBase(v, ptx);
    assert text + "" == text;
  }

  /** The text of an arch list, as shipped. */
  function ListText(vs: seq<(Pair, bool)>): string {
    if vs == [] then ""
    else if |vs| == 1 then DottedToken(vs[0].0, vs[0].1)
    else DottedToken(vs[0].0, vs[0].1) + ";" + ListText(vs[1..])
  }

  /** The entries printed for it: "sm_86" for 8.6, and "compute_86" beside it for "+PTX". */
  function Printed(vs: seq<(Pair, bool)>): seq<string> {
    if vs == [] then []
    else
      var (v, ptx) := vs[0];
      var digits := Decimal(v.major) + Decimal(v.minor);
      ["sm_" + digits] + (if ptx then ["compute_" + digits] else []) + Printed(vs[1..])
  }

  lemma DottedEntries(v: Pair, ptx: bool)
    ensures var digits := Decimal(v.major) + Decimal(v.minor);
            TokenEntries(DottedToken(v, ptx)) == ["sm_" + digits] + (if ptx then ["compute_" + digits] else [])
  {
    DottedSemantics(v, ptx);
    var a, b := Decimal(v.major), Decimal(v.minor);
    assert "sm_" + a + b == "sm_" + (a + b) && "compute_" + a + b == "compute_" + (a + b);
  }

  lemma DottedWithout(v: Pair, ptx: bool)
    ensures Without(DottedToken(v, ptx), ';')
  {
    DecimalValue(v.major);
    DecimalValue(v.minor);
  }

  lemma {:induction false} EntriesByCons(f: string -> seq<string>, token: string, tokens: seq<string>)
    ensures EntriesBy(f, [token] + tokens) == f(token) + EntriesBy(f, tokens)
  {
    var all := [token] + tokens;
    if tokens == [] {
      assert all[..0] == [] && all[0] == token;
    } else {
      assert all[..|all| - 1] == [token] + tokens[..|tokens| - 1] && all[|all| - 1] == tokens[|tokens| - 1];
      EntriesByCons(f, token, tokens[..|tokens| - 1]);
    }
  }

  /** Reading the text of a list and printing its entries gives an entry for each version, in order. */
  lemma {:induction false} ListEntries(vs: seq<(Pair, bool)>)
    ensures Entries(Split(ListText(vs), ';')) == Printed(vs)
  {
    if vs == [] {
      assert Split("", ';') == [""] && [""][..0] == [] && TokenEntries("") == [];
    } else {
      var token, rest := DottedToken(vs[0].0, vs[0].1), vs[1..];
      DottedEntries(vs[0].0, vs[0].1);
      DottedWithout(vs[0].0, vs[0].1);
      if rest == [] {
        SplitOne(token, ';');
        EntriesByCons(TokenEntries, token, []);
        assert [token] + [] == [token];
      } else {
        assert token + ";" + ListText(rest) == token + [';'] + ListText(rest);
        SplitFirst(token, ListText(rest), ';');
        EntriesByCons(TokenEntries, token, Split(ListText(rest), ';'));
        ListEntries(rest);
      }
    }
  }

  lemma {:induction false} BlanksLeft(blanks: string, s: string)
    requires forall i | 0 <= i < |blanks| :: blanks[i] in " \t\r\n"
    ensures TrimLeft(blanks + s) == TrimLeft(s)
  {
    if blanks == "" {
      assert blanks + s == s;
    } else {
      assert (blanks + s)[1..] == blanks[1..] + s;
      BlanksLeft(blanks[1..], s);
    }
  }

  lemma {:induction false} BlanksRight(s: string, blanks: string)
    requires forall i | 0 <= i < |blanks| :: blanks[i] in " \t\r\n"
    ensures TrimRight(s + blanks) == TrimRight(s)
  {
    if blanks == "" {
      assert s + blanks == s;
    } else {
      assert (s + blanks)[..|s + blanks| - 1] == s + blanks[..|blanks| - 1];
      BlanksRight(s, blanks[..|blanks| - 1]);
    }
  }

  lemma {:induction false} TrimLeftKeepsEnd(s: string, blanks: string)
    requires TrimLeft(s) != ""
    ensures TrimLeft(s + blanks) == TrimLeft(s) + blanks
  {
    if IsAsciiSpace(s[0]) {
      assert (s + blanks)[1..] == s[1..] + blanks;
      TrimLeftKeepsEnd(s[1..], blanks);
    }
  }

  /** Blanks around a token are nothing to it. */
  lemma BlanksIgnored(before: string, token: string, after: string)
    requires forall i | 0 <= i < |before| :: before[i] in " \t\r\n"
    requires forall i | 0 <= i < |after| :: after[i] in " \t\r\n"
    requires TrimLeft(token) != ""
    ensures Semantics(before + token + after) == Semantics(token)
  {
    assert before + token + after == before + (token + after);
    BlanksLeft(before, token + after);
    TrimLeftKeepsEnd(token, after);
    BlanksRight(TrimLeft(token), after);
  }

  /** The version of a "cuNNN" index is read back from its digits exactly when the minor version has one. */
  lemma CudaIndex(v: Pair)
    ensures CudaVersion("cu" + Decimal(v.major) + Decimal(v.minor)) == Some(v) <==> v.minor < 10
  {
    var digits := Decimal(v.major) + Decimal(v.minor);
    DigitsOfPair(v);
    assert "cu" + Decimal(v.major) + Decimal(v.minor) == "cu" + digits;
    assert ("cu" + digits)[2..] == digits;
  }

  /** Names tell versions with one-digit minors apart, and only those: 1.12 and 11.2 share one. */
  lemma SmNameInjective(v: Pair, w: Pair)
    requires v.minor < 10 && w.minor < 10 && SmName(v) == SmName(w)
    ensures v == w
  {
    PrintedSm(v);
    PrintedSm(w);
  }

  lemma SmNameShared()
    ensures SmName(Pair(1, 12)) == SmName(Pair(11, 2))
  {
    assert Decimal(12) == "12" && Decimal(11) == "11";
  }

  predicate OneDigit(vs: set<Pair>) { forall v | v in vs :: v.minor < 10 }

  lemma TokenRoundTrip(token: string)
    requires Semantics(token).sass.Some? ==> Semantics(token).sass.value.minor < 10
    requires Semantics(token).ptx.Some? ==> Semantics(token).ptx.value.minor < 10
    ensures Sass(TokenEntries(token)) == Sass([token]) && Ptx(TokenEntries(token)) == Ptx([token])
  {
    var t, es := Semantics(token), TokenEntries(token);
    if t.sass.Some? {
      PrintedSm(t.sass.value);
      assert es[0] in es;
    }
    if t.ptx.Some? {
      PrintedPtx(t.ptx.value);
      assert es[|es| - 1] in es;
    }
    assert token in [token];
  }

  lemma VersionsAppend(a: seq<string>, b: seq<string>)
    ensures Sass(a + b) == Sass(a) + Sass(b) && Ptx(a + b) == Ptx(a) + Ptx(b)
  {}

  lemma OneMoreToken(front: seq<string>, last: string)
    requires OneDigit(Sass(front + [last])) && OneDigit(Ptx(front + [last]))
    ensures OneDigit(Sass(front)) && OneDigit(Ptx(front))
    ensures Sass(TokenEntries(last)) == Sass([last]) && Ptx(TokenEntries(last)) == Ptx([last])
  {
    VersionsAppend(front, [last]);
    assert last in [last];
    TokenRoundTrip(last);
  }

  /** Printing an arch list to entries and reading the entries back gives the same versions,
      whenever minor versions have one digit. */
  lemma {:induction false} EntriesRoundTrip(tokens: seq<string>)
    requires OneDigit(Sass(tokens)) && OneDigit(Ptx(tokens))
    ensures Sass(Entries(tokens)) == Sass(tokens) && Ptx(Entries(tokens)) == Ptx(tokens)
  {
    if tokens != [] {
      var front, last := tokens[..|tokens| - 1], tokens[|tokens| - 1];
      assert tokens == front + [last];
      OneMoreToken(front, last);
      EntriesRoundTrip(front);
      VersionsAppend(front, [last]);
      VersionsAppend(Entries(front), TokenEntries(last));
    }
  }

  // ------------------------------------------------------------------ coverage of a device

  datatype Coverage = Exact | SameMajor(sm: string) | JustInTime(ptx: Pair)

  predicate RunsOn(sass: Pair, cc: Pair) { sass.major == cc.major && sass.minor <= cc.minor }

  predicate HasExact(cc: Pair, sass: set<Pair>) { exists v :: v in sass && SmName(v) == SmName(cc) }

  predicate HasSameMajor(cc: Pair, sass: set<Pair>) { exists v :: v in sass && RunsOn(v, cc) }

  predicate HasPtx(cc: Pair, ptx: set<Pair>) { exists v :: v in ptx && AtMost(v, cc) }

  /** The best way to run on a device: its own build, else the nearest build of its family, else
      the nearest intermediate code. */
  predicate Best(cc: Pair, sass: set<Pair>, ptx: set<Pair>, r: Option<Coverage>) {
    if HasExact(cc, sass) then r == Some(Exact)
    else if HasSameMajor(cc, sass) then
      exists v :: v in sass && RunsOn(v, cc) && r == Some(SameMajor(SmName(v)))
                  && forall w | w in sass && RunsOn(w, cc) :: w.minor <= v.minor
    else if HasPtx(cc, ptx) then
      exists v :: v in ptx && AtMost(v, cc) && r == Some(JustInTime(v))
                  && forall w | w in ptx && AtMost(w, cc) :: AtMost(w, v)
    else r == None
  }

  /** The best coverage in plain numbers: a build with the device's own name; else the highest minor of the
      device's major that is not above its minor; else the highest intermediate code not above the device. */
  lemma BestMeans(cc: Pair, sass: set<Pair>, ptx: set<Pair>, r: Option<Coverage>)
    requires Best(cc, sass, ptx, r)
    ensures r == Some(Exact) <==>
              exists v :: v in sass && Decimal(v.major) + Decimal(v.minor) == Decimal(cc.major) + Decimal(cc.minor)
    ensures r.Some? && r.value.SameMajor? ==>
              exists m: nat :: m <= cc.minor && Pair(cc.major, m) in sass && r.value.sm == SmName(Pair(cc.major, m))
                               && forall k: nat | Pair(cc.major, k) in sass && k <= cc.minor :: k <= m
    ensures r.Some? && r.value.JustInTime? ==>
              var v := r.value.ptx;
              && v in ptx && (v.major < cc.major || (v.major == cc.major && v.minor <= cc.minor))
              && (forall m: nat | Pair(cc.major, m) in sass :: m > cc.minor)
              && (forall w | w in ptx && (w.major < cc.major || (w.major == cc.major && w.minor <= cc.minor)) ::
                    w.major < v.major || (w.major == v.major && w.minor <= v.minor))
    ensures r == None ==>
              && (forall m: nat | Pair(cc.major, m) in sass :: m > cc.minor)
              && (forall w | w in ptx :: w.major > cc.major || (w.major == cc.major && w.minor > cc.minor))
  {
    SameNames(cc, sass);
    forall m: nat | Pair(cc.major, m) in sass && m <= cc.minor ensures RunsOn(Pair(cc.major, m), cc) {}
    if r.Some? && r.value.SameMajor? {
      var v :| v in sass && RunsOn(v, cc) && r == Some(SameMajor(SmName(v)))
               && forall w | w in sass && RunsOn(w, cc) :: w.minor <= v.minor;
      assert v == Pair(cc.major, v.minor);
    }
  }

  lemma SameNames(cc: Pair, sass: set<Pair>)
    ensures HasExact(cc, sass) <==>
              exists v :: v in sass && Decimal(v.major) + Decimal(v.minor) == Decimal(cc.major) + Decimal(cc.minor)
  {
    forall v: Pair
      ensures SmName(v) == SmName(cc) <==> Decimal(v.major) + Decimal(v.minor) == Decimal(cc.major) + Decimal(cc.minor)
    {
      assert SmName(v)[3..] == Decimal(v.major) + Decimal(v.minor);
      assert SmName(cc)[3..] == Decimal(cc.major) + Decimal(cc.minor);
      assert SmName(v) == "sm_" + SmName(v)[3..] && SmName(cc) == "sm_" + SmName(cc)[3..];
    }
  }

  predicate Covered(cc: Pair, entries: seq<string>) {
    HasExact(cc, Sass(entries)) || HasSameMajor(cc, Sass(entries)) || HasPtx(cc, Ptx(entries))
  }

  /** The answer depends only on the versions provided, not on the order of the entries. */
  lemma CoverageOrderFree(cc: Pair, entries: seq<string>, others: seq<string>, r: Option<Coverage>, q: Option<Coverage>)
    requires forall e :: e in entries <==> e in others
    requires Best(cc, Sass(entries), Ptx(entries), r) && Best(cc, Sass(others), Ptx(others), q)
    ensures r == q
  {
    assert Sass(entries) == Sass(others) && Ptx(entries) == Ptx(others);
    if !HasExact(cc, Sass(entries)) && HasSameMajor(cc, Sass(entries)) {
      var v :| v in Sass(entries) && RunsOn(v, cc) && r == Some(SameMajor(SmName(v)))
               && forall w | w in Sass(entries) && RunsOn(w, cc) :: w.minor <= v.minor;
      var w :| w in Sass(entries) && RunsOn(w, cc) && q == Some(SameMajor(SmName(w)))
               && forall u | u in Sass(entries) && RunsOn(u, cc) :: u.minor <= w.minor;
      assert v == w;
    }
  }

  /** The printed list covers the devices the arch list covers, in the same way. */
  lemma PrintedListCoversTheSame(cc: Pair, tokens: seq<string>, r: Option<Coverage>)
    requires OneDigit(Sass(tokens)) && OneDigit(Ptx(tokens))
    ensures Best(cc, Sass(Entries(tokens)), Ptx(Entries(tokens)), r) <==> Best(cc, Sass(tokens), Ptx(tokens), r)
    ensures Covered(cc, Entries(tokens)) <==> Covered(cc, tokens)
  {
    EntriesRoundTrip(tokens);
  }

  function ListTokens(vs: seq<(Pair, bool)>): seq<string> {
    seq(|vs|, i requires 0 <= i < |vs| => DottedToken(vs[i].0, vs[i].1))
  }

  lemma {:induction false} ListSplit(vs: seq<(Pair, bool)>)
    requires vs != []
    ensures Split(ListText(vs), ';') == ListTokens(vs)
  {
    var token, rest := DottedToken(vs[0].0, vs[0].1), vs[1..];
    DottedWithout(vs[0].0, vs[0].1);
    if rest == [] {
      SplitOne(token, ';');
    } else {
      assert token + ";" + ListText(rest) == token + [';'] + ListText(rest);
      SplitFirst(token, ListText(rest), ';');
      ListSplit(rest);
      assert ListTokens(vs) == [token] + ListTokens(rest);
    }
  }

  lemma ListVersions(vs: seq<(Pair, bool)>)
    ensures forall v :: v in Sass(ListTokens(vs)) <==> exists i :: 0 <= i < |vs| && vs[i].0 == v
    ensures forall v :: v in Ptx(ListTokens(vs)) <==> exists i :: 0 <= i < |vs| && vs[i] == (v, true)
  {
    var tokens := ListTokens(vs);
    forall i | 0 <= i < |vs|
      ensures tokens[i] in tokens
      ensures Semantics(tokens[i]) == Token(Some(vs[i].0), if vs[i].1 then Some(vs[i].0) else None)
    {
      DottedSemantics(vs[i].0, vs[i].1);
    }
    forall t | t in tokens ensures exists i :: 0 <= i < |vs| && t == tokens[i] {}
  }

  /** The printed entries of a shipped list, with minor versions of one digit, cover a device exactly when
      the list has its own version, or one of its major and no higher minor, or intermediate code for a
      version no higher. */
  lemma ListCoversExactly(vs: seq<(Pair, bool)>, cc: Pair)
    requires vs != [] && forall i | 0 <= i < |vs| :: vs[i].0.minor < 10
    ensures Covered(cc, Entries(Split(ListText(vs), ';'))) <==>
              exists i :: 0 <= i < |vs| && var (v, ptx) := vs[i];
                || SmName(v) == SmName(cc)
                || (v.major == cc.major && v.minor <= cc.minor)
                || (ptx && (v.major < cc.major || (v.major == cc.major && v.minor <= cc.minor)))
  {
    var tokens := ListTokens(vs);
    ListSplit(vs);
    ListVersions(vs);
    PrintedListCoversTheSame(cc, tokens, None);
    if Covered(cc, tokens) {
      if HasExact(cc, Sass(tokens)) {
        var v :| v in Sass(tokens) && SmName(v) == SmName(cc);
      } else if HasSameMajor(cc, Sass(tokens)) {
        var v :| v in Sass(tokens) && RunsOn(v, cc);
      } else {
        var v :| v in Ptx(tokens) && AtMost(v, cc);
      }
    }
    forall i | 0 <= i < |vs| ensures vs[i].0 in Sass(tokens) && (vs[i].1 ==> vs[i].0 in Ptx(tokens)) {
      assert vs[i].1 ==> vs[i] == (vs[i].0, true);
    }
  }

  /** The exact match compares names; on one-digit minors it compares versions. */
  lemma ExactIsMembership(cc: Pair, sass: set<Pair>)
    requires cc.minor < 10 && OneDigit(sass)
    ensures HasExact(cc, sass) <==> cc in sass
  {
    if HasExact(cc, sass) {
      var v :| v in sass && SmName(v) == SmName(cc);
      SmNameInjective(v, cc);
    }
  }

  lemma VersionsSnoc(entries: seq<string>, e: string)
    ensures Sass(entries + [e]) == Sass(entries) + One(Semantics(e).sass)
    ensures Ptx(entries + [e]) == Ptx(entries) + One(Semantics(e).ptx)
  {
    VersionsAppend(entries, [e]);
    assert e in [e];
  }

  /** The nearest build of the family among `sass`, if any. */
  ghost predicate NearestBuild(cc: Pair, sass: set<Pair>, best: Option<Pair>) {
    match best
    case None => !HasSameMajor(cc, sass)
    case Some(v) => v in sass && RunsOn(v, cc) && forall w | w in sass && RunsOn(w, cc) :: w.minor <= v.minor
  }

  /** The nearest intermediate code among `ptx`, if any. */
  ghost predicate NearestPtx(cc: Pair, ptx: set<Pair>, best: Option<Pair>) {
    match best
    case None => !HasPtx(cc, ptx)
    case Some(v) => v in ptx && AtMost(v, cc) && forall w | w in ptx && AtMost(w, cc) :: AtMost(w, v)
  }

  function One(v: Option<Pair>): set<Pair> { if v.Some? then {v.value} else {} }

  function NextBuild(cc: Pair, best: Option<Pair>, v: Option<Pair>): Option<Pair> {
    if v.Some? && RunsOn(v.value, cc) && (best.None? || v.value.minor > best.value.minor) then v else best
  }

  function NextPtx(cc: Pair, best: Option<Pair>, v: Option<Pair>): Option<Pair> {
    if v.Some? && AtMost(v.value, cc) && (best.None? || !AtMost(v.value, best.value)) then v else best
  }

  lemma NextBuildIs(cc: Pair, sass: set<Pair>, best: Option<Pair>, v: Option<Pair>)
    requires NearestBuild(cc, sass, best)
    ensures NearestBuild(cc, sass + One(v), NextBuild(cc, best, v))
  {
    assert forall w | w in sass + One(v) :: w in sass || (v.Some? && w == v.value);
  }

  lemma NextPtxIs(cc: Pair, ptx: set<Pair>, best: Option<Pair>, v: Option<Pair>)
    requires NearestPtx(cc, ptx, best)
    ensures NearestPtx(cc, ptx + One(v), NextPtx(cc, best, v))
  {
    assert forall w | w in ptx + One(v) :: w in ptx || (v.Some? && w == v.value);
  }

  lemma NextExact(cc: Pair, sass: set<Pair>, v: Option<Pair>)
    ensures HasExact(cc, sass + One(v)) <==> HasExact(cc, sass) || (v.Some? && SmName(v.value) == SmName(cc))
  {
    if v.Some? { assert v.value in sass + One(v); }
    if HasExact(cc, sass) {
      var w :| w in sass && SmName(w) == SmName(cc);
      assert w in sass + One(v);
    }
  }

  lemma BestIs(cc: Pair, sass: set<Pair>, ptx: set<Pair>, same: Option<Pair>, jit: Option<Pair>)
    requires !HasExact(cc, sass) && NearestBuild(cc, sass, same) && NearestPtx(cc, ptx, jit)
    ensures Best(cc, sass, ptx, if same.Some? then Some(SameMajor(SmName(same.value)))
                                else if jit.Some? then Some(JustInTime(jit.value)) else None)
    ensures same.None? <==> !HasSameMajor(cc, sass)
    ensures jit.None? <==> !HasPtx(cc, ptx)
  {
    if same.Some? { assert HasSameMajor(cc, sass); }
    if jit.Some? { assert HasPtx(cc, ptx); }
  }

  /** The source's loop with its two best-so-far variables. */
  method DeviceCoverage(cc: Pair, entries: seq<string>) returns (r: Option<Coverage>)
    ensures Best(cc, Sass(entries), Ptx(entries), r)
    ensures r == None <==> !Covered(cc, entries)
  {
    var want := SmName(cc);
    var bestSame: Option<Pair> := None;
    var bestPtx: Option<Pair> := None;
    for i := 0 to |entries|
      invariant !HasExact(cc, Sass(entries[..i]))
      invariant NearestBuild(cc, Sass(entries[..i]), bestSame) && NearestPtx(cc, Ptx(entries[..i]), bestPtx)
    {
      var t := Semantics(entries[i]);
      assert entries[..i + 1] == entries[..i] + [entries[i]];
      VersionsSnoc(entries[..i], entries[i]);
      if t.Name() == Some(want) {
        assert entries[i] in entries && t.sass.value in Sass(entries);
        return Some(Exact);
      }
      NextExact(cc, Sass(entries[..i]), t.sass);
      NextBuildIs(cc, Sass(entries[..i]), bestSame, t.sass);
      NextPtxIs(cc, Ptx(entries[..i]), bestPtx, t.ptx);
      if t.sass.Some? && RunsOn(t.sass.value, cc) {
        if bestSame.None? || t.sass.value.minor > bestSame.value.minor {
          bestSame := t.sass;
        }
      }
      if t.ptx.Some? && AtMost(t.ptx.value, cc) {
        if bestPtx.None? || !AtMost(t.ptx.value, bestPtx.value) {
          bestPtx := t.ptx;
        }
      }
    }
    assert entries[..|entries|] == entries;
    BestIs(cc, Sass(entries), Ptx(entries), bestSame, bestPtx);
    if bestSame.Some? {
      r := Some(SameMajor(SmName(bestSame.value)));
    } else if bestPtx.Some? {
      r := Some(JustInTime(bestPtx.value));
    } else {
      r := None;
    }
  }
}
