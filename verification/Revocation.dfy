/** Revoked token ids: one per line of a text file, read again when the file's
    modification time changes. */
module Revocation {
  import opened Bytes

  const TOKEN_ID_SIZE := 16

  type TokenId = s: seq<byte> | |s| == 16 witness Zeros(16)

  // ----------------------------------------------------------------------- lines

  /** Unicode white space, which `trim` removes. */
  predicate White(c: char)
  {
    var n := c as int;
    || 0x9 <= n <= 0xd || n == 0x20 || n == 0x85 || n == 0xa0 || n == 0x1680 || 0x2000 <= n <= 0x200a
    || n == 0x2028 || n == 0x2029 || n == 0x202f || n == 0x205f || n == 0x3000
  }

  function TrimStart(s: string): (t: string)
  {
    if s != [] && White(s[0]) then TrimStart(s[1..]) else s
  }

  function TrimEnd(s: string): (t: string)
  {
    if s != [] && White(s[|s| - 1]) then TrimEnd(s[..|s| - 1]) else s
  }

  /** `trim_start_matches("0x")`: as often as it is there. */
  function TrimPrefix(s: string): (t: string)
  {
    if |s| >= 2 && s[0] == '0' && s[1] == 'x' then TrimPrefix(s[2..]) else s
  }

  predicate HasNewline(s: string)
  {
    '\n' in s
  }

  function FirstNewline(s: string): (i: nat)
    requires HasNewline(s)
    ensures i < |s| && s[i] == '\n' && forall k :: 0 <= k < i ==> s[k] != '\n'
  {
    if s[0] == '\n' then 0 else
      assert s == [s[0]] + s[1..];
      1 + FirstNewline(s[1..])
  }

  function StripCr(line: string): (l: string)
  {
    if line != [] && line[|line| - 1] == '\r' then line[..|line| - 1] else line
  }

  /** `lines`: a line ends with a newline, or a carriage return and a newline; the
      last may end with the text. */
  function Lines(text: string): (lines: seq<string>)
  {
    if text == [] then []
    else if !HasNewline(text) then [text]
    else
      var i := FirstNewline(text);
      [StripCr(text[..i])] + Lines(text[i + 1..])
  }

  // ------------------------------------------------------------------------- hex

  predicate IsHex(c: char)
  {
    '0' <= c <= '9' || 'a' <= c <= 'f' || 'A' <= c <= 'F'
  }

  function Value(c: char): (n: nat)
    requires IsHex(c)
    ensures n < 16
  {
    if c <= '9' then c as int - '0' as int
    else if c <= 'F' then c as int - 'A' as int + 10
    else c as int - 'a' as int + 10
  }

  function Digit(n: nat): (c: char)
    requires n < 16
    ensures IsHex(c) && Value(c) == n
  {
    if n < 10 then '0' + n as char else 'a' + (n - 10) as char
  }

  function Hex(id: TokenId): (s: string)
    ensures |s| == 32 && forall i :: 0 <= i < |s| ==> IsHex(s[i])
  {
    seq(32, k requires 0 <= k < 32 => Digit(if k % 2 == 0 then id[k / 2] / 16 else id[k / 2] % 16))
  }

  function FromHex(s: string): (id: TokenId)
    requires |s| == 32 && forall i :: 0 <= i < |s| ==> IsHex(s[i])
  {
    seq(16, i requires 0 <= i < 16 => Value(s[2 * i]) * 16 + Value(s[2 * i + 1]))
  }

  function ParseId(line: string): (id: Option<TokenId>)
  {
    var hex := TrimPrefix(TrimStart(TrimEnd(line)));
    if |hex| != 2 * TOKEN_ID_SIZE || exists i :: 0 <= i < |hex| && !IsHex(hex[i]) then None else Some(FromHex(hex))
  }

  /** The fill loop of `parse_token_id_hex`. */
  method ParseTokenId(line: string) returns (r: Option<TokenId>)
    ensures r == ParseId(line)
  {
    var hex := TrimPrefix(TrimStart(TrimEnd(line)));
    if |hex| != 2 * TOKEN_ID_SIZE || exists i :: 0 <= i < |hex| && !IsHex(hex[i]) {
      return None;
    }
    var id := new byte[TOKEN_ID_SIZE](_ => 0);
    for i := 0 to TOKEN_ID_SIZE
      invariant forall k :: 0 <= k < i ==> id[k] == Value(hex[2 * k]) * 16 + Value(hex[2 * k + 1])
    {
      id[i] := Value(hex[i * 2]) * 16 + Value(hex[i * 2 + 1]);
    }
    assert id[..] == FromHex(hex);
    r := Some(id[..]);
  }

  lemma FromHexOfHex(id: TokenId)
    ensures FromHex(Hex(id)) == id
  {
    forall i | 0 <= i < 16
      ensures FromHex(Hex(id))[i] == id[i]
    {
      assert Hex(id)[2 * i] == Digit(id[i] / 16) && Hex(id)[2 * i + 1] == Digit(id[i] % 16);
    }
  }

  /** What is written for an id is read as that id. */
  lemma IdRoundTrip(id: TokenId)
    ensures ParseId(Hex(id)) == Some(id)
  {
    var s := Hex(id);
    assert IsHex(s[0]) && IsHex(s[1]) && IsHex(s[|s| - 1]);
    assert TrimPrefix(TrimStart(TrimEnd(s))) == s;
    FromHexOfHex(id);
  }

  // ------------------------------------------------------------ what a line spells

  predicate AllWhite(s: string)
  {
    forall i :: 0 <= i < |s| ==> White(s[i])
  }

  function Prefixes(n: nat): (s: string)
  {
    if n == 0 then [] else "0x" + Prefixes(n - 1)
  }

  /** `c` is the digit for `n`, small or large. */
  predicate DigitFor(c: char, n: nat)
    requires n < 16
  {
    c == "0123456789abcdef"[n] || c == "0123456789ABCDEF"[n]
  }

  predicate HexFor(hex: string, id: TokenId)
  {
    && |hex| == 32
    && forall i :: 0 <= i < 16 ==> DigitFor(hex[2 * i], id[i] / 16) && DigitFor(hex[2 * i + 1], id[i] % 16)
  }

  /** White space, `0x` any number of times, the 32 digits, white space. */
  ghost predicate Spells(line: string, id: TokenId)
  {
    exists a, n: nat, hex, z :: AllWhite(a) && AllWhite(z) && HexFor(hex, id) && line == a + Prefixes(n) + hex + z
  }

  lemma DigitIs(c: char, n: nat)
    requires n < 16
    ensures DigitFor(c, n) <==> IsHex(c) && Value(c) == n
  {
  }

  lemma HexForIs(hex: string, id: TokenId)
    ensures HexFor(hex, id) <==> |hex| == 32 && (forall i :: 0 <= i < |hex| ==> IsHex(hex[i])) && FromHex(hex) == id
  {
    if |hex| == 32 {
      forall i | 0 <= i < 16
        ensures DigitFor(hex[2 * i], id[i] / 16) <==> IsHex(hex[2 * i]) && Value(hex[2 * i]) == id[i] / 16
        ensures DigitFor(hex[2 * i + 1], id[i] % 16) <==> IsHex(hex[2 * i + 1]) && Value(hex[2 * i + 1]) == id[i] % 16
      {
        DigitIs(hex[2 * i], id[i] / 16);
        DigitIs(hex[2 * i + 1], id[i] % 16);
      }
      if HexFor(hex, id) {
        forall i | 0 <= i < 32
          ensures IsHex(hex[i])
        {
          var h := i / 2;
          assert DigitFor(hex[2 * h], id[h] / 16) && DigitFor(hex[2 * h + 1], id[h] % 16);
          DigitIs(hex[2 * h], id[h] / 16);
          DigitIs(hex[2 * h + 1], id[h] % 16);
        }
        assert FromHex(hex) == id;
      }
    }
  }

  lemma {:induction false} TrimStartSplits(s: string) returns (a: string)
    ensures AllWhite(a) && s == a + TrimStart(s)
  {
    a := [];
    if s != [] && White(s[0]) {
      var rest := TrimStartSplits(s[1..]);
      a := [s[0]] + rest;
    }
  }

  lemma {:induction false} TrimEndSplits(s: string) returns (z: string)
    ensures AllWhite(z) && s == TrimEnd(s) + z
  {
    z := [];
    if s != [] && White(s[|s| - 1]) {
      var rest := TrimEndSplits(s[..|s| - 1]);
      z := rest + [s[|s| - 1]];
    }
  }

  lemma {:induction false} TrimPrefixSplits(s: string) returns (n: nat)
    ensures s == Prefixes(n) + TrimPrefix(s)
  {
    n := 0;
    if |s| >= 2 && s[0] == '0' && s[1] == 'x' {
      var rest := TrimPrefixSplits(s[2..]);
      n := rest + 1;
    }
  }

  lemma {:induction false} TrimmedStart(a: string, s: string)
    requires AllWhite(a) && s != [] && !White(s[0])
    ensures TrimStart(a + s) == s
  {
    if a == [] {
      assert a + s == s;
    } else {
      TrimmedStart(a[1..], s);
      assert (a + s)[1..] == a[1..] + s;
    }
  }

  lemma {:induction false} TrimmedEnd(s: string, z: string)
    requires AllWhite(z) && s != [] && !White(s[|s| - 1])
    ensures TrimEnd(s + z) == s
  {
    if z == [] {
      assert s + z == s;
    } else {
      TrimmedEnd(s, z[..|z| - 1]);
      assert (s + z)[..|s + z| - 1] == s + z[..|z| - 1];
    }
  }

  lemma {:induction false} TrimmedPrefix(n: nat, hex: string)
    requires |hex| >= 2 && hex[1] != 'x'
    ensures TrimPrefix(Prefixes(n) + hex) == hex
    ensures (Prefixes(n) + hex)[0] == if n == 0 then hex[0] else '0'
  {
    if n == 0 {
      assert Prefixes(n) + hex == hex;
    } else {
      TrimmedPrefix(n - 1, hex);
      assert (Prefixes(n) + hex)[2..] == Prefixes(n - 1) + hex;
    }
  }

  /** Exactly the lines that spell an id are read as it. */
  lemma ParsesIffSpells(line: string, id: TokenId)
    ensures ParseId(line) == Some(id) <==> Spells(line, id)
  {
    if ParseId(line) == Some(id) {
      var z := TrimEndSplits(line);
      var a := TrimStartSplits(TrimEnd(line));
      var n := TrimPrefixSplits(TrimStart(TrimEnd(line)));
      var hex := TrimPrefix(TrimStart(TrimEnd(line)));
      HexForIs(hex, id);
      assert line == a + Prefixes(n) + hex + z;
    }
    if Spells(line, id) {
      var a, n: nat, hex, z :| AllWhite(a) && AllWhite(z) && HexFor(hex, id) && line == a + Prefixes(n) + hex + z;
      HexForIs(hex, id);
      assert IsHex(hex[0]) && IsHex(hex[1]) && IsHex(hex[31]);
      TrimmedEnd(a + Prefixes(n) + hex, z);
      assert a + Prefixes(n) + hex == a + (Prefixes(n) + hex);
      TrimmedPrefix(n, hex);
      TrimmedStart(a, Prefixes(n) + hex);
    }
  }

  // ---------------------------------------------------------------- whole texts

  function IdsIn(line: string): (ids: set<TokenId>)
  {
    var id := ParseId(line);
    if id.Some? then {id.value} else {}
  }

  /** What the lines give together; `f` says what one line gives. */
  function Gather(f: string -> set<TokenId>, lines: seq<string>): (ids: set<TokenId>)
  {
    if lines == [] then {} else f(lines[0]) + Gather(f, lines[1..])
  }

  function Load(text: string): (ids: set<TokenId>)
  {
    Gather(IdsIn, Lines(text))
  }

  /** The set holds exactly the ids that some line spells. */
  lemma {:induction false} LoadedIffListed(lines: seq<string>, id: TokenId)
    ensures id in Gather(IdsIn, lines) <==> exists i :: 0 <= i < |lines| && ParseId(lines[i]) == Some(id)
  {
    if lines != [] {
      LoadedIffListed(lines[1..], id);
      if ParseId(lines[0]) != Some(id) {
        assert forall i :: 1 <= i < |lines| ==> lines[i] == lines[1..][i - 1];
      }
    }
  }

  /** A carriage return at the end of a line is trimmed anyway. */
  lemma StripCrHarmless(line: string)
    ensures ParseId(StripCr(line)) == ParseId(line)
  {
  }

  ghost predicate IgnoresCr(f: string -> set<TokenId>)
  {
    forall line :: f(StripCr(line)) == f(line)
  }

  lemma GatherFirst(f: string -> set<TokenId>, line: string, rest: seq<string>)
    ensures Gather(f, [line] + rest) == f(line) + Gather(f, rest)
  {
    assert ([line] + rest)[1..] == rest;
  }

  lemma GatherOne(f: string -> set<TokenId>, line: string)
    ensures Gather(f, [line]) == f(line)
  {
    assert [line] + [] == [line];
    GatherFirst(f, line, []);
  }

  lemma NewlineAt(s: string, i: nat)
    requires i < |s| && s[i] == '\n' && forall k :: 0 <= k < i ==> s[k] != '\n'
    ensures HasNewline(s) && FirstNewline(s) == i
  {
    var j := FirstNewline(s);
    assert !(j < i) && !(i < j);
  }

  /** A text without a newline, ended. */
  lemma OneLine(t: string)
    requires !HasNewline(t)
    ensures Lines(t + "\n") == [StripCr(t)]
  {
    NewlineAt(t + "\n", |t|);
    assert (t + "\n")[..|t|] == t && (t + "\n")[|t| + 1..] == [];
    assert [StripCr(t)] + [] == [StripCr(t)];
  }

  lemma FirstLine(f: string -> set<TokenId>, t: string)
    requires HasNewline(t)
    ensures var i := FirstNewline(t);
            Gather(f, Lines(t)) == f(StripCr(t[..i])) + Gather(f, Lines(t[i + 1..]))
  {
    var i := FirstNewline(t);
    GatherFirst(f, StripCr(t[..i]), Lines(t[i + 1..]));
  }

  lemma FirstLineJoined(f: string -> set<TokenId>, t: string, u: string)
    requires HasNewline(t)
    ensures var i := FirstNewline(t);
            Gather(f, Lines(t + u)) == f(StripCr(t[..i])) + Gather(f, Lines(t[i + 1..] + u))
  {
    NewlineAt(t + u, FirstNewline(t));
    assert HasNewline(t + u) && FirstNewline(t + u) == FirstNewline(t);
    assert (t + u)[..FirstNewline(t)] == t[..FirstNewline(t)];
    assert (t + u)[FirstNewline(t) + 1..] == t[FirstNewline(t) + 1..] + u;
    FirstLine(f, t + u);
  }

  lemma RestEndsAlike(t: string)
    requires HasNewline(t) && t[|t| - 1] != '\n'
    ensures var rest := t[FirstNewline(t) + 1..]; rest != [] && rest[|rest| - 1] != '\n'
  {
  }

  /** Ending the last line changes no id. */
  lemma {:induction false} GatherEnded(f: string -> set<TokenId>, t: string)
    requires IgnoresCr(f) && t != [] && t[|t| - 1] != '\n'
    ensures Gather(f, Lines(t + "\n")) == Gather(f, Lines(t))
    decreases |t|
  {
    if !HasNewline(t) {
      OneLine(t);
      GatherOne(f, StripCr(t));
      GatherOne(f, t);
    } else {
      RestEndsAlike(t);
      GatherEnded(f, t[FirstNewline(t) + 1..]);
      FirstLine(f, t);
      FirstLineJoined(f, t, "\n");
    }
  }

  lemma AfterFirst(t: string)
    requires t != [] && t[|t| - 1] == '\n'
    ensures HasNewline(t)
    ensures var rest := t[FirstNewline(t) + 1..]; rest == [] || rest[|rest| - 1] == '\n'
  {
  }

  /** A text that ends its last line, and then another text. */
  lemma {:induction false} GatherJoined(f: string -> set<TokenId>, t: string, u: string)
    requires t == [] || t[|t| - 1] == '\n'
    ensures Gather(f, Lines(t + u)) == Gather(f, Lines(t)) + Gather(f, Lines(u))
    decreases |t|
  {
    if t == [] {
      assert t + u == u;
    } else {
      AfterFirst(t);
      var i := FirstNewline(t);
      GatherJoined(f, t[i + 1..], u);
      FirstLine(f, t);
      FirstLineJoined(f, t, u);
      Regroup(f(StripCr(t[..i])), Gather(f, Lines(t[i + 1..])), Gather(f, Lines(u)));
    }
  }

  lemma Regroup<T>(a: set<T>, b: set<T>, c: set<T>)
    ensures a + (b + c) == a + b + c
  {
  }

  // ------------------------------------------------------------------- appending

  /** A text that is there may still not be readable: because of its rights, or
      because it is not UTF-8. */
  datatype RevocationFile = NoFile | OnDisk(text: string, readable: bool)

  /** What `read_to_string` gives, with every error taken for an empty text. */
  function TextOf(file: RevocationFile): (text: string)
  {
    if file.OnDisk? && file.readable then file.text else []
  }

  /** The ids the file lists, whether or not anybody can read them now. */
  function Listed(file: RevocationFile): (ids: set<TokenId>)
  {
    if file.OnDisk? then Load(file.text) else {}
  }

  function Ended(text: string): (t: string)
    ensures t == [] || t[|t| - 1] == '\n'
  {
    if text != [] && text[|text| - 1] != '\n' then text + "\n" else text
  }

  /** The file after `append_revoked_id`; `writes` says whether the write, if there
      is one, succeeds. */
  function Appended(file: RevocationFile, id: TokenId, writes: bool): (after: RevocationFile)
  {
    if id in Load(TextOf(file)) || !writes then file else OnDisk(Ended(TextOf(file)) + Hex(id) + "\n", true)
  }

  /** `append_revoked_id`. */
  method AppendRevokedId(file: RevocationFile, id: TokenId, writes: bool) returns (after: RevocationFile, ok: bool)
    ensures after == Appended(file, id, writes)
    ensures ok <==> writes || id in Load(TextOf(file))
  {
    if id in Load(TextOf(file)) {
      return file, true;
    }
    var text := TextOf(file);
    if text != [] && text[|text| - 1] != '\n' {
      text := text + "\n";
    }
    text := text + Hex(id) + "\n";
    after, ok := if writes then OnDisk(text, true) else file, writes;
  }

  lemma IdsIgnoreCr()
    ensures IgnoresCr(IdsIn)
  {
    forall line: string
      ensures IdsIn(StripCr(line)) == IdsIn(line)
    {
      StripCrHarmless(line);
    }
  }

  /** `text[i..j]` is all that stands between two newlines, or the ends of the text. */
  predicate LineAt(text: string, i: int, j: int)
  {
    && 0 <= i <= j <= |text| && (i == 0 || text[i - 1] == '\n') && (j == |text| || text[j] == '\n')
    && forall k :: i <= k < j ==> text[k] != '\n'
  }

  ghost predicate SomeLine(text: string, p: string -> bool)
  {
    exists i, j :: LineAt(text, i, j) && p(text[i..j])
  }

  lemma OnlyLine(text: string, p: string -> bool)
    requires !HasNewline(text)
    ensures SomeLine(text, p) <==> p(text)
  {
    assert text[0..|text|] == text;
    assert LineAt(text, 0, |text|);
    forall i, j | LineAt(text, i, j)
      ensures i == 0 && j == |text|
    {
    }
  }

  /** The lines behind a newline are those of the text behind it. */
  lemma LineBehind(text: string, n: nat, i: nat, j: nat)
    requires n < |text| && text[n] == '\n' && i <= j <= |text| - n - 1
    ensures var rest := text[n + 1..];
            && (LineAt(rest, i, j) <==> LineAt(text, n + 1 + i, n + 1 + j))
            && rest[i..j] == text[n + 1 + i..n + 1 + j]
  {
    var rest := text[n + 1..];
    assert forall k :: 0 <= k < |rest| ==> rest[k] == text[n + 1 + k];
    if LineAt(rest, i, j) {
      forall k | n + 1 + i <= k < n + 1 + j
        ensures text[k] != '\n'
      {
        assert rest[k - n - 1] == text[k];
      }
    }
  }

  lemma FirstOrLaterLine(text: string, p: string -> bool)
    requires HasNewline(text)
    ensures var n := FirstNewline(text);
            SomeLine(text, p) <==> p(text[..n]) || SomeLine(text[n + 1..], p)
  {
    var n := FirstNewline(text);
    var rest := text[n + 1..];
    assert LineAt(text, 0, n) && text[0..n] == text[..n];
    if SomeLine(text, p) && !p(text[..n]) {
      var i, j :| LineAt(text, i, j) && p(text[i..j]);
      LineBehind(text, n, i - n - 1, j - n - 1);
    }
    if SomeLine(rest, p) {
      var i, j :| LineAt(rest, i, j) && p(rest[i..j]);
      LineBehind(text, n, i, j);
    }
  }

  lemma {:induction false} LoadedIffLine(text: string, id: TokenId, p: string -> bool)
    requires forall line :: p(line) <==> ParseId(line) == Some(id)
    ensures id in Load(text) <==> SomeLine(text, p)
    decreases |text|
  {
    if HasNewline(text) {
      var n := FirstNewline(text);
      FirstOrLaterLine(text, p);
      FirstLine(IdsIn, text);
      StripCrHarmless(text[..n]);
      LoadedIffLine(text[n + 1..], id, p);
    } else {
      OnlyLine(text, p);
      GatherOne(IdsIn, text);
    }
  }

  /** The ids of a file are those its lines spell, the last line ended or not. */
  lemma LoadedIffSpelled(text: string, id: TokenId)
    ensures id in Load(text) <==> exists i, j :: LineAt(text, i, j) && Spells(text[i..j], id)
  {
    forall line
      ensures Spells(line, id) <==> ParseId(line) == Some(id)
    {
      ParsesIffSpells(line, id);
    }
    LoadedIffLine(text, id, line => Spells(line, id));
  }

  lemma LoadOfHex(id: TokenId)
    ensures Load(Hex(id) + "\n") == {id}
  {
    var line := Hex(id);
    assert !HasNewline(line);
    OneLine(line);
    GatherOne(IdsIn, StripCr(line));
    IdRoundTrip(id);
    assert IsHex(line[31]);
  }

  lemma LoadAppended(text: string, id: TokenId)
    ensures Load(Ended(text) + Hex(id) + "\n") == Load(text) + {id}
  {
    var line := Hex(id);
    IdsIgnoreCr();
    if text != [] && text[|text| - 1] != '\n' {
      GatherEnded(IdsIn, text);
    }
    GatherJoined(IdsIn, Ended(text), line + "\n");
    assert Ended(text) + line + "\n" == Ended(text) + (line + "\n");
    LoadOfHex(id);
  }

  /** For every prior text, ended or not, that was readable, and for no file at all:
      afterwards the file lists what it listed before and the new id. */
  lemma AppendAddsExactlyOne(file: RevocationFile, id: TokenId)
    requires file.OnDisk? ==> file.readable
    ensures var after := Appended(file, id, true);
            Listed(after) == Listed(file) + {id} && (after.OnDisk? ==> after.readable)
  {
    LoadAppended(TextOf(file), id);
    assert Load([]) == {};
    assert id in Listed(file) ==> Listed(file) + {id} == Listed(file);
  }

  /** An unreadable file is written over. The ids listed before are all still listed
      if and only if the file was missing or readable, or the write failed, or it
      listed no other id. */
  lemma AppendKeepsListedIff(file: RevocationFile, id: TokenId, writes: bool)
    ensures Listed(file) <= Listed(Appended(file, id, writes))
       <==> file.NoFile? || file.readable || !writes || Listed(file) <= {id}
  {
    assert Load([]) == {};
    if file.OnDisk? && !file.readable && writes {
      LoadAppended([], id);
    } else if writes {
      AppendAddsExactlyOne(file, id);
    }
  }

  /** The smallest loss: one id listed, the file not readable, another id appended. */
  lemma UnreadableFileLosesIds(a: TokenId, b: TokenId)
    requires a != b
    ensures var file := OnDisk(Hex(a) + "\n", false);
            Listed(file) == {a} && Listed(Appended(file, b, true)) == {b}
  {
    LoadOfHex(a);
    LoadOfHex(b);
    assert Load([]) == {};
    assert [] + Hex(b) + "\n" == Hex(b) + "\n";
  }
}
