/** The built ClientHello parses back, in whatever order its extensions stand;
    and the loops of the two sides compute what the model says. */
module ClientHelloProof {
  import opened Bytes
  import opened Shuffle
  import opened ClientHello
  import Server = ServerHello

  // ------------------------------------------------------------------- lengths

  function SizeUpTo(list: seq<Entry>, k: nat): (n: nat)
    requires k <= |list|
  {
    if k == 0 then 0 else SizeUpTo(list, k - 1) + 4 + |list[k - 1].data|
  }

  lemma {:induction false} EncodeAllAppend(a: seq<Entry>, b: seq<Entry>)
    ensures EncodeAll(a + b) == EncodeAll(a) + EncodeAll(b)
  {
    if a == [] {
      assert a + b == b;
    } else {
      EncodeAllAppend(a[1..], b);
      assert (a + b)[1..] == a[1..] + b && (a + b)[0] == a[0];
      Associate(Encode(a[0]), EncodeAll(a[1..]), EncodeAll(b));
    }
  }

  lemma EncodeOne(e: Entry)
    ensures EncodeAll([e]) == Encode(e)
  {
    assert EncodeAll([e][1..]) == [];
  }

  lemma {:induction false} SizeIs(list: seq<Entry>, k: nat)
    requires k <= |list|
    ensures |EncodeAll(list[..k])| == SizeUpTo(list, k)
  {
    if k > 0 {
      SizeIs(list, k - 1);
      assert list[..k] == list[..k - 1] + [list[k - 1]];
      EncodeAllAppend(list[..k - 1], [list[k - 1]]);
      EncodeOne(list[k - 1]);
    }
  }

  lemma SizeOfAll(list: seq<Entry>)
    ensures |EncodeAll(list)| == SizeUpTo(list, |list|)
  {
    SizeIs(list, |list|);
    assert list[..|list|] == list;
  }

  lemma SizeWithout(b: seq<Entry>, j: nat)
    requires j < |b|
    ensures |EncodeAll(b)| == 4 + |b[j].data| + |EncodeAll(b[..j] + b[j + 1..])|
  {
    var front, back := b[..j], b[j + 1..];
    assert b == front + [b[j]] + back;
    EncodeAllAppend(front, back);
    EncodeAllAppend(front + [b[j]], back);
    EncodeAllAppend(front, [b[j]]);
    EncodeOne(b[j]);
  }

  lemma Removed<T>(front: seq<T>, x: T, back: seq<T>)
    ensures multiset(front + back) == multiset(front + [x] + back) - multiset{x}
  {
    assert multiset(front + [x] + back) == multiset(front) + multiset{x} + multiset(back);
  }

  lemma Without<T>(a: seq<T>, b: seq<T>) returns (j: nat)
    requires a != [] && multiset(a) == multiset(b)
    ensures j < |b| && b[j] == a[0] && multiset(a[1..]) == multiset(b[..j] + b[j + 1..])
  {
    assert a[0] in multiset(b);
    j :| j < |b| && b[j] == a[0];
    assert a == [] + [a[0]] + a[1..] && b == b[..j] + [a[0]] + b[j + 1..] && a[1..] == [] + a[1..];
    Removed([], a[0], a[1..]);
    Removed(b[..j], a[0], b[j + 1..]);
  }

  /** The order of the entries does not change the length. */
  lemma {:induction false} SameSize(a: seq<Entry>, b: seq<Entry>)
    requires multiset(a) == multiset(b)
    ensures |EncodeAll(a)| == |EncodeAll(b)|
    decreases |a|
  {
    assert |a| == |multiset(a)| == |multiset(b)| == |b|;
    if a != [] {
      var j := Without(a, b);
      SameSize(a[1..], b[..j] + b[j + 1..]);
      SizeWithout(b, j);
    }
  }

  lemma SizeOfThree(x: Entry, y: Entry, z: Entry)
    ensures |EncodeAll([x, y, z])| == 12 + |x.data| + |y.data| + |z.data|
  {
    assert [x, y, z] == [x] + [y] + [z];
    EncodeAllAppend([x] + [y], [z]);
    EncodeAllAppend([x], [y]);
    EncodeOne(x);
    EncodeOne(y);
    EncodeOne(z);
  }

  lemma ShareSize(g: u16, mlkem: seq<byte>, public: Key)
    requires |mlkem| == MLKEM768_PUBLIC_LEN
    ensures |EncodeAll(Shares(g, mlkem, public))| == 1261
  {
    SizeOfThree(Entry(g, [0]), Entry(Server.GROUP_X25519_MLKEM768, mlkem + public), Entry(Server.GROUP_X25519, public));
  }

  lemma AlpnSize()
    ensures |EncodeProtocols([H2])| == 3 && |EncodeProtocols([H2, HTTP11])| == 12
  {
    assert [H2][1..] == [] && [H2, HTTP11][1..] == [HTTP11] && [HTTP11][1..] == [];
  }

  function MiddleLen(k: nat, sni: nat, ech: nat): (n: nat)
  {
    if k == 0 then 5 + sni else if k == 2 then 1 else if k == 3 then 12 else if k == 4 then 2
    else if k == 6 then 14 else if k == 7 then 5 else if k == 8 then 18 else if k == 10 then 1263
    else if k == 11 then 2 else if k == 12 then 7 else if k == 13 then 3 else if k == 14 then 5
    else if k == 15 then 42 + ech else 0
  }

  lemma DataLen(k: nat, sni: seq<byte>, public: Key, d: Draws)
    requires k < 16 && ValidDraws(d)
    ensures |MiddleData(k, sni, public, d)| == MiddleLen(k, |sni|, |d.ech.payload|)
  {
    ShareSize(GreasePair(d.first, d.second).0, d.mlkem, public);
    AlpnSize();
  }

  function SumLen(k: nat, sni: nat, ech: nat): (n: nat)
    decreases k
  {
    if k == 0 then 0 else SumLen(k - 1, sni, ech) + 4 + MiddleLen(k - 1, sni, ech)
  }

  lemma {:induction false} MiddleSizeUpTo(k: nat, sni: seq<byte>, public: Key, d: Draws)
    requires k <= 16 && ValidDraws(d)
    ensures SizeUpTo(Middle(sni, public, d), k) == SumLen(k, |sni|, |d.ech.payload|)
  {
    if k > 0 {
      MiddleSizeUpTo(k - 1, sni, public, d);
      DataLen(k - 1, sni, public, d);
    }
  }

  lemma SumIs(sni: nat, ech: nat)
    ensures SumLen(16, sni, ech) == 1443 + sni + ech
  {
    assert SumLen(4, sni, ech) == 34 + sni;
    assert SumLen(8, sni, ech) == 71 + sni;
    assert SumLen(12, sni, ech) == 1370 + sni;
  }

  /** Whether every 16-bit length field of the hello holds its length. */
  predicate FieldsFit(sni: seq<byte>, d: Draws)
  {
    1562 + |sni| + |d.ech.payload| < 0x1_0000
  }

  lemma HelloSize(random: Key, sessionId: Key, sni: seq<byte>, public: Key, d: Draws, middle: seq<Entry>)
    requires ValidDraws(d) && multiset(middle) == multiset(Middle(sni, public, d))
    ensures |EncodeAll(AllExts(middle, d))| == 1453 + |sni| + |d.ech.payload|
    ensures |Hello(random, sessionId, middle, d)| == 1562 + |sni| + |d.ech.payload|
  {
    MiddleSizeUpTo(16, sni, public, d);
    SizeOfAll(Middle(sni, public, d));
    SumIs(|sni|, |d.ech.payload|);
    SameSize(middle, Middle(sni, public, d));
    var (g0, g1) := GreasePair(d.first, d.second);
    EncodeAllAppend([Entry(g0, [0])] + middle, [Entry(g1, [0])]);
    EncodeAllAppend([Entry(g0, [0])], middle);
    EncodeOne(Entry(g0, [0]));
    EncodeOne(Entry(g1, [0]));
  }

  // ---------------------------------------------------------------- extensions

  lemma {:induction false} PartFits(list: seq<Entry>, e: Entry)
    requires e in list
    ensures |e.data| <= |EncodeAll(list)|
  {
    if list[0] != e {
      PartFits(list[1..], e);
    }
  }

  /** Each type the parser looks for occurs once, whatever the order. */
  lemma OnlyOne(sni: seq<byte>, public: Key, d: Draws, middle: seq<Entry>, k: nat)
    requires multiset(middle) == multiset(Middle(sni, public, d)) && (k == 0 || k == 6 || k == 10)
    ensures LastData(AllExts(middle, d), MiddleTag(k)) == Some(MiddleData(k, sni, public, d))
  {
    var built, all := Middle(sni, public, d), AllExts(middle, d);
    var e := built[k];
    assert e in multiset(middle);
    assert e in all;
    forall x | x in all && x.tag == e.tag
      ensures x == e
    {
      assert x in middle;
      assert x in multiset(built);
    }
    LastDataOfOnly(all, e);
  }

  lemma ShareRoundTrip(g: u16, mlkem: seq<byte>, public: Key)
    requires IsGrease(g) && |mlkem| == MLKEM768_PUBLIC_LEN
    ensures ParseShare(SharePayload(g, mlkem, public)) == Some(public)
  {
    var list := Shares(g, mlkem, public);
    ShareSize(g, mlkem, public);
    UnsizedOfSized(EncodeAll(list));
    ShareOfEncoded(list);
    assert KeyIn(list[0]).None?;
    assert (mlkem + public)[MLKEM768_PUBLIC_LEN..] == public;
    assert FirstKey(list[1..]) == KeyIn(list[1]);
  }

  lemma InfoOfBuilt(sni: seq<byte>, public: Key, d: Draws, middle: seq<Entry>)
    requires ValidDraws(d) && Utf8(sni) && FieldsFit(sni, d)
    requires multiset(middle) == multiset(Middle(sni, public, d))
    ensures InfoOf(AllExts(middle, d)) == Info(Some(sni), Some(public), [H2, HTTP11])
  {
    OnlyOne(sni, public, d, middle, 0);
    OnlyOne(sni, public, d, middle, 6);
    OnlyOne(sni, public, d, middle, 10);
    SniRoundTrip(sni);
    ShareRoundTrip(GreasePair(d.first, d.second).0, d.mlkem, public);
    AlpnSize();
    AlpnRoundTrip([H2, HTTP11]);
  }

  // ------------------------------------------------------------ the whole hello

  lemma TailFields(g: u16, extLen: nat)
    ensures var z := Tail(g, extLen);
            U16(z[0], z[1]) == 32 && z[34] == 1 && (extLen < 0x1_0000 ==> U16(z[36], z[37]) == extLen)
  {
    var z, ciphers, len, n := Tail(g, extLen), U16List(Ciphers(g)), Put16(extLen), Put16(32);
    assert z[0] == ciphers[0] == n[0] && z[1] == ciphers[1] == n[1] && z[36] == len[0] && z[37] == len[1];
  }

  /** Where the fields of the body stand. */
  lemma BodyFields(random: Key, sessionId: Key, g: u16, exts: seq<byte>)
    ensures var b := Body(random, sessionId, g, exts);
            && b[2..34] == random && b[34] == 32 && b[35..67] == sessionId && U16(b[67], b[68]) == 32
            && b[101] == 1 && (|exts| < 0x1_0000 ==> U16(b[103], b[104]) == |exts|) && b[105..] == exts
  {
    var b, head, tail := Body(random, sessionId, g, exts), Head(random), Tail(g, |exts|);
    TailFields(g, |exts|);
    Parts(head, sessionId, tail, exts);
    assert b[2..34] == head[2..34];
    assert b[67] == tail[0] && b[68] == tail[1] && b[101] == tail[34] && b[103] == tail[36] && b[104] == tail[37];
  }

  lemma Parts(a: seq<byte>, x: seq<byte>, z: seq<byte>, e: seq<byte>)
    ensures var b, i, j := a + x + z + e, |a| + |x|, |a| + |x| + |z|;
            b[..|a|] == a && b[|a|..i] == x && b[i..j] == z && b[j..] == e
  {
  }

  lemma {:induction false} ParseBuiltBody(random: Key, sessionId: Key, g: u16, exts: seq<byte>, list: seq<Entry>)
    requires |exts| < 0x1_0000 && Entries(exts) == Some(list)
    ensures ParseBody(Body(random, sessionId, g, exts)) == Some(ViewOf(random, sessionId, InfoOf(list)))
  {
    BodyFields(random, sessionId, g, exts);
    var b := Body(random, sessionId, g, exts);
    assert b[105..105 + |exts|] == b[105..];
  }

  lemma Framed(len: seq<byte>, body: seq<byte>)
    requires |len| == 3
    ensures var h := [1] + len + body;
            && |h| == 4 + |body| && h[0] == 1 && h[1] == len[0] && h[2] == len[1] && h[3] == len[2]
            && h[4..4 + |body|] == body
  {
  }

  lemma ParseRecord(h: seq<byte>)
    requires |h| < 0x1_0000
    ensures HandshakeFromRecord(Record(h)) == Some(h)
  {
    var r, len := Record(h), Put16(|h|);
    assert r[3] == len[0] && r[4] == len[1] && r[5..5 + |h|] == h;
  }

  /** Whatever order the shuffle leaves, the server reads what the client wrote:
      random, session id at offset 39, name, key and protocols. */
  lemma HelloRoundTrip(random: Key, sessionId: Key, sni: seq<byte>, public: Key, d: Draws, middle: seq<Entry>)
    requires ValidDraws(d) && Utf8(sni) && FieldsFit(sni, d)
    requires multiset(middle) == multiset(Middle(sni, public, d))
    ensures var h := Hello(random, sessionId, middle, d);
            && HandshakeFromRecord(Record(h)) == Some(h)
            && |h| >= 71 && h[SESSION_ID_OFFSET..SESSION_ID_OFFSET + 32] == sessionId
            && Parse(Record(h)) == Some(View(random, sessionId, Some(sni), Some(public), [H2, HTTP11]))
  {
    var g, all := GreasePair(d.first, d.second).0, AllExts(middle, d);
    var exts := EncodeAll(all);
    HelloSize(random, sessionId, sni, public, d, middle);
    AllShort(all);
    EntriesOfEncoded(all);
    InfoOfBuilt(sni, public, d, middle);
    ParseBuiltBody(random, sessionId, g, exts, all);
    var body := Body(random, sessionId, g, exts);
    Framed(Put24(|body|), body);
    SessionIdAt(random, sessionId, g, exts);
    ParseRecord(Hello(random, sessionId, middle, d));
  }

  lemma AllShort(all: seq<Entry>)
    requires |EncodeAll(all)| < 0x1_0000
    ensures Short(all)
  {
    forall e | e in all
      ensures |e.data| < 0x1_0000
    {
      PartFits(all, e);
    }
  }

  lemma SessionIdAt(random: Key, sessionId: Key, g: u16, exts: seq<byte>)
    ensures var h := Handshake(Body(random, sessionId, g, exts));
            && h[SESSION_ID_OFFSET..SESSION_ID_OFFSET + 32] == sessionId
            && h[..SESSION_ID_OFFSET] == [1] + Put24(105 + |exts|) + Head(random)
            && h[SESSION_ID_OFFSET + 32..] == Tail(g, |exts|) + exts
  {
    var pre, head, tail := [1] + Put24(105 + |exts|), Head(random), Tail(g, |exts|);
    assert pre + (head + sessionId + tail + exts) == (pre + head) + sessionId + (tail + exts) + [];
    Parts(pre + head, sessionId, tail + exts, []);
  }

  /** Overwriting the session id in place is building with the other one. */
  lemma SessionIdSplice(random: Key, one: Key, other: Key, middle: seq<Entry>, d: Draws)
    ensures var h := Hello(random, one, middle, d);
            |h| >= 71 && h[..SESSION_ID_OFFSET] + other + h[SESSION_ID_OFFSET + 32..] == Hello(random, other, middle, d)
  {
    var g, exts := GreasePair(d.first, d.second).0, EncodeAll(AllExts(middle, d));
    SessionIdAt(random, one, g, exts);
    SessionIdAt(random, other, g, exts);
    InThree(Hello(random, other, middle, d));
  }

  lemma InThree(h: seq<byte>)
    requires |h| >= 71
    ensures h == h[..39] + h[39..71] + h[71..]
  {
  }

  // ------------------------------------------------------------------ the loops

  lemma {:induction false} FirstEntry(b: seq<byte>)
    requires |b| >= 4 && 4 + U16(b[2], b[3]) <= |b|
    ensures var end := 4 + U16(b[2], b[3]); Entries(b) == Then([Entry(U16(b[0], b[1]), b[4..end])], Entries(b[end..]))
  {
  }

  lemma {:induction false} EntryTooLong(b: seq<byte>, done: seq<Entry>)
    requires |b| >= 4 && 4 + U16(b[2], b[3]) > |b|
    ensures Entries(b) == None == Then(done, Entries(b))
  {
  }

  /** The loop of `parse_extensions`. */
  method ParseExtensions(input: seq<byte>) returns (info: Option<Info>)
    ensures info == if Entries(input).None? then None else Some(InfoOf(Entries(input).value))
  {
    var exts, found := input, Info(None, None, []);
    ghost var done: seq<Entry> := [];
    ghost var whole := Entries(input);
    ThenNothing(whole);
    while |exts| >= 4
      invariant whole == Then(done, Entries(exts))
      invariant found == InfoOf(done)
      decreases |exts|
    {
      var typ, end := U16(exts[0], exts[1]), 4 + U16(exts[2], exts[3]);
      if |exts| < end {
        EntryTooLong(exts, done);
        return None;
      }
      FirstEntry(exts);
      ThenOne(done, Entry(typ, exts[4..end]), Entries(exts[end..]));
      found := LookAt(typ, exts[4..end], found, done);
      done := done + [Entry(typ, exts[4..end])];
      exts := exts[end..];
    }
    assert done + [] == done;
    info := Some(found);
  }

  /** What one more extension adds. */
  method LookAt(typ: u16, data: seq<byte>, found: Info, ghost done: seq<Entry>) returns (more: Info)
    requires found == InfoOf(done)
    ensures more == InfoOf(done + [Entry(typ, data)])
  {
    more := found;
    InfoOneMore(done, Entry(typ, data));
    if typ == SERVER_NAME {
      more := more.(sni := ParseSni(data));
    } else if typ == KEY_SHARE {
      var key := FindShare(data);
      more := more.(x25519 := key);
    } else if typ == ALPN {
      var names := ReadAlpn(data);
      more := more.(alpn := names);
    }
  }

  ghost function Then(done: seq<Entry>, r: Option<seq<Entry>>): (all: Option<seq<Entry>>)
  {
    if r.None? then None else Some(done + r.value)
  }

  lemma ThenNothing(r: Option<seq<Entry>>)
    ensures r == Then([], r)
  {
    if r.Some? {
      assert [] + r.value == r.value;
    }
  }

  lemma ThenOne(done: seq<Entry>, e: Entry, r: Option<seq<Entry>>)
    ensures Then(done, Then([e], r)) == Then(done + [e], r)
  {
    if r.Some? {
      assert done + ([e] + r.value) == done + [e] + r.value;
    }
  }

  lemma InfoOneMore(done: seq<Entry>, e: Entry)
    ensures forall tag: u16 :: LastData(done + [e], tag) == if e.tag == tag then Some(e.data) else LastData(done, tag)
  {
    assert (done + [e])[..|done|] == done;
  }

  /** The loop of `parse_alpn`. */
  method ReadAlpn(data: seq<byte>) returns (out: seq<seq<byte>>)
    ensures out == ParseAlpn(data)
  {
    out := [];
    var outer := Unsized(data);
    if outer.None? {
      return;
    }
    var list := outer.value;
    while list != []
      invariant out + Protocols(list) == ParseAlpn(data)
      decreases |list|
    {
      var end := 1 + (list[0] as int);
      if |list| < end {
        break;
      }
      assert out + ([list[1..end]] + Protocols(list[end..])) == out + [list[1..end]] + Protocols(list[end..]);
      out := out + [list[1..end]];
      list := list[end..];
    }
    assert Protocols(list) == [];
    assert out + [] == out;
  }

  /** The loop of `parse_x25519_share`. */
  method FindShare(data: seq<byte>) returns (key: Option<Key>)
    ensures key == ParseShare(data)
  {
    var list := Unsized(data);
    if list.None? {
      return None;
    }
    var shares := list.value;
    while |shares| >= 4
      invariant ShareIn(shares) == ParseShare(data)
      decreases |shares|
    {
      var end := 4 + U16(shares[2], shares[3]);
      if |shares| < end {
        return None;
      }
      var here := KeyIn(Entry(U16(shares[0], shares[1]), shares[4..end]));
      if here.Some? {
        return here;
      }
      shares := shares[end..];
    }
    key := None;
  }

  lemma {:induction false} ConcatOfEncoded(list: seq<Entry>)
    ensures Concat(Map(Encode, list)) == EncodeAll(list)
  {
    if list != [] {
      ConcatOfEncoded(list[1..]);
      assert Map(Encode, list)[1..] == Map(Encode, list[1..]);
    }
  }

  /** `encode_extensions`: every extension is encoded, then they are shuffled in
      place and written out. */
  method EncodeExtensions(sni: seq<byte>, public: Key, d: Draws) returns (out: seq<byte>)
    requires ValidDraws(d)
    ensures out == EncodeAll(AllExts(Shuffled(Middle(sni, public, d), 15, d.order), d))
  {
    var (g0, g1) := GreasePair(d.first, d.second);
    var list := Middle(sni, public, d);
    var middle := new seq<byte>[16](i requires 0 <= i < 16 => Encode(list[i]));
    assert middle[..] == Map(Encode, list);
    ShuffleMiddle(middle, d.order);
    ghost var order := Shuffled(list, 15, d.order);
    ShuffleOfMap(Encode, list, 15, d.order);
    out := WriteAll(Encode(Entry(g0, [0])), middle[..]);
    out := out + Encode(Entry(g1, [0]));
    ConcatOfEncoded(order);
    EncodeAllAppend([Entry(g0, [0])] + order, [Entry(g1, [0])]);
    EncodeAllAppend([Entry(g0, [0])], order);
    EncodeOne(Entry(g0, [0]));
    EncodeOne(Entry(g1, [0]));
  }

  method WriteAll(start: seq<byte>, items: seq<seq<byte>>) returns (out: seq<byte>)
    ensures out == start + Concat(items)
  {
    out := start;
    assert items[..0] == [];
    for i := 0 to |items|
      invariant out == start + Concat(items[..i])
    {
      assert items[..i + 1] == items[..i] + [items[i]];
      ConcatSnoc(items[..i], items[i]);
      out := out + items[i];
    }
    assert items[..|items|] == items;
  }

  // --------------------------------------------------------- which records are read

  /** A handshake record that holds `h`; bytes behind it do not matter. */
  ghost predicate IsRecord(record: seq<byte>, h: seq<byte>)
  {
    |h| < 0x1_0000 && exists version, behind :: |version| == 2 && record == [22] + version + Put16(|h|) + (h + behind)
  }

  /** A ClientHello message with the body `b`. */
  ghost predicate IsHello(h: seq<byte>, b: seq<byte>)
  {
    |b| < 0x100_0000 && exists behind :: h == [1] + Put24(|b|) + (b + behind)
  }

  /** Version, random, session id, cipher suites, compression methods, extensions. */
  ghost predicate IsHelloBody(b: seq<byte>, random: Key, sid: seq<byte>, exts: seq<byte>)
  {
    && |sid| < 0x100 && |exts| < 0x1_0000
    && exists version, suites, methods, behind ::
         && |version| == 2 && |suites| < 0x1_0000 && |methods| < 0x100
         && b == BodyOf(version, random, sid, suites, methods, exts, behind)
  }

  function BodyOf(version: seq<byte>, random: Key, sid: seq<byte>, suites: seq<byte>, methods: seq<byte>, exts: seq<byte>,
                  behind: seq<byte>): (b: seq<byte>)
  {
    version + random + Sized8(sid) + Sized(suites) + Sized8(methods) + Sized(exts) + behind
  }

  function Sized8(data: seq<byte>): (b: seq<byte>)
    ensures |b| == 1 + |data|
  {
    [|data| % 256] + data
  }

  lemma RecordIff(record: seq<byte>, h: seq<byte>)
    ensures HandshakeFromRecord(record) == Some(h) <==> IsRecord(record, h)
  {
    if HandshakeFromRecord(record) == Some(h) {
      var version, behind := record[1..3], record[5 + |h|..];
      Put16OfTwo(record[3], record[4]);
      assert record == [22] + version + Put16(|h|) + (h + behind);
    }
    if IsRecord(record, h) {
      var version, behind :| |version| == 2 && record == [22] + version + Put16(|h|) + (h + behind);
      assert record[5..] == h + behind;
      assert record[5..5 + |h|] == h;
    }
  }

  lemma Put16OfTwo(hi: byte, lo: byte)
    ensures Put16(U16(hi, lo)) == [hi, lo]
  {
  }

  lemma Put24OfThree(a: byte, b: byte, c: byte)
    ensures Put24(U24(a, b, c)) == [a, b, c]
  {
    Put16OfTwo(a, b);
  }

  lemma HelloHolds(h: seq<byte>, b: seq<byte>)
    requires IsHello(h, b)
    ensures |h| >= 4 + |b| && h[0] == 1 && U24(h[1], h[2], h[3]) == |b| && h[4..4 + |b|] == b
  {
    var behind :| h == [1] + Put24(|b|) + (b + behind);
    assert h[4..] == b + behind;
  }

  lemma HelloWith(h: seq<byte>, n: nat)
    requires |h| >= 4 + n && h[0] == 1 && U24(h[1], h[2], h[3]) == n
    ensures IsHello(h, h[4..4 + n])
  {
    var b, behind := h[4..4 + n], h[4 + n..];
    Put24OfThree(h[1], h[2], h[3]);
    assert h == [1] + Put24(|b|) + (b + behind);
  }

  lemma HelloOnly(h: seq<byte>, v: View) returns (b: seq<byte>)
    requires ParseHandshake(h) == Some(v)
    ensures IsHello(h, b) && ParseBody(b) == Some(v)
  {
    var n := U24(h[1], h[2], h[3]);
    b := h[4..4 + n];
    HelloWith(h, n);
  }

  lemma HelloReads(h: seq<byte>, b: seq<byte>)
    requires IsHello(h, b) && |b| >= 38
    ensures ParseHandshake(h) == ParseBody(b)
  {
    HelloHolds(h, b);
  }

  lemma BodyOnly(b: seq<byte>, v: View) returns (exts: seq<byte>)
    requires ParseBody(b) == Some(v)
    ensures IsHelloBody(b, v.random, v.sessionId, exts) && Entries(exts).Some?
    ensures v == ViewOf(v.random, v.sessionId, InfoOf(Entries(exts).value))
  {
    var c := CutsOf(b).value;
    exts := b[c.from..c.to];
    var j, k := BodyCuts(b);
    CutIntoFields(b, c.sid, j, k, c.to - c.from);
  }

  lemma BodyCuts(b: seq<byte>) returns (j: nat, k: nat)
    requires CutsOf(b).Some?
    ensures var c := CutsOf(b).value;
            && c.sid + 2 <= j < j + 1 <= k && c.from == k + 2 && c.sid == 35 + (b[34] as int)
            && j == c.sid + 2 + U16(b[c.sid], b[c.sid + 1]) && k == j + 1 + b[j] && c.to - c.from == U16(b[k], b[k + 1])
  {
    var i := 35 + (b[34] as int);
    j := i + 2 + U16(b[i], b[i + 1]);
    k := j + 1 + b[j];
  }

  lemma CutIntoFields(b: seq<byte>, i: nat, j: nat, k: nat, n: nat)
    requires 35 <= i < i + 2 <= j < j + 1 <= k && k + 2 + n <= |b| && i == 35 + (b[34] as int)
    requires j == i + 2 + U16(b[i], b[i + 1]) && k == j + 1 + b[j] && n == U16(b[k], b[k + 1])
    ensures IsHelloBody(b, b[2..34], b[35..i], b[k + 2..k + 2 + n])
  {
    var sid, suites, methods, exts := b[35..i], b[i + 2..j], b[j + 1..k], b[k + 2..k + 2 + n];
    Put16OfTwo(b[i], b[i + 1]);
    Put16OfTwo(b[k], b[k + 1]);
    CutUp(b, i, j, k, n);
    assert [b[34]] + sid == Sized8(sid) && [b[j]] + methods == Sized8(methods);
    assert [b[i], b[i + 1]] + suites == Sized(suites) && [b[k], b[k + 1]] + exts == Sized(exts);
    assert b == BodyOf(b[..2], b[2..34], sid, suites, methods, exts, b[k + 2 + n..]);
  }

  lemma CutUp(b: seq<byte>, i: nat, j: nat, k: nat, n: nat)
    requires 35 <= i && i + 2 <= j && j + 1 <= k && k + 2 + n <= |b|
    ensures b == b[..2] + b[2..34] + ([b[34]] + b[35..i]) + ([b[i], b[i + 1]] + b[i + 2..j]) + ([b[j]] + b[j + 1..k])
                 + ([b[k], b[k + 1]] + b[k + 2..k + 2 + n]) + b[k + 2 + n..]
  {
  }

  lemma BodyReads(b: seq<byte>, random: Key, sid: seq<byte>, exts: seq<byte>)
    requires IsHelloBody(b, random, sid, exts) && Entries(exts).Some?
    ensures ParseBody(b) == Some(ViewOf(random, sid, InfoOf(Entries(exts).value))) && |b| >= 38
  {
    var c := CutsIn(b, random, sid, exts);
    ReadsCuts(b, c, random, sid, exts);
  }

  lemma CutsIn(b: seq<byte>, random: Key, sid: seq<byte>, exts: seq<byte>) returns (c: Cuts)
    requires IsHelloBody(b, random, sid, exts)
    ensures CutsOf(b) == Some(c) && |b| >= 38
    ensures b[2..34] == random && b[35..c.sid] == sid && b[c.from..c.to] == exts
  {
    var i, j, k := FieldsIn(b, random, sid, exts);
    CutsAre(b, i, j, k, |exts|);
    c := CutsOf(b).value;
  }

  lemma ReadsCuts(b: seq<byte>, c: Cuts, random: Key, sid: seq<byte>, exts: seq<byte>)
    requires CutsOf(b) == Some(c) && Entries(exts).Some?
    requires b[2..34] == random && b[35..c.sid] == sid && b[c.from..c.to] == exts
    ensures ParseBody(b) == Some(ViewOf(random, sid, InfoOf(Entries(exts).value)))
  {
    var list := Entries(exts);
    assert Entries(b[c.from..c.to]) == list;
  }

  lemma FieldsIn(b: seq<byte>, random: Key, sid: seq<byte>, exts: seq<byte>) returns (i: nat, j: nat, k: nat)
    requires IsHelloBody(b, random, sid, exts)
    ensures 35 <= i < i + 2 <= j < j + 1 <= k && k + 2 + |exts| <= |b| && i == 35 + (b[34] as int)
    ensures j == i + 2 + U16(b[i], b[i + 1]) && k == j + 1 + b[j] && |exts| == U16(b[k], b[k + 1])
    ensures b[2..34] == random && b[35..i] == sid && b[k + 2..k + 2 + |exts|] == exts
  {
    var version, suites, methods, behind :|
      && |version| == 2 && |suites| < 0x1_0000 && |methods| < 0x100
      && b == BodyOf(version, random, sid, suites, methods, exts, behind);
    i := 35 + |sid|;
    j := i + 2 + |suites|;
    k := j + 1 + |methods|;
    FieldsAre(version, random, sid, suites, methods, exts, behind);
  }

  lemma FieldsAre(version: seq<byte>, random: Key, sid: seq<byte>, suites: seq<byte>, methods: seq<byte>,
                  exts: seq<byte>, behind: seq<byte>)
    requires |version| == 2 && |sid| < 0x100 && |suites| < 0x1_0000 && |methods| < 0x100 && |exts| < 0x1_0000
    ensures var b := BodyOf(version, random, sid, suites, methods, exts, behind);
            var i, j, k := 35 + |sid|, 37 + |sid| + |suites|, 38 + |sid| + |suites| + |methods|;
            && |b| >= k + 2 + |exts| && b[34] == |sid| && U16(b[i], b[i + 1]) == |suites| && b[j] == |methods|
            && U16(b[k], b[k + 1]) == |exts|
            && b[2..34] == random && b[35..i] == sid && b[k + 2..k + 2 + |exts|] == exts
  {
    ReadUp(version, random, Sized8(sid), Sized(suites), Sized8(methods), Sized(exts), behind);
    LengthsOf(sid, suites, methods, exts);
  }

  lemma LengthsOf(sid: seq<byte>, suites: seq<byte>, methods: seq<byte>, exts: seq<byte>)
    requires |sid| < 0x100 && |suites| < 0x1_0000 && |methods| < 0x100 && |exts| < 0x1_0000
    ensures Sized8(sid)[0] == |sid| && Sized8(sid)[1..] == sid && Sized8(methods)[0] == |methods|
    ensures U16(Sized(suites)[0], Sized(suites)[1]) == |suites|
    ensures U16(Sized(exts)[0], Sized(exts)[1]) == |exts| && Sized(exts)[2..] == exts
  {
  }

  lemma CutsAre(b: seq<byte>, i: nat, j: nat, k: nat, n: nat)
    requires 35 <= i < i + 2 <= j < j + 1 <= k && k + 2 + n <= |b| && i == 35 + (b[34] as int)
    requires j == i + 2 + U16(b[i], b[i + 1]) && k == j + 1 + b[j] && n == U16(b[k], b[k + 1])
    ensures CutsOf(b) == Some(Cuts(i, k + 2, k + 2 + n))
  {
  }

  lemma ReadUp(version: seq<byte>, random: seq<byte>, s: seq<byte>, u: seq<byte>, m: seq<byte>, e: seq<byte>, behind: seq<byte>)
    requires |version| == 2 && |random| == 32 && |s| >= 1 && |u| >= 2 && |m| >= 1 && |e| >= 2
    ensures var b := version + random + s + u + m + e + behind;
            var i, j, k := 34 + |s|, 34 + |s| + |u|, 34 + |s| + |u| + |m|;
            && |b| == k + |e| + |behind| && b[2..34] == random && b[34] == s[0] && b[35..i] == s[1..]
            && b[i] == u[0] && b[i + 1] == u[1] && b[j] == m[0]
            && b[k] == e[0] && b[k + 1] == e[1] && b[k + 2..k + |e|] == e[2..]
  {
  }

  /** Exactly those records are read that hold a ClientHello with well-formed extensions,
      and what is read is its random, its session id and what the extensions say. */
  lemma ParsesIff(record: seq<byte>, v: View)
    ensures Parse(record) == Some(v)
       <==> exists h, b, exts ::
              && IsRecord(record, h) && IsHello(h, b) && IsHelloBody(b, v.random, v.sessionId, exts)
              && Entries(exts).Some? && v == ViewOf(v.random, v.sessionId, InfoOf(Entries(exts).value))
  {
    if Parse(record) == Some(v) {
      var h := HandshakeFromRecord(record).value;
      RecordIff(record, h);
      var b := HelloOnly(h, v);
      var exts := BodyOnly(b, v);
    }
    forall h, b, exts |
      && IsRecord(record, h) && IsHello(h, b) && IsHelloBody(b, v.random, v.sessionId, exts)
      && Entries(exts).Some? && v == ViewOf(v.random, v.sessionId, InfoOf(Entries(exts).value))
      ensures Parse(record) == Some(v)
    {
      BodyReads(b, v.random, v.sessionId, exts);
      HelloReads(h, b);
      RecordIff(record, h);
    }
  }
}
