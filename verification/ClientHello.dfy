/** The ClientHello (section 4.1.2 of RFC 8446) as the client builds it, with its
    extensions in a random order, and as the server parses it. */
module ClientHello {
  import opened Bytes
  import opened Shuffle
  import Server = ServerHello

  type Key = Server.Key

  const SESSION_ID_OFFSET := 39
  const SERVER_NAME: u16 := 0
  const ALPN: u16 := 16
  const KEY_SHARE: u16 := 51
  const MLKEM768_PUBLIC_LEN := 1184

  datatype View = View(random: Key, sessionId: seq<byte>, sni: Option<seq<byte>>, x25519: Option<Key>,
                       alpn: seq<seq<byte>>)

  // -------------------------------------------------------- tagged length-data

  /** An extension, or an entry of a key share list: both are a tag, a length
      and the data. */
  datatype Entry = Entry(tag: u16, data: seq<byte>)

  function Encode(e: Entry): (b: seq<byte>)
    ensures |b| == 4 + |e.data|
  {
    Put16(e.tag) + Put16(|e.data|) + e.data
  }

  function EncodeAll(list: seq<Entry>): (b: seq<byte>)
  {
    if list == [] then [] else Encode(list[0]) + EncodeAll(list[1..])
  }

  predicate Short(list: seq<Entry>)
  {
    forall e :: e in list ==> |e.data| < 0x1_0000
  }

  /** The entries of `b`; under four bytes at the end are ignored, data past the
      end are an error. */
  function Entries(b: seq<byte>): (r: Option<seq<Entry>>)
  {
    if |b| < 4 then Some([])
    else
      var end := 4 + U16(b[2], b[3]);
      if end > |b| then None
      else
        var rest := Entries(b[end..]);
        if rest.None? then None else Some([Entry(U16(b[0], b[1]), b[4..end])] + rest.value)
  }

  lemma FourParts(t: seq<byte>, l: seq<byte>, data: seq<byte>, rest: seq<byte>)
    requires |t| == |l| == 2
    ensures var b, end := t + l + data + rest, 4 + |data|;
            && |b| >= end && b[0] == t[0] && b[1] == t[1] && b[2] == l[0] && b[3] == l[1]
            && b[4..end] == data && b[end..] == rest
  {
  }

  lemma EncodedHead(e: Entry, rest: seq<byte>)
    requires |e.data| < 0x1_0000
    ensures var b, end := Encode(e) + rest, 4 + |e.data|;
            && |b| >= end && U16(b[0], b[1]) == e.tag && U16(b[2], b[3]) == |e.data|
            && b[4..end] == e.data && b[end..] == rest
  {
    FourParts(Put16(e.tag), Put16(|e.data|), e.data, rest);
  }

  /** Parsing undoes encoding. */
  lemma {:induction false} EntriesOfEncoded(list: seq<Entry>)
    requires Short(list)
    ensures Entries(EncodeAll(list)) == Some(list)
  {
    if list != [] {
      EncodedHead(list[0], EncodeAll(list[1..]));
      EntriesOfEncoded(list[1..]);
      assert list == [Entry(list[0].tag, list[0].data)] + list[1..];
    }
  }

  // ------------------------------------------------------------- three payloads

  /** The data of the last entry with a tag: a later one overwrites. */
  function LastData(list: seq<Entry>, tag: u16): (d: Option<seq<byte>>)
  {
    if list == [] then None
    else if list[|list| - 1].tag == tag then Some(list[|list| - 1].data)
    else LastData(list[..|list| - 1], tag)
  }

  /** With one entry of its tag the order of the list does not matter. */
  lemma {:induction false} LastDataOfOnly(list: seq<Entry>, e: Entry)
    requires e in list && forall x :: x in list && x.tag == e.tag ==> x == e
    ensures LastData(list, e.tag) == Some(e.data)
  {
    if list[|list| - 1] != e {
      var front := list[..|list| - 1];
      assert list == front + [list[|list| - 1]];
      LastDataOfOnly(front, e);
    }
  }

  /** A list behind its 16-bit length. */
  function Sized(list: seq<byte>): (data: seq<byte>)
    ensures |data| == 2 + |list|
  {
    Put16(|list|) + list
  }

  function Unsized(data: seq<byte>): (list: Option<seq<byte>>)
    ensures list.Some? ==> 2 + |list.value| <= |data|
  {
    if |data| < 2 || |data| < 2 + U16(data[0], data[1]) then None else Some(data[2..2 + U16(data[0], data[1])])
  }

  lemma UnsizedOfSized(list: seq<byte>)
    requires |list| < 0x1_0000
    ensures Unsized(Sized(list)) == Some(list)
  {
    var data, len := Sized(list), Put16(|list|);
    assert data[0] == len[0] && data[1] == len[1] && data[2..2 + |list|] == list;
  }

  function ParseSni(data: seq<byte>): (name: Option<seq<byte>>)
    ensures name.Some? ==> Utf8(name.value)
  {
    var list := Unsized(data);
    if |data| < 5 || list.None? || list.value == [] || list.value[0] != 0 then None
    else
      var name := Unsized(list.value[1..]);
      if name.None? || !Utf8(name.value) then None else name
  }

  function SniPayload(host: seq<byte>): (data: seq<byte>)
    ensures |data| == 5 + |host|
  {
    Sized([0] + Sized(host))
  }

  lemma ParseSniIs(data: seq<byte>, list: seq<byte>, name: seq<byte>)
    requires |data| >= 5 && Unsized(data) == Some(list) && list != [] && list[0] == 0
    requires Unsized(list[1..]) == Some(name) && Utf8(name)
    ensures ParseSni(data) == Some(name)
  {
  }

  lemma SniRoundTrip(host: seq<byte>)
    requires Utf8(host) && 3 + |host| < 0x1_0000
    ensures ParseSni(SniPayload(host)) == Some(host)
  {
    var list := [0] + Sized(host);
    UnsizedOfSized(list);
    UnsizedOfSized(host);
    assert list[1..] == Sized(host);
    ParseSniIs(SniPayload(host), list, host);
  }

  /** Protocol names up to the first that runs past the end. */
  function Protocols(list: seq<byte>): (names: seq<seq<byte>>)
  {
    if list == [] then []
    else
      var end := 1 + (list[0] as int);
      if |list| < end then [] else [list[1..end]] + Protocols(list[end..])
  }

  function ParseAlpn(data: seq<byte>): (names: seq<seq<byte>>)
  {
    var list := Unsized(data);
    if list.None? then [] else Protocols(list.value)
  }

  function EncodeProtocols(names: seq<seq<byte>>): (b: seq<byte>)
  {
    if names == [] then [] else [|names[0]| % 256] + names[0] + EncodeProtocols(names[1..])
  }

  function AlpnList(names: seq<seq<byte>>): (data: seq<byte>)
    ensures |data| == 2 + |EncodeProtocols(names)|
  {
    Sized(EncodeProtocols(names))
  }

  lemma {:induction false} ProtocolsOfEncoded(names: seq<seq<byte>>)
    requires forall p :: p in names ==> |p| < 256
    ensures Protocols(EncodeProtocols(names)) == names
  {
    if names != [] {
      ProtocolsOfEncoded(names[1..]);
      assert names[0] in names && |names[0]| % 256 == |names[0]|;
      OneProtocol(|names[0]|, names[0], EncodeProtocols(names[1..]));
      assert names == [names[0]] + names[1..];
    }
  }

  lemma OneProtocol(len: byte, name: seq<byte>, rest: seq<byte>)
    requires len == |name|
    ensures Protocols([len] + name + rest) == [name] + Protocols(rest)
  {
    var b := [len] + name + rest;
    assert b[1..1 + |name|] == name && b[1 + |name|..] == rest;
  }

  lemma AlpnRoundTrip(names: seq<seq<byte>>)
    requires (forall p :: p in names ==> |p| < 256) && |EncodeProtocols(names)| < 0x1_0000
    ensures ParseAlpn(AlpnList(names)) == names
  {
    UnsizedOfSized(EncodeProtocols(names));
    ProtocolsOfEncoded(names);
  }

  /** The X25519 key in one share: the whole, or the end of the hybrid. */
  function KeyIn(e: Entry): (k: Option<Key>)
  {
    var n := |e.data|;
    if e.tag == Server.GROUP_X25519 && n == 32 then Some(e.data)
    else if e.tag == Server.GROUP_X25519_MLKEM768 && n >= 32 then Some(e.data[n - 32..])
    else None
  }

  /** Of the two groups we know, and of no other. */
  lemma KeyInIs(group: u16, data: seq<byte>)
    ensures KeyIn(Entry(group, data)).Some? <==> (group == 29 && |data| == 32) || (group == 4588 && |data| >= 32)
    ensures KeyIn(Entry(group, data)).Some? ==> exists front :: data == front + KeyIn(Entry(group, data)).value
  {
    if KeyIn(Entry(group, data)).Some? {
      assert data == data[..|data| - 32] + KeyIn(Entry(group, data)).value;
    }
  }

  /** The first share with a key wins; what follows it is not looked at. */
  function ShareIn(b: seq<byte>): (k: Option<Key>)
  {
    if |b| < 4 then None
    else
      var end := 4 + U16(b[2], b[3]);
      if end > |b| then None
      else
        var here := KeyIn(Entry(U16(b[0], b[1]), b[4..end]));
        if here.Some? then here else ShareIn(b[end..])
  }

  function ParseShare(data: seq<byte>): (k: Option<Key>)
  {
    var list := Unsized(data);
    if list.None? then None else ShareIn(list.value)
  }

  function FirstKey(list: seq<Entry>): (k: Option<Key>)
  {
    if list == [] then None else if KeyIn(list[0]).Some? then KeyIn(list[0]) else FirstKey(list[1..])
  }

  lemma {:induction false} ShareOfEncoded(list: seq<Entry>)
    requires Short(list)
    ensures ShareIn(EncodeAll(list)) == FirstKey(list)
  {
    if list != [] {
      EncodedHead(list[0], EncodeAll(list[1..]));
      assert Entry(list[0].tag, list[0].data) == list[0];
      ShareOfEncoded(list[1..]);
    }
  }

  // ------------------------------------------------------------------- parsing

  datatype Info = Info(sni: Option<seq<byte>>, x25519: Option<Key>, alpn: seq<seq<byte>>)

  function InfoOf(list: seq<Entry>): (i: Info)
  {
    var sni, share, alpn := LastData(list, SERVER_NAME), LastData(list, KEY_SHARE), LastData(list, ALPN);
    Info(if sni.None? then None else ParseSni(sni.value),
         if share.None? then None else ParseShare(share.value),
         if alpn.None? then [] else ParseAlpn(alpn.value))
  }

  /** Where the session id ends, and where the extensions start and end. */
  datatype Cuts = Cuts(sid: nat, from: nat, to: nat)

  function CutsOf(b: seq<byte>): (c: Option<Cuts>)
    ensures c.Some? ==> 35 <= c.value.sid <= c.value.from <= c.value.to <= |b|
  {
    if |b| < 35 then None
    else
      var i := 35 + (b[34] as int);
      if |b| < i + 2 then None
      else
        var j := i + 2 + U16(b[i], b[i + 1]);
        if |b| < j + 1 then None
        else
          var k := j + 1 + b[j];
          if |b| < k + 2 then None
          else
            var n := U16(b[k], b[k + 1]);
            if |b| < k + 2 + n then None else Some(Cuts(i, k + 2, k + 2 + n))
  }

  function ParseBody(b: seq<byte>): (v: Option<View>)
  {
    var c := CutsOf(b);
    if c.None? then None
    else
      var list := Entries(b[c.value.from..c.value.to]);
      if list.None? then None else Some(ViewOf(b[2..34], b[35..c.value.sid], InfoOf(list.value)))
  }

  function ViewOf(random: Key, sessionId: seq<byte>, info: Info): (v: View)
  {
    View(random, sessionId, info.sni, info.x25519, info.alpn)
  }

  function ParseHandshake(h: seq<byte>): (v: Option<View>)
  {
    if |h| < 42 || h[0] != 1 then None
    else
      var n := U24(h[1], h[2], h[3]);
      if |h| < 4 + n then None else ParseBody(h[4..4 + n])
  }

  function HandshakeFromRecord(record: seq<byte>): (h: Option<seq<byte>>)
  {
    if |record| < 5 || record[0] != 0x16 then None
    else
      var n := U16(record[3], record[4]);
      if |record| < 5 + n then None else Some(record[5..5 + n])
  }

  function Parse(record: seq<byte>): (v: Option<View>)
  {
    var h := HandshakeFromRecord(record);
    if h.None? then None else ParseHandshake(h.value)
  }

  // ------------------------------------------------------------------ building

  const H2: seq<byte> := [0x68, 0x32]
  const HTTP11: seq<byte> := [0x68, 0x74, 0x74, 0x70, 0x2f, 0x31, 0x2e, 0x31]

  /** What the client draws from its random source besides `random` itself. */
  datatype Draws = Draws(first: byte, second: byte, mlkem: seq<byte>, ech: Ech, order: seq<byte>)

  datatype Ech = Ech(config: byte, enc: seq<byte>, size: byte, payload: seq<byte>)

  ghost predicate ValidDraws(d: Draws)
  {
    && |d.mlkem| == MLKEM768_PUBLIC_LEN && |d.order| == 15
    && |d.ech.enc| == 32 && |d.ech.payload| == 144 + 32 * (d.ech.size % 4)
  }

  predicate IsGrease(g: u16)
  {
    exists k :: 0 <= k < 16 && g == Grease(k)
  }

  /** The sixteen values 0x0a0a, 0x1a1a, ..., 0xfafa. */
  function Grease(k: nat): (g: u16)
    requires k < 16
    ensures g == 0x0a0a + 0x1010 * k
  {
    U16(16 * k + 10, 16 * k + 10)
  }

  /** Two different GREASE values, whatever the two random bytes. */
  function GreasePair(first: byte, second: byte): (p: (u16, u16))
    ensures IsGrease(p.0) && IsGrease(p.1) && p.0 != p.1
  {
    var i, j := first % 16, second % 16;
    (Grease(i), Grease(if i == j then (i + 8) % 16 else j))
  }

  function PutAll16(values: seq<u16>): (b: seq<byte>)
    ensures |b| == 2 * |values|
  {
    if values == [] then [] else Put16(values[0]) + PutAll16(values[1..])
  }

  function U16List(values: seq<u16>): (b: seq<byte>)
    ensures |b| == 2 + 2 * |values|
  {
    Sized(PutAll16(values))
  }

  function Shares(g: u16, mlkem: seq<byte>, public: Key): (list: seq<Entry>)
  {
    [Entry(g, [0]), Entry(Server.GROUP_X25519_MLKEM768, mlkem + public), Entry(Server.GROUP_X25519, public)]
  }

  function SharePayload(g: u16, mlkem: seq<byte>, public: Key): (data: seq<byte>)
  {
    Sized(EncodeAll(Shares(g, mlkem, public)))
  }

  function EchData(e: Ech): (data: seq<byte>)
    ensures |data| == 10 + |e.enc| + |e.payload|
  {
    [0] + Put16(1) + Put16(1) + [e.config] + Put16(|e.enc|) + e.enc + Put16(|e.payload|) + e.payload
  }

  /** The types of the extensions between the two GREASE ones, before the shuffle. */
  function MiddleTag(k: nat): (tag: u16)
    requires k < 16
    ensures (tag == SERVER_NAME <==> k == 0) && (tag == ALPN <==> k == 6) && (tag == KEY_SHARE <==> k == 10)
  {
    if k == 0 then SERVER_NAME
    else if k == 1 then 23
    else if k == 2 then 0xff01
    else if k == 3 then 10
    else if k == 4 then 11
    else if k == 5 then 35
    else if k == 6 then ALPN
    else if k == 7 then 5
    else if k == 8 then 13
    else if k == 9 then 18
    else if k == 10 then KEY_SHARE
    else if k == 11 then 45
    else if k == 12 then 43
    else if k == 13 then 27
    else if k == 14 then 17513
    else 0xfe0d
  }

  function MiddleData(k: nat, sni: seq<byte>, public: Key, d: Draws): (data: seq<byte>)
    requires k < 16
  {
    var (g0, g1) := GreasePair(d.first, d.second);
    if k == 0 then SniPayload(sni)
    else if k == 2 then [0]
    else if k == 3 then U16List([g0, Server.GROUP_X25519_MLKEM768, Server.GROUP_X25519, 0x0017, 0x0018])
    else if k == 4 then [1, 0]
    else if k == 6 then AlpnList([H2, HTTP11])
    else if k == 7 then [1, 0, 0, 0, 0]
    else if k == 8 then U16List([0x0403, 0x0804, 0x0401, 0x0503, 0x0805, 0x0501, 0x0806, 0x0601])
    else if k == 10 then SharePayload(g0, d.mlkem, public)
    else if k == 11 then [1, 1]
    else if k == 12 then [6] + Put16(g1) + Put16(0x0304) + Put16(0x0303)
    else if k == 13 then [2, 0, 2]
    else if k == 14 then AlpnList([H2])
    else if k == 15 then EchData(d.ech)
    else []
  }

  function Middle(sni: seq<byte>, public: Key, d: Draws): (list: seq<Entry>)
    ensures |list| == 16
    ensures forall k :: 0 <= k < 16 ==> list[k] == Entry(MiddleTag(k), MiddleData(k, sni, public, d))
  {
    seq(16, k requires 0 <= k < 16 => Entry(MiddleTag(k), MiddleData(k, sni, public, d)))
  }

  /** The whole list, with the middle in the order given. */
  function AllExts(middle: seq<Entry>, d: Draws): (list: seq<Entry>)
  {
    var (g0, g1) := GreasePair(d.first, d.second);
    [Entry(g0, [0])] + middle + [Entry(g1, [0])]
  }

  function Ciphers(g: u16): (c: seq<u16>)
    ensures |c| == 16
  {
    [g, 0x1301, 0x1302, 0x1303, 0xc02b, 0xc02f, 0xc02c, 0xc030, 0xcca9, 0xcca8, 0xc013, 0xc014,
     0x009c, 0x009d, 0x002f, 0x0035]
  }

  /** The hello body up to its session id, and from there to its extensions. */
  function Head(random: Key): (b: seq<byte>)
    ensures |b| == 35 && b[2..34] == random && b[34] == 32
  {
    Put16(0x0303) + random + [32]
  }

  function Tail(g: u16, extLen: nat): (b: seq<byte>)
    ensures |b| == 38
  {
    U16List(Ciphers(g)) + [1, 0] + Put16(extLen)
  }

  function Body(random: Key, sessionId: Key, g: u16, exts: seq<byte>): (b: seq<byte>)
    ensures |b| == 105 + |exts|
  {
    Head(random) + sessionId + Tail(g, |exts|) + exts
  }

  function Handshake(body: seq<byte>): (h: seq<byte>)
    ensures |h| == 4 + |body|
  {
    [1] + Put24(|body|) + body
  }

  function Record(h: seq<byte>): (r: seq<byte>)
  {
    [0x16, 3, 1] + Put16(|h|) + h
  }

  /** The hello for a given order of the middle extensions. */
  function Hello(random: Key, sessionId: Key, middle: seq<Entry>, d: Draws): (h: seq<byte>)
  {
    Handshake(Body(random, sessionId, GreasePair(d.first, d.second).0, EncodeAll(AllExts(middle, d))))
  }

  // -------------------------------------------------------------------- UTF-8

  predicate Continues(b: byte)
  {
    0x80 <= b <= 0xbf
  }

  /** Well-formed UTF-8 (section 4 of RFC 3629), as `String::from_utf8` wants it. */
  predicate Utf8(b: seq<byte>)
  {
    if b == [] then true
    else if b[0] < 0x80 then Utf8(b[1..])
    else if 0xc2 <= b[0] <= 0xdf then |b| >= 2 && Continues(b[1]) && Utf8(b[2..])
    else if 0xe0 <= b[0] <= 0xef then
      && |b| >= 3 && Continues(b[1]) && Continues(b[2])
      && (b[0] == 0xe0 ==> b[1] >= 0xa0) && (b[0] == 0xed ==> b[1] <= 0x9f) && Utf8(b[3..])
    else if 0xf0 <= b[0] <= 0xf4 then
      && |b| >= 4 && Continues(b[1]) && Continues(b[2]) && Continues(b[3])
      && (b[0] == 0xf0 ==> b[1] >= 0x90) && (b[0] == 0xf4 ==> b[1] <= 0x8f) && Utf8(b[4..])
    else false
  }
}
