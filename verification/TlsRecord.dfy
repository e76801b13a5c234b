/** Encrypted TLS 1.3 records: sealing with padding, opening, and the per-record
    nonce (sections 5.2 to 5.4 of RFC 8446). The cipher itself is a pair of
    functions that is only known to be lawful. */
module TlsRecord {
  import opened Bytes

  const TAG_SIZE := 16
  const HEADER_SIZE := 5
  const MAX_RECORD := 16 * 1024 + 256
  const HANDSHAKE: byte := 0x16
  const APPLICATION: byte := 0x17

  type Iv = s: seq<byte> | |s| == 12 witness Zeros(12)

  /** `seal(key, nonce, aad, message)` and `open(key, nonce, aad, sealed)`. */
  datatype Aead = Aead(seal: (seq<byte>, seq<byte>, seq<byte>, seq<byte>) -> seq<byte>,
                       open: (seq<byte>, seq<byte>, seq<byte>, seq<byte>) -> Option<seq<byte>>)
  {
    ghost predicate Lawful()
    {
      forall key, nonce, aad, m: seq<byte> ::
        && |seal(key, nonce, aad, m)| == |m| + TAG_SIZE
        && open(key, nonce, aad, seal(key, nonce, aad, m)) == Some(m)
    }
  }

  datatype Keys = Keys(aead: Aead, key: seq<byte>, iv: Iv)

  // --------------------------------------------------------------------- nonce

  function RecordNonce(iv: Iv, n: nat): (nonce: seq<byte>)
    ensures |nonce| == 12
  {
    iv[..4] + seq(8, i requires 0 <= i < 8 => Xor(iv[4 + i], Put(n, 8)[i]))
  }

  /** The nonce is the iv, xored at its end with the number of the record. */
  lemma NonceIsXor(iv: Iv, n: u64)
    ensures var nonce := RecordNonce(iv, n);
            && nonce[..4] == iv[..4]
            && (forall i :: 4 <= i < 12 ==> Xor(nonce[i], Put(n, 8)[i - 4]) == iv[i])
            && Get(Put(n, 8)) == n
  {
    Pow256Values();
    GetPut(n, 8);
    forall i | 4 <= i < 12
      ensures Xor(RecordNonce(iv, n)[i], Put(n, 8)[i - 4]) == iv[i]
    {
      XorTwice(iv[i], Put(n, 8)[i - 4]);
    }
  }

  /** Two records of one key never share a nonce. */
  lemma NonceInjective(iv: Iv, a: u64, b: u64)
    requires RecordNonce(iv, a) == RecordNonce(iv, b)
    ensures a == b
  {
    var pa, pb := Put(a, 8), Put(b, 8);
    forall i | 0 <= i < 8
      ensures pa[i] == pb[i]
    {
      assert RecordNonce(iv, a)[4 + i] == Xor(iv[4 + i], pa[i]);
      assert RecordNonce(iv, b)[4 + i] == Xor(iv[4 + i], pb[i]);
      XorCancels(iv[4 + i], pa[i], pb[i]);
    }
    assert pa == pb;
    Pow256Values();
    GetPut(a, 8);
    GetPut(b, 8);
  }

  lemma {:induction false} XorBitsSwap(a: nat, b: nat, n: nat)
    ensures XorBits(a, b, n) == XorBits(b, a, n)
  {
    if n > 0 {
      XorBitsSwap(a / 2, b / 2, n - 1);
    }
  }

  lemma XorCancels(x: byte, a: byte, b: byte)
    requires Xor(x, a) == Xor(x, b)
    ensures a == b
  {
    XorBitsSwap(x, a, 8);
    XorBitsSwap(x, b, 8);
    XorTwice(a, x);
    XorTwice(b, x);
  }

  // ------------------------------------------------------------------- records

  /** The content, its type, and zeros up to the asked record length; a length
      too small to hold the content asks for nothing. */
  function Inner(typ: byte, content: seq<byte>, pad: Option<nat>): (inner: seq<byte>)
  {
    var inner := content + [typ];
    if pad.Some? && pad.value > HEADER_SIZE + |inner| + TAG_SIZE
    then inner + Zeros(pad.value - HEADER_SIZE - TAG_SIZE - |inner|)
    else inner
  }

  function Header(sealedLen: nat): (h: seq<byte>)
    ensures |h| == HEADER_SIZE
  {
    [APPLICATION, 3, 3] + Put16(sealedLen)
  }

  function Seal(keys: Keys, n: nat, typ: byte, content: seq<byte>, pad: Option<nat>): (record: seq<byte>)
  {
    var inner := Inner(typ, content, pad);
    var header := Header(|inner| + TAG_SIZE);
    header + keys.aead.seal(keys.key, RecordNonce(keys.iv, n), header, inner)
  }

  datatype Opened = Opened(typ: byte, content: seq<byte>) | BadRecord

  function Open(keys: Keys, n: nat, body: seq<byte>): (r: Opened)
  {
    var plain := keys.aead.open(keys.key, RecordNonce(keys.iv, n), Header(|body|), body);
    if plain.None? then BadRecord else SplitInner(plain.value)
  }

  /** The type is the last byte that is not zero. */
  function SplitInner(plain: seq<byte>): (r: Opened)
    ensures r.Opened? ==> r.typ != 0 && r.content + [r.typ] <= plain
  {
    if plain == [] then BadRecord
    else if plain[|plain| - 1] == 0 then SplitInner(plain[..|plain| - 1])
    else Opened(plain[|plain| - 1], plain[..|plain| - 1])
  }

  /** The loop of `split_inner`. */
  method PopPadding(inner: seq<byte>) returns (r: Opened)
    ensures r == SplitInner(inner)
  {
    var plain := inner;
    while plain != [] && plain[|plain| - 1] == 0
      invariant SplitInner(plain) == SplitInner(inner)
      decreases |plain|
    {
      plain := plain[..|plain| - 1];
    }
    if plain == [] {
      return BadRecord;
    }
    r := Opened(plain[|plain| - 1], plain[..|plain| - 1]);
  }

  lemma {:induction false} PaddingComesOff(content: seq<byte>, typ: byte, zeros: nat)
    requires typ != 0
    ensures SplitInner(content + [typ] + Zeros(zeros)) == Opened(typ, content)
    decreases zeros
  {
    var plain := content + [typ] + Zeros(zeros);
    if zeros == 0 {
      assert plain[..|plain| - 1] == content;
    } else {
      PaddingComesOff(content, typ, zeros - 1);
      assert plain[..|plain| - 1] == content + [typ] + Zeros(zeros - 1);
    }
  }

  /** What was sealed under a number opens under that number, whatever the
      padding and whatever zeros the content ends in. */
  lemma SealOpens(keys: Keys, n: nat, typ: byte, content: seq<byte>, pad: Option<nat>)
    requires keys.aead.Lawful() && typ != 0
    ensures var record := Seal(keys, n, typ, content, pad);
            && |record| == HEADER_SIZE + TAG_SIZE + |Inner(typ, content, pad)|
            && record[..HEADER_SIZE] == Header(|record| - HEADER_SIZE)
            && Open(keys, n, record[HEADER_SIZE..]) == Opened(typ, content)
  {
    var inner := Inner(typ, content, pad);
    var header := Header(|inner| + TAG_SIZE);
    var sealed := keys.aead.seal(keys.key, RecordNonce(keys.iv, n), header, inner);
    assert |sealed| == |inner| + TAG_SIZE;
    var record := header + sealed;
    assert record[HEADER_SIZE..] == sealed;
    PaddingComesOff(content, typ, |inner| - |content| - 1);
    assert inner == content + [typ] + Zeros(|inner| - |content| - 1);
  }

  /** A record padded to a length has that length, when it fits. */
  lemma PadHitsLength(keys: Keys, n: nat, typ: byte, content: seq<byte>, target: nat)
    requires keys.aead.Lawful()
    ensures |Seal(keys, n, typ, content, Some(target))|
         == if target > HEADER_SIZE + |content| + 1 + TAG_SIZE then target else HEADER_SIZE + |content| + 1 + TAG_SIZE
  {
    var inner := Inner(typ, content, Some(target));
    var header := Header(|inner| + TAG_SIZE);
    assert |keys.aead.seal(keys.key, RecordNonce(keys.iv, n), header, inner)| == |inner| + TAG_SIZE;
  }

  /** A lawful cipher exists, so nothing below is about nothing. */
  lemma LawfulExists()
    ensures exists a: Aead :: a.Lawful()
  {
    var a := Aead((key, nonce, aad, m: seq<byte>) => m + Zeros(TAG_SIZE),
                  (key, nonce, aad, c: seq<byte>) =>
                    if |c| < TAG_SIZE then None else Some(c[..|c| - TAG_SIZE]));
    forall key, nonce, aad, m: seq<byte>
      ensures |a.seal(key, nonce, aad, m)| == |m| + TAG_SIZE
      ensures a.open(key, nonce, aad, a.seal(key, nonce, aad, m)) == Some(m)
    {
      assert (m + Zeros(TAG_SIZE))[..|m|] == m;
    }
    assert a.Lawful();
  }
}
