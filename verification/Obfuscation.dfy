/** Obfuscated datagrams, sent in batches of equal segments and received in
    batches of equal strides. */
module Obfuscation {
  import opened Bytes

  const SALT_LEN := 8
  const KEY_LEN := 32
  const PREFIX_LEN := 2
  const MAX_PADDING := 32
  const OVERHEAD := 10

  type Salt = s: seq<byte> | |s| == 8 witness Zeros(8)
  type Block = s: seq<byte> | |s| == 32 witness Zeros(32)

  /** The passphrase key, known by the keystream it gives for each salt. */
  datatype ObfuscationKey = ObfuscationKey(keystream: Salt -> Block)

  // ------------------------------------------------------------- one datagram

  function Mask(stream: Block, data: seq<byte>): (r: seq<byte>)
    ensures |r| == |data|
  {
    seq(|data|, i requires 0 <= i < |data| => Xor(data[i], stream[i % KEY_LEN]))
  }

  lemma MaskTwice(stream: Block, data: seq<byte>)
    ensures Mask(stream, Mask(stream, data)) == data
  {
    forall i | 0 <= i < |data|
      ensures Mask(stream, Mask(stream, data))[i] == data[i]
    {
      XorTwice(data[i], stream[i % KEY_LEN]);
    }
  }

  /** Salt, then length, payload and padding under the keystream. */
  function Obfuscated(key: ObfuscationKey, payload: seq<byte>, salt: Salt, padding: seq<byte>): (wire: seq<byte>)
    ensures |wire| == OVERHEAD + |payload| + |padding|
  {
    salt + Mask(key.keystream(salt), Put16(|payload|) + payload + padding)
  }

  function Deobfuscate(key: ObfuscationKey, data: seq<byte>): (payload: Option<seq<byte>>)
    ensures payload.Some? ==> |payload.value| + OVERHEAD <= |data|
  {
    if |data| < SALT_LEN + PREFIX_LEN then None
    else
      var plain := Mask(key.keystream(data[..SALT_LEN]), data[SALT_LEN..]);
      var n := U16(plain[0], plain[1]);
      if |plain| < PREFIX_LEN + n then None else Some(plain[PREFIX_LEN..PREFIX_LEN + n])
  }

  lemma DatagramRoundTrip(key: ObfuscationKey, payload: seq<byte>, salt: Salt, padding: seq<byte>)
    requires |payload| < 0x1_0000
    ensures Deobfuscate(key, Obfuscated(key, payload, salt, padding)) == Some(payload)
  {
    var len := Put16(|payload|);
    var plain, wire := len + payload + padding, Obfuscated(key, payload, salt, padding);
    assert wire[..SALT_LEN] == salt && wire[SALT_LEN..] == Mask(key.keystream(salt), plain);
    MaskTwice(key.keystream(salt), plain);
    assert plain[0] == len[0] && plain[1] == len[1] && plain[PREFIX_LEN..PREFIX_LEN + |payload|] == payload;
  }

  lemma Put16OfU16(hi: byte, lo: byte)
    ensures Put16(U16(hi, lo)) == [hi, lo]
  {
  }

  /** Whatever arrives decodes to a payload if and only if it is that payload, obfuscated
      under some salt with some padding. */
  lemma DecodesIff(key: ObfuscationKey, data: seq<byte>, payload: seq<byte>)
    ensures Deobfuscate(key, data) == Some(payload)
       <==> |payload| < 0x1_0000 && exists salt: Salt, padding :: data == Obfuscated(key, payload, salt, padding)
  {
    if Deobfuscate(key, data) == Some(payload) {
      var salt: Salt := data[..SALT_LEN];
      var plain := Mask(key.keystream(salt), data[SALT_LEN..]);
      var padding := plain[PREFIX_LEN + |payload|..];
      Put16OfU16(plain[0], plain[1]);
      assert plain == Put16(|payload|) + payload + padding;
      MaskTwice(key.keystream(salt), data[SALT_LEN..]);
      assert data == Obfuscated(key, payload, salt, padding);
    }
    if |payload| < 0x1_0000 && exists salt: Salt, padding :: data == Obfuscated(key, payload, salt, padding) {
      var salt: Salt, padding :| data == Obfuscated(key, payload, salt, padding);
      DatagramRoundTrip(key, payload, salt, padding);
    }
  }

  // ------------------------------------------------------------------ splitting

  /** Pieces of `n` bytes, the last possibly shorter (`chunks`, and the way a
      batch is taken apart by the kernel and by Quinn). */
  function Chunks(s: seq<byte>, n: nat): (pieces: seq<seq<byte>>)
    requires n > 0 || s == []
    ensures s == [] <==> pieces == []
  {
    if s == [] then [] else if |s| <= n then [s] else [s[..n]] + Chunks(s[n..], n)
  }

  lemma {:induction false} ChunksJoin(s: seq<byte>, n: nat)
    requires n > 0
    ensures Concat(Chunks(s, n)) == s
    ensures forall p :: p in Chunks(s, n) ==> 1 <= |p| <= n
  {
    if |s| > n {
      ChunksJoin(s[n..], n);
      assert s == s[..n] + s[n..];
    } else if s != [] {
      assert Concat([s]) == s + Concat([]);
    }
  }

  /** All but the last have length `n`, and the last is not empty or longer. */
  ghost predicate Even(pieces: seq<seq<byte>>, n: nat)
  {
    && pieces != [] && (forall i :: 0 <= i < |pieces| - 1 ==> |pieces[i]| == n)
    && 1 <= |pieces[|pieces| - 1]| <= n
  }

  lemma {:induction false} ChunksEven(s: seq<byte>, n: nat)
    requires n > 0 && s != []
    ensures Even(Chunks(s, n), n)
  {
    if |s| > n {
      ChunksEven(s[n..], n);
      var rest := Chunks(s[n..], n);
      assert Chunks(s, n)[1..] == rest;
      assert forall i :: 1 <= i < |rest| + 1 ==> Chunks(s, n)[i] == rest[i - 1];
    }
  }

  /** Cutting joined pieces gives the pieces back exactly when they are even. */
  lemma {:induction false} ChunksOfJoined(pieces: seq<seq<byte>>, n: nat)
    requires n > 0 && Even(pieces, n)
    ensures Chunks(Concat(pieces), n) == pieces
  {
    var s := Concat(pieces);
    if |pieces| == 1 {
      assert Concat(pieces[1..]) == [];
      assert s == pieces[0] && pieces == [pieces[0]];
    } else {
      var rest := pieces[1..];
      assert Even(rest, n) by {
        assert forall i :: 0 <= i < |rest| ==> rest[i] == pieces[i + 1];
      }
      assert s[..n] == pieces[0] && s[n..] == Concat(rest);
      ChunksOfJoined(rest, n);
      assert pieces == [pieces[0]] + rest;
    }
  }

  lemma EvenIffRestored(pieces: seq<seq<byte>>, n: nat)
    requires n > 0 && pieces != []
    ensures Chunks(Concat(pieces), n) == pieces <==> Even(pieces, n)
  {
    if Even(pieces, n) {
      ChunksOfJoined(pieces, n);
    } else if Chunks(Concat(pieces), n) == pieces {
      ChunksEven(Concat(pieces), n);
    }
  }

  // -------------------------------------------------------------------- sending

  /** What is drawn for one datagram; all of a batch use one padding length. */
  datatype Draw = Draw(salt: Salt, padding: seq<byte>)

  datatype Wire = Wire(bytes: seq<byte>, segment: Option<nat>)

  datatype SendError = TooLarge

  /** The datagrams of a batch, one after the other. */
  function WireOf(key: ObfuscationKey, pieces: seq<seq<byte>>, draws: seq<Draw>): (datagrams: seq<seq<byte>>)
    requires |draws| >= |pieces|
    ensures |datagrams| == |pieces|
    ensures forall i :: 0 <= i < |pieces| ==> datagrams[i] == Obfuscated(key, pieces[i], draws[i].salt, draws[i].padding)
  {
    seq(|pieces|, i requires 0 <= i < |pieces| => Obfuscated(key, pieces[i], draws[i].salt, draws[i].padding))
  }

  /** The segment size, when there is more than one segment. */
  function Segment(contents: seq<byte>, size: Option<nat>): (n: Option<nat>)
  {
    if size.Some? && 0 < size.value < |contents| then size else None
  }

  function Pieces(contents: seq<byte>, size: Option<nat>): (pieces: seq<seq<byte>>)
    ensures pieces != []
  {
    var n := Segment(contents, size);
    if n.None? then [contents] else Chunks(contents, n.value)
  }

  /** One padding length for the whole batch, cut at the maximum. */
  ghost predicate ValidDraws(draws: seq<Draw>, pieces: nat, pad: nat)
  {
    |draws| >= pieces && forall i :: 0 <= i < |draws| ==> |draws[i].padding| == if pad < MAX_PADDING then pad else MAX_PADDING
  }

  predicate AllFit(pieces: seq<seq<byte>>)
  {
    forall i :: 0 <= i < |pieces| ==> |pieces[i]| < 0x1_0000
  }

  /** What a transmit becomes on the wire. */
  function Sent(key: ObfuscationKey, contents: seq<byte>, size: Option<nat>, draws: seq<Draw>): (w: Wire)
    requires |draws| >= |Pieces(contents, size)|
  {
    var n := Segment(contents, size);
    Wire(Concat(WireOf(key, Pieces(contents, size), draws)),
         if n.None? then None else Some(OVERHEAD + n.value + |draws[0].padding|))
  }

  /** `obfuscate_transmit`: fails only on a datagram whose length does not fit. */
  method ObfuscateTransmit(key: ObfuscationKey, contents: seq<byte>, size: Option<nat>, pad: nat, draws: seq<Draw>)
    returns (r: Result<Wire, SendError>)
    requires ValidDraws(draws, |Pieces(contents, size)|, pad)
    ensures r == if AllFit(Pieces(contents, size)) then Ok(Sent(key, contents, size, draws)) else Err(TooLarge)
  {
    var n := Segment(contents, size);
    if n.None? {
      r := Single(key, contents, draws);
    } else {
      r := Batch(key, contents, n.value, draws);
    }
  }

  method Single(key: ObfuscationKey, contents: seq<byte>, draws: seq<Draw>) returns (r: Result<Wire, SendError>)
    requires |draws| >= 1
    ensures r == if AllFit([contents]) then Ok(Wire(Concat(WireOf(key, [contents], draws)), None)) else Err(TooLarge)
  {
    assert AllFit([contents]) <==> |[contents][0]| < 0x1_0000;
    if |contents| >= 0x1_0000 {
      return Err(TooLarge);
    }
    var one := Obfuscated(key, contents, draws[0].salt, draws[0].padding);
    assert WireOf(key, [contents], draws) == [one];
    assert Concat([one]) == one + Concat([]) == one;
    r := Ok(Wire(one, None));
  }

  method Batch(key: ObfuscationKey, contents: seq<byte>, n: nat, draws: seq<Draw>) returns (r: Result<Wire, SendError>)
    requires 0 < n < |contents| && |draws| >= |Chunks(contents, n)|
    requires forall i :: 0 <= i < |draws| ==> |draws[i].padding| == |draws[0].padding|
    ensures var pieces := Chunks(contents, n);
            r == if !AllFit(pieces) then Err(TooLarge)
                 else Ok(Wire(Concat(WireOf(key, pieces, draws)), Some(OVERHEAD + n + |draws[0].padding|)))
  {
    var pieces := Chunks(contents, n);
    ghost var all := WireOf(key, pieces, draws);
    ChunksEven(contents, n);
    AtLeastTwo(contents, n);
    var wire: seq<byte>, segment: Option<nat> := [], None;
    assert all[..0] == [];
    for i := 0 to |pieces|
      invariant wire == Concat(all[..i])
      invariant forall k :: 0 <= k < i ==> |pieces[k]| < 0x1_0000
      invariant i > 0 ==> segment == Some(OVERHEAD + n + |draws[0].padding|)
    {
      if |pieces[i]| >= 0x1_0000 {
        return Err(TooLarge);
      }
      var obfuscated := Obfuscated(key, pieces[i], draws[i].salt, draws[i].padding);
      if |pieces[i]| == n {
        segment := Some(|obfuscated|);
      }
      ConcatUpTo(all, i);
      wire := wire + obfuscated;
    }
    assert all[..|pieces|] == all;
    LongerThanFirst(all);
    r := Ok(Wire(wire, if segment.Some? && segment.value < |wire| then segment else None));
  }

  lemma AtLeastTwo(s: seq<byte>, n: nat)
    requires 0 < n < |s|
    ensures |Chunks(s, n)| >= 2 && Chunks(s, n)[0] == s[..n]
  {
  }

  lemma LongerThanFirst(pieces: seq<seq<byte>>)
    requires |pieces| >= 2 && pieces[1] != []
    ensures |Concat(pieces)| > |pieces[0]|
  {
    assert Concat(pieces[1..]) == pieces[1] + Concat(pieces[1..][1..]);
  }
}
