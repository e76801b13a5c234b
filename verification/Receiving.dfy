/** Receiving a batch: every stride is decoded, the payloads are compacted in
    place and handed on with a new stride. */
module Receiving {
  import opened Bytes
  import opened Obfuscation

  // ------------------------------------------------------------- specification

  /** The payloads of those pieces that decode, in order. */
  function Decoded(key: ObfuscationKey, pieces: seq<seq<byte>>): (plains: seq<seq<byte>>)
  {
    if pieces == [] then []
    else
      var first := Deobfuscate(key, pieces[0]);
      (if first.Some? then [first.value] else []) + Decoded(key, pieces[1..])
  }

  /** A stride of zero, or beyond the end, means one datagram. */
  function Step(len: nat, stride: nat): (step: nat)
    requires len > 0
    ensures 0 < step <= len
  {
    if stride == 0 || stride > len then len else stride
  }

  /** All but the last are as long as the first; the last is not looked at. */
  predicate Uniform(plains: seq<seq<byte>>)
  {
    forall i :: 0 <= i < |plains| - 1 ==> |plains[i]| == |plains[0]|
  }

  datatype Batch = Batch(data: seq<byte>, stride: nat)

  function Merged(plains: seq<seq<byte>>): (b: Batch)
    requires plains != []
    ensures b.stride > 0 || b.data == []
  {
    var first := plains[0];
    if Uniform(plains) then
      MergedEmpty(plains);
      Batch(Concat(plains), if |first| < 1 then 1 else |first|)
    else Batch(first, |first|)
  }

  lemma MergedEmpty(plains: seq<seq<byte>>)
    ensures plains != [] ==> |Concat(plains)| >= |plains[0]|
  {
  }

  /** What Quinn takes out of the buffer. */
  function Delivered(plains: seq<seq<byte>>): (datagrams: seq<seq<byte>>)
    requires plains != []
  {
    Chunks(Merged(plains).data, Merged(plains).stride)
  }

  // -------------------------------------------------- what arrives, on any buffer

  /** Whatever was in the buffer: the decoded datagrams all arrive, or the first
      alone when lengths differ before the last, in exactly these cases. */
  lemma DeliveredIff(plains: seq<seq<byte>>)
    requires plains != []
    ensures Uniform(plains) ==>
      (Delivered(plains) == plains <==> 1 <= |plains[|plains| - 1]| <= |plains[0]|)
    ensures !Uniform(plains) ==> Delivered(plains) == (if plains[0] == [] then [] else [plains[0]])
  {
    if Uniform(plains) {
      var n := Merged(plains).stride;
      EvenIffRestored(plains, n);
      if |plains[0]| == 0 && |plains| > 1 {
        assert |plains[0]| != n;
      }
    }
  }

  /** An empty last datagram is lost, and only it. */
  lemma EmptyLastIsDropped(plains: seq<seq<byte>>)
    requires |plains| > 1 && Uniform(plains) && plains[0] != [] && plains[|plains| - 1] == []
    ensures Delivered(plains) == plains[..|plains| - 1]
  {
    var front := plains[..|plains| - 1];
    assert plains == front + [[]];
    ConcatSnoc(front, []);
    assert Concat(front) + [] == Concat(front);
    ChunksOfJoined(front, |plains[0]|);
  }

  /** Two datagrams that the kernel joined because they are equally long on the
      wire: both arrive if and only if the second carries no more than the first. */
  lemma TwoDatagrams(key: ObfuscationKey, p: seq<byte>, q: seq<byte>, dp: Draw, dq: Draw)
    requires |p| < 0x1_0000 && |q| < 0x1_0000 && |p| + |dp.padding| == |q| + |dq.padding|
    ensures var wire := Obfuscated(key, p, dp.salt, dp.padding) + Obfuscated(key, q, dq.salt, dq.padding);
            var plains := Decoded(key, Chunks(wire, OVERHEAD + |p| + |dp.padding|));
            plains == [p, q] && (Delivered(plains) == [p, q] <==> 1 <= |q| <= |p|)
  {
    var a, b := Obfuscated(key, p, dp.salt, dp.padding), Obfuscated(key, q, dq.salt, dq.padding);
    ConcatTwo(a, b);
    ChunksOfJoined([a, b], |a|);
    DatagramRoundTrip(key, p, dp.salt, dp.padding);
    DatagramRoundTrip(key, q, dq.salt, dq.padding);
    assert [a, b][1..] == [b];
    assert Decoded(key, [b][1..]) == [];
    assert Decoded(key, [b]) == [Deobfuscate(key, b).value];
    DeliveredIff([p, q]);
  }

  lemma ConcatTwo(a: seq<byte>, b: seq<byte>)
    ensures Concat([a, b]) == a + b
  {
    ConcatSnoc([a], b);
    SingleRoundTrip(a);
    assert [a, b] == [a] + [b];
  }

  /** So with a longer second datagram the boundaries come out wrong. */
  lemma LongerSecondIsCut(key: ObfuscationKey, salt: Salt)
    ensures var p, q: seq<byte> := [1], [2, 3];
            var wire := Obfuscated(key, p, salt, [0]) + Obfuscated(key, q, salt, []);
            Delivered(Decoded(key, Chunks(wire, OVERHEAD + 2))) == [[1], [2], [3]]
  {
    var p, q: seq<byte> := [1], [2, 3];
    TwoDatagrams(key, p, q, Draw(salt, [0]), Draw(salt, []));
    ConcatTwo(p, q);
    assert p + q == [1] + [2] + [3];
    ConcatTwo([1], [2]);
    ConcatSnoc([[1], [2]], [3]);
    assert [[1], [2]] + [[3]] == [[1], [2], [3]];
    ChunksOfJoined([[1], [2], [3]], 1);
  }

  // ------------------------------------------------------ sent, joined, received

  lemma {:induction false} DecodedWire(key: ObfuscationKey, pieces: seq<seq<byte>>, draws: seq<Draw>)
    requires |draws| >= |pieces| && AllFit(pieces)
    ensures Decoded(key, WireOf(key, pieces, draws)) == pieces
  {
    if pieces != [] {
      DatagramRoundTrip(key, pieces[0], draws[0].salt, draws[0].padding);
      assert AllFit(pieces[1..]) by {
        assert forall i :: 0 <= i < |pieces[1..]| ==> pieces[1..][i] == pieces[i + 1];
      }
      DecodedWire(key, pieces[1..], draws[1..]);
      assert WireOf(key, pieces, draws)[1..] == WireOf(key, pieces[1..], draws[1..]);
      assert pieces == [pieces[0]] + pieces[1..];
    }
  }

  /** The wire of a batch is cut by its segment size into its datagrams. */
  lemma WireIsEven(key: ObfuscationKey, pieces: seq<seq<byte>>, n: nat, draws: seq<Draw>)
    requires |draws| >= |pieces| && Even(pieces, n)
    requires forall i :: 0 <= i < |draws| ==> |draws[i].padding| == |draws[0].padding|
    ensures var datagrams := WireOf(key, pieces, draws);
            Chunks(Concat(datagrams), OVERHEAD + n + |draws[0].padding|) == datagrams
  {
    var datagrams, pad := WireOf(key, pieces, draws), |draws[0].padding|;
    forall i | 0 <= i < |pieces|
      ensures |datagrams[i]| == OVERHEAD + |pieces[i]| + pad
    {
      assert datagrams[i] == Obfuscated(key, pieces[i], draws[i].salt, draws[i].padding);
    }
    EvenAfter(pieces, datagrams, n, OVERHEAD + pad);
    ChunksOfJoined(datagrams, OVERHEAD + n + pad);
  }

  lemma EvenAfter(before: seq<seq<byte>>, after: seq<seq<byte>>, n: nat, more: nat)
    requires Even(before, n) && |after| == |before|
    requires forall i :: 0 <= i < |before| ==> |after[i]| == |before[i]| + more
    ensures Even(after, n + more)
  {
    assert |after[|after| - 1]| == |before[|before| - 1]| + more;
  }

  /** A buffer of these bytes and this stride decodes to `pieces`, and what is
      handed on is `contents` with the stride `newStride`. */
  ghost predicate Restored(key: ObfuscationKey, bytes: seq<byte>, stride: nat, pieces: seq<seq<byte>>,
                           contents: seq<byte>, newStride: nat)
  {
    && bytes != [] && stride <= |bytes| && pieces != []
    && Decoded(key, Chunks(bytes, Step(|bytes|, stride))) == pieces
    && Merged(pieces) == Batch(contents, newStride)
  }

  /** What is sent in one transmit and received in one buffer is the transmit: the
      same bytes, cut in the same places. */
  lemma TransmitRoundTrip(key: ObfuscationKey, contents: seq<byte>, size: Option<nat>, pad: nat, draws: seq<Draw>)
    requires ValidDraws(draws, |Pieces(contents, size)|, pad) && AllFit(Pieces(contents, size))
    ensures var w := Sent(key, contents, size, draws);
            var stride := if w.segment.None? then |w.bytes| else w.segment.value;
            Restored(key, w.bytes, stride, Pieces(contents, size), contents,
                     if Segment(contents, size).Some? then size.value else if contents == [] then 1 else |contents|)
  {
    var n := Segment(contents, size);
    if n.Some? {
      BatchRoundTrip(key, contents, n.value, draws);
    } else {
      assert Pieces(contents, size)[0] == contents;
      OneRoundTrip(key, contents, draws);
    }
  }

  lemma BatchRoundTrip(key: ObfuscationKey, contents: seq<byte>, n: nat, draws: seq<Draw>)
    requires 0 < n < |contents| && |draws| >= |Chunks(contents, n)| && AllFit(Chunks(contents, n))
    requires forall i :: 0 <= i < |draws| ==> |draws[i].padding| == |draws[0].padding|
    ensures var pieces := Chunks(contents, n);
            Restored(key, Concat(WireOf(key, pieces, draws)), OVERHEAD + n + |draws[0].padding|, pieces, contents, n)
  {
    var pieces := Chunks(contents, n);
    DecodedWire(key, pieces, draws);
    ChunksEven(contents, n);
    WireIsEven(key, pieces, n, draws);
    AtLeastTwo(contents, n);
    LongerThanFirst(WireOf(key, pieces, draws));
    MergedChunks(contents, n);
  }

  lemma OneRoundTrip(key: ObfuscationKey, contents: seq<byte>, draws: seq<Draw>)
    requires |draws| >= 1 && |contents| < 0x1_0000
    ensures var bytes := Concat(WireOf(key, [contents], draws));
            Restored(key, bytes, |bytes|, [contents], contents, if contents == [] then 1 else |contents|)
  {
    var datagrams := WireOf(key, [contents], draws);
    assert datagrams == [datagrams[0]];
    SingleRoundTrip(datagrams[0]);
    DecodedWire(key, [contents], draws);
    SingleRoundTrip(contents);
  }

  lemma MergedChunks(contents: seq<byte>, n: nat)
    requires 0 < n < |contents|
    ensures Merged(Chunks(contents, n)) == Batch(contents, n)
  {
    AtLeastTwo(contents, n);
    ChunksEven(contents, n);
    ChunksJoin(contents, n);
  }

  lemma SingleRoundTrip(p: seq<byte>)
    ensures Concat([p]) == p && Uniform([p])
  {
    assert Concat([p]) == p + Concat([]);
  }

  // -------------------------------------------------------------------- in place

  lemma {:induction false} DecodedFits(key: ObfuscationKey, pieces: seq<seq<byte>>)
    ensures |Concat(Decoded(key, pieces))| <= |Concat(pieces)|
  {
    if pieces != [] {
      DecodedFits(key, pieces[1..]);
      var first := Deobfuscate(key, pieces[0]);
      if first.Some? {
        assert Decoded(key, pieces)[1..] == Decoded(key, pieces[1..]);
      } else {
        assert [] + Decoded(key, pieces[1..]) == Decoded(key, pieces[1..]);
      }
    }
  }

  /** The loop over the strides. */
  method DecodeStrides(key: ObfuscationKey, input: seq<byte>, stride: nat) returns (plains: seq<seq<byte>>)
    requires stride > 0
    ensures plains == Decoded(key, Chunks(input, stride))
  {
    plains := [];
    var offset := 0;
    ghost var goal := Decoded(key, Chunks(input, stride));
    assert input[0..] == input;
    while offset < |input|
      invariant plains + Decoded(key, Chunks(From(input, offset), stride)) == goal
      decreases |input| - offset
    {
      var end := if offset + stride < |input| then offset + stride else |input|;
      var plain := Deobfuscate(key, input[offset..end]);
      OneStride(key, input, offset, stride, plains);
      if plain.Some? {
        plains := plains + [plain.value];
      }
      offset := offset + stride;
      assert From(input, offset) == input[end..];
    }
    assert plains + [] == plains;
  }

  ghost function From(input: seq<byte>, offset: nat): (rest: seq<byte>)
  {
    if offset < |input| then input[offset..] else []
  }

  lemma OneStride(key: ObfuscationKey, input: seq<byte>, offset: nat, stride: nat, plains: seq<seq<byte>>)
    requires offset < |input| && stride > 0
    ensures var end := if offset + stride < |input| then offset + stride else |input|;
            var plain := Deobfuscate(key, input[offset..end]);
            plains + Decoded(key, Chunks(input[offset..], stride))
            == (if plain.Some? then plains + [plain.value] else plains) + Decoded(key, Chunks(input[end..], stride))
  {
    var s := input[offset..];
    var end := if offset + stride < |input| then offset + stride else |input|;
    assert s[..end - offset] == input[offset..end];
    assert s[end - offset..] == input[end..];
    var pieces := Chunks(s, stride);
    assert pieces[0] == input[offset..end];
    assert pieces[1..] == Chunks(input[end..], stride);
    var plain, rest := Deobfuscate(key, pieces[0]), Decoded(key, pieces[1..]);
    assert plain.Some? ==> plains + ([plain.value] + rest) == plains + [plain.value] + rest;
    assert [] + rest == rest;
  }

  method CopyInto(buf: array<byte>, at: nat, data: seq<byte>)
    requires at + |data| <= buf.Length
    modifies buf
    ensures buf[..] == old(buf[..])[..at] + data + old(buf[..])[at + |data|..]
  {
    ghost var was := buf[..];
    for j := 0 to |data|
      invariant buf[..] == was[..at] + data[..j] + was[at + j..]
    {
      buf[at + j] := data[j];
    }
    assert data[..|data|] == data;
  }

  /** The first `i` payloads, one after the other. */
  ghost function First(plains: seq<seq<byte>>, i: nat): (bytes: seq<byte>)
    requires i <= |plains|
  {
    if i == 0 then [] else First(plains, i - 1) + plains[i - 1]
  }

  lemma {:induction false} FirstIs(plains: seq<seq<byte>>, i: nat)
    requires i <= |plains|
    ensures First(plains, i) == Concat(plains[..i])
  {
    if i > 0 {
      FirstIs(plains, i - 1);
      ConcatUpTo(plains, i - 1);
    }
  }

  lemma FirstFits(plains: seq<seq<byte>>, i: nat)
    requires i <= |plains|
    ensures |First(plains, i)| <= |Concat(plains)| && First(plains, |plains|) == Concat(plains)
  {
    FirstIs(plains, i);
    FirstIs(plains, |plains|);
    ConcatAppend(plains[..i], plains[i..]);
    assert plains == plains[..i] + plains[i..] && plains[..|plains|] == plains;
  }

  /** The compaction: payload after payload, from the front. */
  method Compact(buf: array<byte>, plains: seq<seq<byte>>) returns (out: nat)
    requires |Concat(plains)| <= buf.Length
    modifies buf
    ensures out == |Concat(plains)|
    ensures buf[..] == Concat(plains) + old(buf[out..])
  {
    out := 0;
    ghost var was := buf[..];
    for i := 0 to |plains|
      invariant out == |First(plains, i)| <= buf.Length
      invariant buf[..] == First(plains, i) + was[out..]
    {
      FirstFits(plains, i + 1);
      CopyAfter(buf, was, First(plains, i), out, plains[i]);
      out := out + |plains[i]|;
    }
    FirstFits(plains, |plains|);
  }

  method CopyAfter(buf: array<byte>, ghost was: seq<byte>, ghost done: seq<byte>, at: nat, piece: seq<byte>)
    requires at == |done| && at + |piece| <= |was| == buf.Length && buf[..] == done + was[at..]
    modifies buf
    ensures buf[..] == done + piece + was[at + |piece|..]
  {
    OneCopy(was, buf[..], done, piece);
    CopyInto(buf, at, piece);
  }

  lemma OneCopy(was: seq<byte>, before: seq<byte>, done: seq<byte>, piece: seq<byte>)
    requires |done| + |piece| <= |was| && before == done + was[|done|..]
    ensures before[..|done|] + piece + before[|done| + |piece|..] == done + piece + was[|done| + |piece|..]
  {
    assert before[..|done|] == done;
    assert before[|done| + |piece|..] == was[|done| + |piece|..];
  }

  /** `deobfuscate_into`: rewrites the buffer and its two numbers, or leaves all
      as it was when nothing decodes. */
  method DeobfuscateInto(key: ObfuscationKey, buf: array<byte>, len: nat, stride: nat)
    returns (ok: bool, newLen: nat, newStride: nat)
    requires len <= buf.Length
    modifies buf
    ensures ok <==> len > 0 && Decoded(key, Chunks(old(buf[..len]), Step(len, stride))) != []
    ensures !ok ==> buf[..] == old(buf[..]) && newLen == len && newStride == stride
    ensures ok ==>
      var b := Merged(Decoded(key, Chunks(old(buf[..len]), Step(len, stride))));
      newLen == |b.data| <= len && newStride == b.stride && buf[..] == b.data + old(buf[newLen..])
  {
    ok, newLen, newStride := false, len, stride;
    if len == 0 {
      return;
    }
    var step := Step(len, stride);
    var plains := DecodeStrides(key, buf[..len], step);
    if plains == [] {
      return;
    }
    DecodedFits(key, Chunks(buf[..len], step));
    ChunksJoin(buf[..len], step);
    ok := true;
    newLen, newStride := WriteBatch(buf, len, plains);
  }

  /** Everything when the lengths allow it, otherwise the first payload alone. */
  method WriteBatch(buf: array<byte>, len: nat, plains: seq<seq<byte>>) returns (newLen: nat, newStride: nat)
    requires plains != [] && |Concat(plains)| <= len <= buf.Length
    modifies buf
    ensures newLen == |Merged(plains).data| <= len && newStride == Merged(plains).stride
    ensures buf[..] == Merged(plains).data + old(buf[newLen..])
  {
    MergedEmpty(plains);
    if Uniform(plains) {
      newLen := Compact(buf, plains);
      newStride := if |plains[0]| < 1 then 1 else |plains[0]|;
    } else {
      CopyInto(buf, 0, plains[0]);
      newLen, newStride := |plains[0]|, |plains[0]|;
    }
  }

  // ------------------------------------------------------- one call, many buffers

  datatype Received = Received(buf: seq<byte>, addr: seq<byte>, len: nat, stride: nat)

  type Slot = s: Received | s.len <= |s.buf| witness Received([], [], 0, 0)

  /** What the caller gets to see of a buffer. */
  datatype Item = Item(data: seq<byte>, addr: seq<byte>, stride: nat)

  function Seen(s: Slot): (item: Item)
  {
    Item(s.buf[..s.len], s.addr, s.stride)
  }

  /** The same buffer after `deobfuscate_into`. */
  function Rewritten(key: ObfuscationKey, s: Slot): (r: Option<Slot>)
    ensures r.Some? ==> |r.value.buf| == |s.buf| && r.value.addr == s.addr
  {
    if s.len == 0 then None
    else
      var pieces := Chunks(s.buf[..s.len], Step(s.len, s.stride));
      var plains := Decoded(key, pieces);
      if plains == [] then None
      else
        var b := Merged(plains);
        DecodedFits(key, pieces);
        ChunksJoin(s.buf[..s.len], Step(s.len, s.stride));
        MergedEmpty(plains);
        Some(s.(buf := b.data + s.buf[|b.data|..], len := |b.data|, stride := b.stride))
  }

  /** The buffers that decode, in order and with their senders. */
  function Survivors(key: ObfuscationKey, slots: seq<Slot>): (items: seq<Item>)
    ensures |items| <= |slots|
  {
    if slots == [] then []
    else
      var last := Rewritten(key, slots[|slots| - 1]);
      Survivors(key, slots[..|slots| - 1]) + (if last.Some? then [Seen(last.value)] else [])
  }

  lemma OneMoreSlot(key: ObfuscationKey, slots: seq<Slot>, k: nat)
    requires k < |slots|
    ensures var next := Rewritten(key, slots[k]);
            Survivors(key, slots[..k + 1]) == Survivors(key, slots[..k]) + (if next.Some? then [Seen(next.value)] else [])
  {
    assert slots[..k + 1][..k] == slots[..k];
  }

  /** The `i`-th buffer, if it decodes, fits into the one it moves to. */
  predicate MoveFits(key: ObfuscationKey, slots: seq<Slot>, i: nat)
    requires i < |slots|
  {
    var next := Rewritten(key, slots[i]);
    next.Some? ==> next.value.len <= |slots[|Survivors(key, slots[..i])|].buf|
  }

  /** Among equally large buffers everything fits. */
  lemma EqualBuffersFit(key: ObfuscationKey, slots: seq<Slot>, i: nat)
    requires i < |slots| && forall k :: 0 <= k < |slots| ==> |slots[k].buf| == |slots[0].buf|
    ensures MoveFits(key, slots, i)
  {
  }

  /** The first `index` buffers are done with, and `kept` of them decoded. */
  ghost predicate Progress(key: ObfuscationKey, was: seq<Slot>, now: seq<Slot>, index: nat, kept: nat)
  {
    && |now| == |was| && kept <= index <= |was|
    && (forall i :: 0 <= i < |was| ==> |now[i].buf| == |was[i].buf|)
    && (forall i :: index <= i < |was| ==> now[i] == was[i])
    && |Survivors(key, was[..index])| == kept
    && (forall i :: 0 <= i < kept ==> Seen(now[i]) == Survivors(key, was[..index])[i])
  }

  lemma SlotSkipped(key: ObfuscationKey, was: seq<Slot>, now: seq<Slot>, index: nat, kept: nat)
    requires Progress(key, was, now, index, kept) && index < |was| && Rewritten(key, was[index]).None?
    ensures Progress(key, was, now, index + 1, kept)
  {
    OneMoreSlot(key, was, index);
  }

  lemma SlotMoved(key: ObfuscationKey, was: seq<Slot>, now: seq<Slot>, next: seq<Slot>, index: nat, kept: nat, s: Slot)
    requires Progress(key, was, now, index, kept) && index < |was| && Rewritten(key, was[index]) == Some(s)
    requires |next| == |now| && Seen(next[kept]) == Seen(s)
    requires |next[kept].buf| == |now[kept].buf| && |next[index].buf| == |now[index].buf|
    requires forall i :: 0 <= i < |now| && i != kept && i != index ==> next[i] == now[i]
    ensures Progress(key, was, next, index + 1, kept + 1)
  {
    OneMoreSlot(key, was, index);
  }

  /** The loop of `poll_recv` over one batch: the buffers that decode move to the
      front, the others are forgotten. `ok` is false when a payload does not fit where
      it has to go, which ends the program. */
  method KeepDecoded(key: ObfuscationKey, slots: array<Slot>, count: nat) returns (kept: nat, ok: bool)
    requires count <= slots.Length
    modifies slots
    ensures ok <==> forall i :: 0 <= i < count ==> MoveFits(key, old(slots[..]), i)
    ensures ok ==> kept == |Survivors(key, old(slots[..])[..count])| <= count
    ensures ok ==> forall i :: 0 <= i < kept ==> Seen(slots[i]) == Survivors(key, old(slots[..])[..count])[i]
  {
    ghost var was := slots[..];
    kept := 0;
    for index := 0 to count
      invariant Progress(key, was, slots[..], index, kept)
      invariant forall i :: 0 <= i < index ==> MoveFits(key, was, i)
    {
      ghost var now := slots[..];
      var next := Rewritten(key, slots[index]);
      if next.None? {
        SlotSkipped(key, was, now, index, kept);
      } else if next.value.len > |slots[kept].buf| {
        slots[index] := next.value;
        assert !MoveFits(key, was, index);
        return kept, false;
      } else {
        MoveTo(slots, index, kept, next.value);
        SlotMoved(key, was, now, slots[..], index, kept, next.value);
        kept := kept + 1;
      }
    }
    ok := true;
  }

  /** The decoded buffer, and a copy of its payload further to the front. */
  method MoveTo(slots: array<Slot>, index: nat, kept: nat, s: Slot)
    requires kept <= index < slots.Length && |s.buf| == |slots[index].buf| && s.len <= |slots[kept].buf|
    modifies slots
    ensures Seen(slots[kept]) == Seen(s)
    ensures |slots[kept].buf| == |old(slots[kept]).buf| && |slots[index].buf| == |old(slots[index]).buf|
    ensures forall i :: 0 <= i < slots.Length && i != kept && i != index ==> slots[i] == old(slots[i])
  {
    slots[index] := s;
    if kept != index {
      slots[kept] := s.(buf := s.buf[..s.len] + slots[kept].buf[s.len..]);
      assert slots[kept].buf[..s.len] == s.buf[..s.len];
    }
  }
}
