/** A foreign ServerHello (section 4.1.3 of RFC 8446): parsing it, and writing
    our X25519 key over its key share without moving anything else. */
module ServerHello {
  import opened Bytes

  const KEY_SHARE: u16 := 51
  const GROUP_X25519: u16 := 0x001d
  const GROUP_X25519_MLKEM768: u16 := 0x11ec

  const HRR_RANDOM: seq<byte> := [
    0xCF, 0x21, 0xAD, 0x74, 0xE5, 0x9A, 0x61, 0x11, 0xBE, 0x1D, 0x8C, 0x02, 0x1E, 0x65, 0xB8, 0x91,
    0xC2, 0xA2, 0x11, 0x16, 0x7A, 0xBB, 0x8C, 0x5E, 0x07, 0x9E, 0x09, 0xE2, 0xC8, 0xA8, 0x33, 0x9C]

  type Key = s: seq<byte> | |s| == 32 witness Zeros(32)

  datatype View = View(random: seq<byte>, sessionId: seq<byte>, cipher: u16, extensions: seq<u16>,
                       x25519: Option<Key>)

  // ------------------------------------------------------------------ key share

  /** Where the X25519 key of a share starts: the whole key, or the last 32
      bytes of the hybrid one. */
  function KeyAt(b: seq<byte>, at: nat, len: nat): (k: Option<nat>)
    requires at + len <= |b|
    ensures k.Some? ==> at + 4 <= k.value && k.value + 32 <= at + len
  {
    if len < 4 then None
    else
      var group, keyLen := U16(b[at], b[at + 1]), U16(b[at + 2], b[at + 3]);
      if 4 + keyLen > len then None
      else if group == GROUP_X25519 && keyLen == 32 then Some(at + 4)
      else if group == GROUP_X25519_MLKEM768 && keyLen >= 32 then Some(at + 4 + keyLen - 32)
      else None
  }

  function ShareKey(b: seq<byte>, at: nat, len: nat): (key: Option<Key>)
    requires at + len <= |b|
  {
    var k := KeyAt(b, at, len);
    if k.None? then None else Some(b[k.value..k.value + 32])
  }

  // ----------------------------------------------------------------- extensions

  /** One extension: its type and where its data lie. */
  datatype Slot = Slot(typ: u16, at: nat, len: nat)

  /** The slots stand one after the other between `at` and `end`. */
  ghost predicate InOrder(slots: seq<Slot>, at: nat, end: nat)
  {
    && (forall j :: 0 <= j < |slots| ==> at + 4 <= slots[j].at && slots[j].at + slots[j].len <= end)
    && (forall j, k :: 0 <= j < k < |slots| ==> slots[j].at + slots[j].len + 4 <= slots[k].at)
  }

  /** The extensions in `b[at..end]`; less than four bytes at the end are ignored,
      data that run past the end are an error. */
  function Slots(b: seq<byte>, at: nat, end: nat): (r: Option<seq<Slot>>)
    requires end <= |b|
    ensures r.Some? ==> InOrder(r.value, at, end)
    decreases end - at
  {
    if at + 4 > end then Some([])
    else
      var slot := Slot(U16(b[at], b[at + 1]), at + 4, U16(b[at + 2], b[at + 3]));
      if slot.at + slot.len > end then None
      else
        var rest := Slots(b, slot.at + slot.len, end);
        if rest.None? then None else Some([slot] + rest.value)
  }

  function Types(slots: seq<Slot>): (t: seq<u16>)
  {
    seq(|slots|, i requires 0 <= i < |slots| => slots[i].typ)
  }

  /** The parser keeps the key of the last key share it meets. */
  function LastShare(slots: seq<Slot>): (j: Option<nat>)
    ensures j.Some? ==> j.value < |slots| && slots[j.value].typ == KEY_SHARE
    ensures forall i :: (if j.Some? then j.value + 1 else 0) <= i < |slots| ==> slots[i].typ != KEY_SHARE
  {
    if slots == [] then None
    else if slots[|slots| - 1].typ == KEY_SHARE then Some(|slots| - 1)
    else LastShare(slots[..|slots| - 1])
  }

  predicate Patchable(s: Slot)
  {
    s.typ == KEY_SHARE && s.len >= 4
  }

  /** The patch goes for the first key share of four bytes or more. */
  function FirstPatchable(slots: seq<Slot>): (j: Option<nat>)
    ensures j.Some? ==> j.value < |slots| && Patchable(slots[j.value])
    ensures forall i :: 0 <= i < |slots| && (j.Some? ==> i < j.value) ==> !Patchable(slots[i])
  {
    if slots == [] then None
    else if Patchable(slots[0]) then Some(0)
    else
      var j := FirstPatchable(slots[1..]);
      if j.None? then None else Some(j.value + 1)
  }

  function PatchableCount(slots: seq<Slot>): (n: nat)
  {
    if slots == [] then 0 else (if Patchable(slots[0]) then 1 else 0) + PatchableCount(slots[1..])
  }

  function KeyOf(b: seq<byte>, slots: seq<Slot>): (key: Option<Key>)
    requires forall j :: 0 <= j < |slots| ==> slots[j].at + slots[j].len <= |b|
  {
    var j := LastShare(slots);
    if j.None? then None else ShareKey(b, slots[j.value].at, slots[j.value].len)
  }

  /** Where the patch writes. It stops at the first share it could patch, so what
      comes after need not parse. */
  function Target(b: seq<byte>, at: nat, end: nat): (k: Option<nat>)
    requires end <= |b|
    ensures k.Some? ==> at + 8 <= k.value && k.value + 32 <= end
    decreases end - at
  {
    if at + 4 > end then None
    else
      var slot := Slot(U16(b[at], b[at + 1]), at + 4, U16(b[at + 2], b[at + 3]));
      if slot.at + slot.len > end then None
      else if Patchable(slot) then KeyAt(b, slot.at, slot.len)
      else Target(b, slot.at + slot.len, end)
  }

  lemma {:induction false} TargetInSlots(b: seq<byte>, at: nat, end: nat)
    requires end <= |b| && Slots(b, at, end).Some?
    ensures var slots := Slots(b, at, end).value;
            var j := FirstPatchable(slots);
            Target(b, at, end) == if j.None? then None else KeyAt(b, slots[j.value].at, slots[j.value].len)
    decreases end - at
  {
    if at + 4 <= end {
      var len := U16(b[at + 2], b[at + 3]);
      TargetInSlots(b, at + 4 + len, end);
      assert Slots(b, at, end).value[1..] == Slots(b, at + 4 + len, end).value;
    }
  }

  /** One entry of a share list as it is written: group, length, key. */
  lemma KeyAsWritten(front: seq<byte>, group: u16, key: seq<byte>, back: seq<byte>)
    requires |key| < 0x1_0000
    ensures var b := front + Put16(group) + Put16(|key|) + key + back;
            ShareKey(b, |front|, 4 + |key| + |back|)
            == if group == 29 && |key| == 32 then Some(key)
               else if group == 4588 && |key| >= 32 then Some(key[|key| - 32..])
               else None
  {
    var g, l := Put16(group), Put16(|key|);
    var b, at := front + Put16(group) + Put16(|key|) + key + back, |front|;
    assert b[at] == g[0] && b[at + 1] == g[1] && b[at + 2] == l[0] && b[at + 3] == l[1];
    assert b[at + 4..at + 4 + |key|] == key;
    if |key| >= 32 {
      assert b[at + 4 + |key| - 32..at + 4 + |key|] == key[|key| - 32..];
    }
  }

  // -------------------------------------------------------------------- splicing

  /** `c` is `b` with the 32 bytes at `k` replaced. */
  ghost predicate Replaced(b: seq<byte>, c: seq<byte>, k: nat, ours: Key)
  {
    && |c| == |b| && k + 32 <= |b| && c[k..k + 32] == ours
    && forall i :: 0 <= i < |b| && !(k <= i < k + 32) ==> c[i] == b[i]
  }

  function Splice(b: seq<byte>, k: nat, key: Key): (r: seq<byte>)
    requires k + 32 <= |b|
    ensures Replaced(b, r, k, key)
  {
    b[..k] + key + b[k + 32..]
  }

  /** Slots depend on their four-byte headers only. */
  lemma {:induction false} SlotsByHeaders(b: seq<byte>, c: seq<byte>, at: nat, end: nat)
    requires end <= |b| == |c| && Slots(b, at, end).Some?
    requires var slots := Slots(b, at, end).value;
             forall j, i :: 0 <= j < |slots| && slots[j].at - 4 <= i < slots[j].at ==> c[i] == b[i]
    ensures Slots(c, at, end) == Slots(b, at, end)
    decreases end - at
  {
    if at + 4 <= end {
      var slots := Slots(b, at, end).value;
      var next := slots[0].at + slots[0].len;
      var rest := Slots(b, next, end).value;
      assert slots[0].at - 4 == at;
      assert forall j :: 0 <= j < |rest| ==> rest[j] == slots[j + 1];
      SlotsByHeaders(b, c, next, end);
    }
  }

  lemma HeadersStay(b: seq<byte>, c: seq<byte>, slots: seq<Slot>, at: nat, end: nat, j: nat, k: nat, ours: Key)
    requires InOrder(slots, at, end) && j < |slots| && end <= |b| && Replaced(b, c, k, ours)
    requires slots[j].at + 4 <= k && k + 32 <= slots[j].at + slots[j].len
    ensures forall n, i :: 0 <= n < |slots| && slots[n].at - 4 <= i < slots[n].at ==> c[i] == b[i]
    ensures forall n, i :: 0 <= n < |slots| && n != j && slots[n].at <= i < slots[n].at + slots[n].len ==> c[i] == b[i]
  {
    forall n, i | 0 <= n < |slots| && slots[n].at - 4 <= i < slots[n].at + slots[n].len && (n != j || i < slots[n].at)
      ensures c[i] == b[i]
    {
      assert n < j ==> slots[n].at + slots[n].len + 4 <= slots[j].at;
      assert j < n ==> slots[j].at + slots[j].len + 4 <= slots[n].at;
    }
  }

  lemma PatchedShare(b: seq<byte>, c: seq<byte>, at: nat, len: nat, ours: Key)
    requires at + len <= |b| && KeyAt(b, at, len).Some? && Replaced(b, c, KeyAt(b, at, len).value, ours)
    ensures ShareKey(c, at, len) == Some(ours)
  {
    assert c[at] == b[at] && c[at + 1] == b[at + 1] && c[at + 2] == b[at + 2] && c[at + 3] == b[at + 3];
  }

  lemma SameShare(b: seq<byte>, c: seq<byte>, at: nat, len: nat)
    requires at + len <= |b| == |c| && forall i :: at <= i < at + len ==> c[i] == b[i]
    ensures ShareKey(c, at, len) == ShareKey(b, at, len)
  {
    var k := KeyAt(b, at, len);
    if k.Some? {
      assert b[k.value..k.value + 32] == c[k.value..k.value + 32];
    }
  }

  /** The patched share is the last one exactly when no two could be patched. */
  lemma {:induction false} OnePatchable(slots: seq<Slot>)
    requires LastShare(slots).Some? && slots[LastShare(slots).value].len >= 4
    ensures FirstPatchable(slots).Some?
    ensures FirstPatchable(slots) == LastShare(slots) <==> PatchableCount(slots) == 1
  {
    var last := LastShare(slots).value;
    if Patchable(slots[0]) {
      NoneLeft(slots[1..]);
      if last > 0 {
        assert slots[1..][last - 1] == slots[last];
      }
    } else {
      LastIs(slots[1..], LastShare(slots).value - 1);
      OnePatchable(slots[1..]);
    }
  }

  lemma {:induction false} NoneLeft(slots: seq<Slot>)
    ensures PatchableCount(slots) == 0 <==> forall i :: 0 <= i < |slots| ==> !Patchable(slots[i])
  {
    if slots != [] {
      NoneLeft(slots[1..]);
      assert forall i :: 1 <= i < |slots| ==> slots[i] == slots[1..][i - 1];
    }
  }

  lemma LastIs(slots: seq<Slot>, j: nat)
    requires j < |slots| && slots[j].typ == KEY_SHARE
    requires forall i :: j < i < |slots| ==> slots[i].typ != KEY_SHARE
    ensures LastShare(slots) == Some(j)
  {
    var last := LastShare(slots);
    assert last.Some? ==> !(last.value < j) && !(j < last.value);
  }

  // -------------------------------------------------------------- whole message

  /** The extensions of a hello body: from where to where. */
  datatype Range = Range(at: nat, end: nat)

  function ExtRange(body: seq<byte>): (r: Option<Range>)
    ensures r.Some? ==> 40 <= r.value.at <= r.value.end <= |body|
  {
    if |body| < 35 then None
    else
      var i := 38 + (body[34] as int);
      if |body| < i + 2 then None
      else
        var end := i + 2 + U16(body[i], body[i + 1]);
        if end > |body| then None else Some(Range(i + 2, end))
  }

  function Body(msg: seq<byte>): (b: Option<seq<byte>>)
    ensures b.Some? ==> 4 + |b.value| <= |msg| && b.value == msg[4..4 + |b.value|]
  {
    if |msg| < 6 || msg[0] != 2 then None
    else
      var len := U24(msg[1], msg[2], msg[3]);
      if |msg| < 4 + len then None else Some(msg[4..4 + len])
  }

  function BodySlots(b: seq<byte>): (slots: Option<seq<Slot>>)
    ensures slots.Some? ==> ExtRange(b).Some? && InOrder(slots.value, ExtRange(b).value.at, ExtRange(b).value.end)
  {
    if ExtRange(b).None? then None else Slots(b, ExtRange(b).value.at, ExtRange(b).value.end)
  }

  function ViewOf(b: seq<byte>): (v: Option<View>)
    ensures v.Some? ==> BodySlots(b).Some?
  {
    var slots := BodySlots(b);
    if slots.None? || b[2..34] == HRR_RANDOM then None else Some(Fields(b, slots.value))
  }

  function Fields(b: seq<byte>, slots: seq<Slot>): (v: View)
    requires ExtRange(b).Some? && forall j :: 0 <= j < |slots| ==> slots[j].at + slots[j].len <= |b|
  {
    var sid := b[34];
    View(b[2..34], b[35..35 + sid], U16(b[35 + sid], b[36 + sid]), Types(slots), KeyOf(b, slots))
  }

  function Parse(msg: seq<byte>): (v: Option<View>)
    ensures v.Some? ==> Body(msg).Some? && BodySlots(Body(msg).value).Some?
  {
    if Body(msg).None? then None else ViewOf(Body(msg).value)
  }

  /** The window of the message that the patch overwrites. */
  function Window(msg: seq<byte>): (k: Option<nat>)
    ensures k.Some? ==> Body(msg).Some? && 4 + 48 <= k.value && k.value + 32 <= 4 + |Body(msg).value|
  {
    if Body(msg).None? || ExtRange(Body(msg).value).None? then None
    else
      var b := Body(msg).value;
      var k := Target(b, ExtRange(b).value.at, ExtRange(b).value.end);
      if k.None? then None else Some(4 + k.value)
  }

  ghost predicate InShare(b: seq<byte>, slots: seq<Slot>, k: nat)
  {
    exists j :: 0 <= j < |slots| && slots[j].typ == KEY_SHARE && slots[j].at + slots[j].len <= |b|
      && KeyAt(b, slots[j].at, slots[j].len) == Some(k)
  }

  /** The 32 bytes at `k` are the X25519 key of one of the message's key shares. */
  ghost predicate KeyOfShare(msg: seq<byte>, k: nat)
  {
    && Body(msg).Some? && BodySlots(Body(msg).value).Some? && k >= 4
    && InShare(Body(msg).value, BodySlots(Body(msg).value).value, k - 4)
  }

  lemma TargetIsKey(b: seq<byte>, at: nat, end: nat)
    requires end <= |b| && Slots(b, at, end).Some? && Target(b, at, end).Some?
    ensures InShare(b, Slots(b, at, end).value, Target(b, at, end).value)
  {
    TargetInSlots(b, at, end);
    var j := FirstPatchable(Slots(b, at, end).value).value;
    assert Slots(b, at, end).value[j].typ == KEY_SHARE;
  }

  lemma WindowIsKey(msg: seq<byte>)
    requires Parse(msg).Some? && Window(msg).Some?
    ensures KeyOfShare(msg, Window(msg).value)
  {
    var b := Body(msg).value;
    TargetIsKey(b, ExtRange(b).value.at, ExtRange(b).value.end);
  }

  /** How many key shares of four bytes or more the hello carries. */
  function ShareCount(msg: seq<byte>): (n: nat)
    requires Parse(msg).Some?
  {
    PatchableCount(BodySlots(Body(msg).value).value)
  }

  function Patched(msg: seq<byte>, key: Key): (r: seq<byte>)
  {
    if Window(msg).Some? then Splice(msg, Window(msg).value, key) else msg
  }

  lemma BodyOfReplaced(msg: seq<byte>, p: seq<byte>, k: nat, key: Key)
    requires Body(msg).Some? && 4 <= k && k + 32 <= 4 + |Body(msg).value| && Replaced(msg, p, k, key)
    ensures Body(p).Some? && Replaced(Body(msg).value, Body(p).value, k - 4, key)
  {
    var n := |Body(msg).value|;
    assert p[0] == msg[0] && p[1] == msg[1] && p[2] == msg[2] && p[3] == msg[3];
    assert Body(p) == Some(p[4..4 + n]);
    assert forall i {:trigger p[4..4 + n][i]} :: 0 <= i < n ==> p[4..4 + n][i] == p[4 + i];
    assert p[4..4 + n][k - 4..k + 28] == p[k..k + 32];
  }

  lemma SlotsOfReplaced(b: seq<byte>, c: seq<byte>, k: nat, key: Key)
    requires BodySlots(b).Some? && Target(b, ExtRange(b).value.at, ExtRange(b).value.end) == Some(k)
    requires Replaced(b, c, k, key)
    ensures var slots := BodySlots(b).value;
            && BodySlots(c) == Some(slots)
            && KeyOf(c, slots) == if FirstPatchable(slots) == LastShare(slots) then Some(key) else KeyOf(b, slots)
  {
    var range, slots := ExtRange(b).value, BodySlots(b).value;
    TargetInSlots(b, range.at, range.end);
    var j := FirstPatchable(slots).value;
    HeadersStay(b, c, slots, range.at, range.end, j, k, key);
    SlotsByHeaders(b, c, range.at, range.end);
    FrontStays(b, c, k, key);
    KeyOfReplaced(b, c, slots, j, k, key);
  }

  lemma FieldsOfReplaced(b: seq<byte>, c: seq<byte>, slots: seq<Slot>, k: nat, key: Key)
    requires ExtRange(b).Some? && ExtRange(b).value.at <= k && Replaced(b, c, k, key)
    requires forall j :: 0 <= j < |slots| ==> slots[j].at + slots[j].len <= |b|
    ensures c[2..34] == b[2..34] && ExtRange(c).Some?
    ensures Fields(c, slots) == Fields(b, slots).(x25519 := KeyOf(c, slots))
  {
    FrontStays(b, c, k, key);
  }

  /** The body with our key in the window parses as it did, and the key found is
      ours exactly when the patched share is the last one. */
  lemma ViewOfReplaced(b: seq<byte>, c: seq<byte>, k: nat, key: Key)
    requires ViewOf(b).Some? && Target(b, ExtRange(b).value.at, ExtRange(b).value.end) == Some(k)
    requires Replaced(b, c, k, key)
    ensures var slots := BodySlots(b).value;
            ViewOf(c) == Some(if FirstPatchable(slots) == LastShare(slots)
                              then ViewOf(b).value.(x25519 := Some(key)) else ViewOf(b).value)
  {
    var slots := BodySlots(b).value;
    SlotsOfReplaced(b, c, k, key);
    FieldsOfReplaced(b, c, slots, k, key);
    assert Fields(b, slots).(x25519 := KeyOf(b, slots)) == Fields(b, slots);
    assert ViewOf(c) == Some(Fields(c, slots));
  }

  lemma KeyOfReplaced(b: seq<byte>, c: seq<byte>, slots: seq<Slot>, j: nat, k: nat, key: Key)
    requires forall n :: 0 <= n < |slots| ==> slots[n].at + slots[n].len <= |b|
    requires j < |slots| && slots[j].typ == KEY_SHARE && KeyAt(b, slots[j].at, slots[j].len) == Some(k)
    requires Replaced(b, c, k, key)
    requires forall n, i :: 0 <= n < |slots| && n != j && slots[n].at <= i < slots[n].at + slots[n].len ==> c[i] == b[i]
    ensures KeyOf(c, slots) == if LastShare(slots) == Some(j) then Some(key) else KeyOf(b, slots)
  {
    var last := LastShare(slots).value;
    if last == j {
      PatchedShare(b, c, slots[j].at, slots[j].len, key);
    } else {
      SameShare(b, c, slots[last].at, slots[last].len);
    }
  }

  lemma FrontStays(b: seq<byte>, c: seq<byte>, k: nat, key: Key)
    requires ExtRange(b).Some? && ExtRange(b).value.at <= k && Replaced(b, c, k, key)
    ensures var sid := b[34];
            && ExtRange(c) == ExtRange(b) && c[2..34] == b[2..34] && c[34] == b[34]
            && c[35..35 + sid] == b[35..35 + sid] && c[35 + sid] == b[35 + sid] && c[36 + sid] == b[36 + sid]
  {
  }

  lemma ParseReplaced(msg: seq<byte>, p: seq<byte>, key: Key)
    requires Parse(msg).Some? && Window(msg).Some? && Replaced(msg, p, Window(msg).value, key)
    ensures var slots := BodySlots(Body(msg).value).value;
            Parse(p) == Some(if FirstPatchable(slots) == LastShare(slots)
                             then Parse(msg).value.(x25519 := Some(key)) else Parse(msg).value)
  {
    var k := Window(msg).value;
    BodyOfReplaced(msg, p, k, key);
    ViewOfReplaced(Body(msg).value, Body(p).value, k - 4, key);
  }

  /** Whether there is a window, and whether it is in the share the parser takes. */
  lemma WindowIsShare(msg: seq<byte>)
    requires Parse(msg).Some? && Parse(msg).value.x25519.Some?
    ensures var slots := BodySlots(Body(msg).value).value;
            && (FirstPatchable(slots) == LastShare(slots) <==> ShareCount(msg) == 1)
            && (ShareCount(msg) == 1 ==> Window(msg).Some?)
  {
    var b := Body(msg).value;
    OnePatchable(BodySlots(b).value);
    TargetInSlots(b, ExtRange(b).value.at, ExtRange(b).value.end);
  }

  /** The patch keeps random, session id, cipher and the order of extensions, so
      the JA3S fingerprint stays; the key the next parser finds is ours exactly
      when the hello carries one share that could be patched. */
  lemma PatchKeepsView(msg: seq<byte>, key: Key)
    requires Parse(msg).Some? && Parse(msg).value.x25519.Some?
    ensures ShareCount(msg) == 1 ==>
      Window(msg).Some? && Parse(Patched(msg, key)) == Some(Parse(msg).value.(x25519 := Some(key)))
    ensures ShareCount(msg) != 1 ==> Parse(Patched(msg, key)) == Parse(msg)
  {
    WindowIsShare(msg);
    if Window(msg).Some? {
      ParseReplaced(msg, Patched(msg, key), key);
    }
  }

  /** In particular, with another key than theirs, the patch does what it is for
      if and only if there is one share. */
  lemma PatchWorksIffOneShare(msg: seq<byte>, key: Key)
    requires Parse(msg).Some? && Parse(msg).value.x25519.Some? && Parse(msg).value.x25519 != Some(key)
    ensures ShareCount(msg) == 1
       <==> Window(msg).Some? && Parse(Patched(msg, key)) == Some(Parse(msg).value.(x25519 := Some(key)))
  {
    PatchKeepsView(msg, key);
  }

  // ------------------------------------------------------------------ the loops

  ghost function Then(done: seq<Slot>, r: Option<seq<Slot>>): (all: Option<seq<Slot>>)
  {
    if r.None? then None else Some(done + r.value)
  }

  lemma ThenNothing(r: Option<seq<Slot>>)
    ensures r == Then([], r)
  {
    if r.Some? {
      assert [] + r.value == r.value;
    }
  }

  lemma ThenOne(done: seq<Slot>, slot: Slot, r: Option<seq<Slot>>)
    ensures Then(done, Then([slot], r)) == Then(done + [slot], r)
  {
    if r.Some? {
      assert done + ([slot] + r.value) == done + [slot] + r.value;
    }
  }

  lemma OneSlotOn(b: seq<byte>, at: nat, end: nat, done: seq<Slot>)
    requires at + 4 <= end <= |b| && at + 4 + U16(b[at + 2], b[at + 3]) <= end
    ensures var slot := Slot(U16(b[at], b[at + 1]), at + 4, U16(b[at + 2], b[at + 3]));
            Then(done, Slots(b, at, end)) == Then(done + [slot], Slots(b, slot.at + slot.len, end))
  {
    var slot := Slot(U16(b[at], b[at + 1]), at + 4, U16(b[at + 2], b[at + 3]));
    ThenOne(done, slot, Slots(b, slot.at + slot.len, end));
  }

  /** What the loop has collected from the slots it is past. */
  ghost predicate Collects(b: seq<byte>, done: seq<Slot>, types: seq<u16>, key: Option<Key>)
  {
    && (forall j :: 0 <= j < |done| ==> done[j].at + done[j].len <= |b|)
    && types == Types(done) && key == KeyOf(b, done)
  }

  lemma CollectOne(b: seq<byte>, done: seq<Slot>, types: seq<u16>, key: Option<Key>, slot: Slot)
    requires Collects(b, done, types, key) && slot.at + slot.len <= |b|
    ensures Collects(b, done + [slot], types + [slot.typ],
                     if slot.typ == KEY_SHARE then ShareKey(b, slot.at, slot.len) else key)
  {
    assert (done + [slot])[..|done|] == done;
    assert Types(done + [slot]) == Types(done) + [slot.typ];
  }

  lemma NoSlotLeft(b: seq<byte>, at: nat, end: nat, done: seq<Slot>)
    requires end <= |b| && at + 4 > end
    ensures Then(done, Slots(b, at, end)) == Some(done)
  {
    assert done + [] == done;
  }

  lemma SlotTooLong(b: seq<byte>, at: nat, end: nat, done: seq<Slot>)
    requires at + 4 <= end <= |b| && at + 4 + U16(b[at + 2], b[at + 3]) > end
    ensures Then(done, Slots(b, at, end)) == None
  {
  }

  /** The loop of `ServerHelloView::parse`, with its two collected results. */
  method WalkExts(b: seq<byte>, start: nat, end: nat)
    returns (ok: bool, types: seq<u16>, key: Option<Key>, ghost done: seq<Slot>)
    requires start <= end <= |b|
    ensures Slots(b, start, end) == if ok then Some(done) else None
    ensures ok ==> Collects(b, done, types, key)
  {
    var at := start;
    ghost var whole := Slots(b, start, end);
    ThenNothing(whole);
    types, key, done := [], None, [];
    while at + 4 <= end
      invariant start <= at <= end
      invariant whole == Then(done, Slots(b, at, end)) && Collects(b, done, types, key)
      decreases end - at
    {
      var typ, len := U16(b[at], b[at + 1]), U16(b[at + 2], b[at + 3]);
      if at + 4 + len > end {
        SlotTooLong(b, at, end, done);
        return false, [], None, done;
      }
      OneSlotOn(b, at, end, done);
      CollectOne(b, done, types, key, Slot(typ, at + 4, len));
      types := types + [typ];
      if typ == KEY_SHARE {
        key := ShareKey(b, at + 4, len);
      }
      done := done + [Slot(typ, at + 4, len)];
      at := at + 4 + len;
    }
    NoSlotLeft(b, at, end, done);
    ok := true;
  }

  /** `ServerHelloView::parse`. */
  method ParseHello(msg: seq<byte>) returns (view: Option<View>)
    ensures view == Parse(msg)
  {
    if |msg| < 6 || msg[0] != 2 { return None; }
    var len := U24(msg[1], msg[2], msg[3]);
    if |msg| < 4 + len { return None; }
    view := ParseBody(msg[4..4 + len]);
  }

  method ParseBody(body: seq<byte>) returns (view: Option<View>)
    ensures view == ViewOf(body)
  {
    var range := ExtRange(body);
    if range.None? || body[2..34] == HRR_RANDOM { return None; }
    var ok, types, key, done := WalkExts(body, range.value.at, range.value.end);
    if !ok { return None; }
    var sid := body[34];
    view := Some(View(body[2..34], body[35..35 + sid], U16(body[35 + sid], body[36 + sid]), types, key));
  }

  /** `patch_server_hello_x25519`: writes into the message and says whether it did. */
  method Patch(msg: array<byte>, key: Key) returns (ok: bool)
    modifies msg
    ensures ok <==> Window(old(msg[..])).Some?
    ensures msg[..] == Patched(old(msg[..]), key)
  {
    var at := FindWindow(msg[..]);
    if at.None? { return false; }
    Overwrite(msg, at.value, key);
    ok := true;
  }

  /** Where the key lies that is to be overwritten. */
  method FindWindow(msg: seq<byte>) returns (k: Option<nat>)
    ensures k == Window(msg)
  {
    if |msg| < 6 || msg[0] != 2 { return None; }
    var bodyLen := U24(msg[1], msg[2], msg[3]);
    if |msg| < 4 + bodyLen { return None; }
    var at := Locate(msg[4..4 + bodyLen]);
    k := if at.None? then None else Some(4 + at.value);
  }

  /** The skip over random, session id, cipher and compression, then the walk. */
  method Locate(body: seq<byte>) returns (k: Option<nat>)
    ensures k == if ExtRange(body).None? then None else Target(body, ExtRange(body).value.at, ExtRange(body).value.end)
  {
    if |body| < 35 { return None; }
    var i := 38 + (body[34] as int);
    if |body| < i + 2 { return None; }
    var end := i + 2 + U16(body[i], body[i + 1]);
    i := i + 2;
    if end > |body| { return None; }
    k := FindTarget(body, i, end);
  }

  /** The walk of the patch over the extensions. */
  method FindTarget(body: seq<byte>, start: nat, end: nat) returns (k: Option<nat>)
    requires end <= |body|
    ensures k == Target(body, start, end)
  {
    var i := start;
    while i + 4 <= end
      invariant Target(body, i, end) == Target(body, start, end)
      decreases end - i
    {
      var typ, len := U16(body[i], body[i + 1]), U16(body[i + 2], body[i + 3]);
      if i + 4 + len > end { return None; }
      if typ == KEY_SHARE && len >= 4 {
        return KeyAt(body, i + 4, len);
      }
      i := i + 4 + len;
    }
    k := None;
  }

  /** `copy_from_slice` of 32 bytes. */
  method Overwrite(msg: array<byte>, k: nat, key: Key)
    requires k + 32 <= msg.Length
    modifies msg
    ensures msg[..] == Splice(old(msg[..]), k, key)
  {
    for j := 0 to 32
      invariant msg[..] == old(msg[..])[..k] + key[..j] + old(msg[..])[k + j..]
    {
      msg[k + j] := key[j];
    }
    assert key[..32] == key;
  }
}
