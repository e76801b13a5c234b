/** Watching a TLS connection from outside: the lengths of the encrypted records
    the peer sends once our side has changed ciphers, from chunks cut anywhere. */
module RecordSpying {
  import opened Bytes

  const CCS: seq<byte> := [0x14, 3, 3, 0, 1, 1]
  const TAIL := 5
  const MAX_TOTAL := 16 * 1024 + 256

  // ------------------------------------------------------------- whole streams

  predicate At(s: seq<byte>, i: nat)
  {
    i + 6 <= |s| && s[i..i + 6] == CCS
  }

  predicate Occurs(s: seq<byte>)
  {
    exists i :: 0 <= i < |s| && At(s, i)
  }

  /** The end of a stream that a later match may still need. */
  function Tail(s: seq<byte>): (t: seq<byte>)
    ensures |t| <= TAIL
  {
    if |s| > TAIL then s[|s| - TAIL..] else s
  }

  /** The length of the first record, when it is whole and not too long. */
  function Total(s: seq<byte>): (n: Option<nat>)
    ensures n.Some? ==> 5 <= n.value <= |s|
  {
    if |s| < 5 then None
    else
      var n := 5 + U16(s[3], s[4]);
      if n > MAX_TOTAL || |s| < n then None else Some(n)
  }

  function Lens(s: seq<byte>): (lens: seq<nat>)
  {
    if Total(s).None? then []
    else (if s[0] == 0x17 then [Total(s).value] else []) + Lens(s[Total(s).value..])
  }

  /** What no whole record takes up; a record that is too long stays here. */
  function Rest(s: seq<byte>): (r: seq<byte>)
  {
    if Total(s).None? then s else Rest(s[Total(s).value..])
  }

  // --------------------------------------------------------------------- chunks

  /** Five bytes are enough to remember: a match across the cut lies in them and
      the new chunk, and a match there is a match in the whole. */
  lemma OccursAcrossCut(s: seq<byte>, buf: seq<byte>)
    ensures Occurs(s + buf) <==> Occurs(s) || Occurs(Tail(s) + buf)
  {
    var cut := |s| - |Tail(s)|;
    var near, all := Tail(s) + buf, s + buf;
    assert all == s[..cut] + near;
    forall i: nat | i < |all|
      ensures i + 6 <= |s| ==> At(all, i) == At(s, i)
      ensures cut <= i ==> At(all, i) == At(near, i - cut)
    {
      SameWindow(s, buf, i);
    }
    if Occurs(s) {
      var i :| 0 <= i < |s| && At(s, i);
      assert At(all, i);
    }
    if Occurs(near) {
      var i :| 0 <= i < |near| && At(near, i);
      assert At(all, cut + i);
    }
  }

  lemma TailAcrossCut(s: seq<byte>, buf: seq<byte>)
    ensures Tail(s + buf) == Tail(Tail(s) + buf)
  {
  }

  lemma SameWindow(s: seq<byte>, buf: seq<byte>, i: nat)
    ensures i + 6 <= |s| ==> At(s + buf, i) == At(s, i)
    ensures var cut := |s| - |Tail(s)|; cut <= i ==> At(s + buf, i) == At(Tail(s) + buf, i - cut)
  {
    var cut, near, all := |s| - |Tail(s)|, Tail(s) + buf, s + buf;
    if i + 6 <= |s| {
      assert all[i..i + 6] == s[i..i + 6];
    }
    if cut <= i && i + 6 <= |all| {
      assert all[i..i + 6] == near[i - cut..i - cut + 6];
    }
  }

  /** The records of a stream are those of its first part and those of what that
      left over with the second part. */
  lemma {:induction false} RecordsAcrossCut(a: seq<byte>, b: seq<byte>)
    ensures Lens(a + b) == Lens(a) + Lens(Rest(a) + b)
    ensures Rest(a + b) == Rest(Rest(a) + b)
    decreases |a|
  {
    if Total(a).Some? {
      var n := Total(a).value;
      FirstStays(a, b);
      RecordsAcrossCut(a[n..], b);
      var first := if a[0] == 0x17 then [n] else [];
      assert first + (Lens(a[n..]) + Lens(Rest(a[n..]) + b)) == first + Lens(a[n..]) + Lens(Rest(a[n..]) + b);
    } else {
      assert [] + Lens(a + b) == Lens(a + b);
    }
  }

  lemma FirstStays(a: seq<byte>, b: seq<byte>)
    requires Total(a).Some?
    ensures Total(a + b) == Total(a) && (a + b)[0] == a[0]
    ensures (a + b)[Total(a).value..] == a[Total(a).value..] + b
  {
    assert (a + b)[3] == a[3] && (a + b)[4] == a[4];
  }

  class RecordSpy {
    var ccsSent: bool
    var writeTail: seq<byte>
    var leftover: seq<byte>
    var lens: seq<nat>
    /** Everything written, and everything read since the cipher change was seen. */
    ghost var written: seq<byte>
    ghost var watched: seq<byte>

    /** What is kept per chunk says what a look at the whole streams would say. */
    ghost predicate Valid()
      reads this
    {
      && (ccsSent <==> Occurs(written))
      && |writeTail| <= TAIL && (!ccsSent ==> writeTail == Tail(written) && watched == [])
      && lens == Lens(watched) && leftover == Rest(watched)
    }

    constructor ()
      ensures Valid() && written == [] && watched == []
    {
      ccsSent, writeTail, leftover, lens := false, [], [], [];
      written, watched := [], [];
    }

    method NoteWrite(buf: seq<byte>)
      requires Valid()
      modifies this`ccsSent, this`writeTail, this`written
      ensures Valid() && written == old(written) + buf
      ensures old(ccsSent) ==> ccsSent
    {
      OccursAcrossCut(written, buf);
      TailAcrossCut(written, buf);
      written := written + buf;
      if ccsSent {
        return;
      }
      writeTail := writeTail + buf;
      if Occurs(writeTail) {
        ccsSent := true;
      }
      if |writeTail| > TAIL {
        writeTail := writeTail[|writeTail| - TAIL..];
      }
    }

    method NoteRead(buf: seq<byte>)
      requires Valid()
      modifies this`leftover, this`lens, this`watched
      ensures Valid() && watched == if ccsSent then old(watched) + buf else old(watched)
    {
      if !ccsSent {
        return;
      }
      if buf == [] {
        assert watched + buf == watched;
        return;
      }
      RecordsAcrossCut(watched, buf);
      watched := watched + buf;
      leftover := leftover + buf;
      DrainRecords();
    }

    method DrainRecords()
      modifies this`leftover, this`lens
      ensures lens == old(lens) + Lens(old(leftover)) && leftover == Rest(old(leftover))
    {
      ghost var was, start := lens, leftover;
      while true
        invariant lens + Lens(leftover) == was + Lens(start) && Rest(leftover) == Rest(start)
        decreases |leftover|
      {
        if |leftover| < 5 {
          break;
        }
        var total := 5 + U16(leftover[3], leftover[4]);
        if total > MAX_TOTAL || |leftover| < total {
          break;
        }
        OneRecord(lens, leftover);
        if leftover[0] == 0x17 {
          lens := lens + [total];
        }
        leftover := leftover[total..];
      }
      assert lens + [] == lens;
    }
  }

  lemma OneRecord(lens: seq<nat>, s: seq<byte>)
    requires Total(s).Some?
    ensures var n := Total(s).value;
            && lens + Lens(s) == (if s[0] == 0x17 then lens + [n] else lens) + Lens(s[n..])
            && Rest(s) == Rest(s[n..])
  {
    var n := Total(s).value;
    assert lens + ([n] + Lens(s[n..])) == lens + [n] + Lens(s[n..]);
    assert [] + Lens(s[n..]) == Lens(s[n..]);
  }
}
