/** The in-place shuffle of the middle extensions, driven by random bytes. */
module Shuffle {
  import opened Bytes

  function Swap<T>(s: seq<T>, i: nat, j: nat): (r: seq<T>)
    requires i < |s| && j < |s|
    ensures |r| == |s| && forall k :: 0 <= k < |s| ==> r[k] == s[if k == i then j else if k == j then i else k]
  {
    seq(|s|, k requires 0 <= k < |s| => s[if k == i then j else if k == j then i else k])
  }

  lemma SwapPermutes<T>(s: seq<T>, i: nat, j: nat)
    requires i < |s| && j < |s|
    ensures multiset(Swap(s, i, j)) == multiset(s)
  {
    assert Swap(s, i, j) == s[i := s[j]][j := s[i]];
  }

  /** The place a random byte names, at or below `i`. */
  function Pick(draw: byte, i: nat): (j: nat)
    ensures j <= i
    ensures draw <= i ==> j == draw
  {
    draw % (i + 1)
  }

  /** From place `i` down to place 1, swap it with one at or below it. */
  function Shuffled<T>(s: seq<T>, i: nat, draws: seq<byte>): (r: seq<T>)
    requires i <= |s| && (s != [] ==> i < |s|) && |draws| == i
    ensures |r| == |s|
    decreases i
  {
    if i == 0 then s else Shuffled(Swap(s, i, Pick(draws[0], i)), i - 1, draws[1..])
  }

  lemma {:induction false} ShufflePermutes<T>(s: seq<T>, i: nat, draws: seq<byte>)
    requires i <= |s| && (s != [] ==> i < |s|) && |draws| == i
    ensures multiset(Shuffled(s, i, draws)) == multiset(s)
    decreases i
  {
    if i > 0 {
      var j := Pick(draws[0], i);
      SwapPermutes(s, i, j);
      ShufflePermutes(Swap(s, i, j), i - 1, draws[1..]);
    }
  }

  /** Bringing `p[i]` to place `i` leaves the rest to be arranged below it. */
  lemma SwapMoves<T>(s: seq<T>, p: seq<T>, i: nat, j: nat)
    requires j <= i < |s| == |p| && s[j] == p[i] && multiset(s[..i + 1]) == multiset(p[..i + 1])
    ensures multiset(Swap(s, i, j)[..i]) == multiset(p[..i])
  {
    var low, r := s[..i + 1], Swap(s, i, j);
    SwapPermutes(low, i, j);
    assert Swap(low, i, j) == r[..i] + [p[i]];
    assert p[..i + 1] == p[..i] + [p[i]];
    Cancel(r[..i], p[..i], p[i]);
  }

  lemma Cancel<T>(a: seq<T>, b: seq<T>, x: T)
    requires multiset(a + [x]) == multiset(b + [x])
    ensures multiset(a) == multiset(b)
  {
    assert multiset(a + [x]) == multiset(a) + multiset{x};
    assert multiset(b + [x]) == multiset(b) + multiset{x};
    assert multiset(a) == multiset(a) + multiset{x} - multiset{x};
  }

  /** Where the wanted element is. */
  lemma FindWanted<T>(s: seq<T>, p: seq<T>, i: nat) returns (j: nat)
    requires i < |s| == |p| && multiset(s[..i + 1]) == multiset(p[..i + 1])
    ensures j <= i && s[j] == p[i]
  {
    assert p[..i + 1][i] in multiset(p[..i + 1]);
    var k :| 0 <= k < i + 1 && s[..i + 1][k] == p[i];
    j := k;
  }

  lemma OneElement<T>(s: seq<T>, p: seq<T>)
    requires |s| == |p| > 0 && multiset(s[..1]) == multiset(p[..1]) && forall k :: 1 <= k < |s| ==> s[k] == p[k]
    ensures s == p
  {
    var j := FindWanted(s, p, 0);
  }

  /** Every permutation can come out, as long as one byte can name every place. */
  lemma {:induction false} ReachesEvery<T>(s: seq<T>, p: seq<T>, i: nat) returns (draws: seq<byte>)
    requires i < |s| == |p| && i < 256
    requires multiset(s[..i + 1]) == multiset(p[..i + 1]) && forall k :: i < k < |s| ==> s[k] == p[k]
    ensures |draws| == i && Shuffled(s, i, draws) == p
    decreases i
  {
    if i == 0 {
      draws := [];
      OneElement(s, p);
    } else {
      var j := FindWanted(s, p, i);
      SwapMoves(s, p, i, j);
      var rest := ReachesEvery(Swap(s, i, j), p, i - 1);
      draws := [j] + rest;
      assert draws[1..] == rest;
    }
  }

  /** The possible results are exactly the permutations. */
  lemma ShufflesArePermutations<T>(s: seq<T>, p: seq<T>)
    requires 0 < |s| <= 256
    ensures (exists draws: seq<byte> :: |draws| == |s| - 1 && Shuffled(s, |s| - 1, draws) == p)
       <==> multiset(p) == multiset(s)
  {
    forall draws: seq<byte> | |draws| == |s| - 1
      ensures multiset(Shuffled(s, |s| - 1, draws)) == multiset(s)
    {
      ShufflePermutes(s, |s| - 1, draws);
    }
    if multiset(p) == multiset(s) {
      assert |p| == |multiset(p)| == |multiset(s)| == |s|;
      assert s[..|s|] == s && p[..|s|] == p;
      var draws := ReachesEvery(s, p, |s| - 1);
    }
  }

  /** `shuffle_middle`. */
  method ShuffleMiddle<T>(exts: array<T>, draws: seq<byte>)
    requires |draws| == if exts.Length < 2 then 0 else exts.Length - 1
    modifies exts
    ensures exts[..] == Shuffled(old(exts[..]), |draws|, draws)
  {
    if exts.Length < 2 {
      return;
    }
    var i: nat := exts.Length - 1;
    assert draws[0..] == draws;
    while i > 0
      invariant i <= |draws| == exts.Length - 1
      invariant Shuffled(exts[..], i, draws[|draws| - i..]) == Shuffled(old(exts[..]), |draws|, draws)
    {
      var j := Pick(draws[|draws| - i], i);
      ghost var before := exts[..];
      exts[i], exts[j] := exts[j], exts[i];
      assert exts[..] == Swap(before, i, j);
      assert draws[|draws| - i..][1..] == draws[|draws| - (i - 1)..];
      i := i - 1;
    }
  }

  // ------------------------------------------------------- shuffling and mapping

  function Map<S, T>(f: S -> T, s: seq<S>): (r: seq<T>)
    ensures |r| == |s| && forall i :: 0 <= i < |s| ==> r[i] == f(s[i])
  {
    seq(|s|, i requires 0 <= i < |s| => f(s[i]))
  }

  /** Shuffling encodings is encoding what is shuffled. */
  lemma {:induction false} ShuffleOfMap<S, T>(f: S -> T, s: seq<S>, i: nat, draws: seq<byte>)
    requires i <= |s| && (s != [] ==> i < |s|) && |draws| == i
    ensures Shuffled(Map(f, s), i, draws) == Map(f, Shuffled(s, i, draws))
    decreases i
  {
    if i > 0 {
      var j := Pick(draws[0], i);
      assert Swap(Map(f, s), i, j) == Map(f, Swap(s, i, j));
      ShuffleOfMap(f, Swap(s, i, j), i - 1, draws[1..]);
    }
  }
}
