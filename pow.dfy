/**
 * Proof-of-work primitives of core/common.mjs: the big-endian nonce counter, the
 * leading-'1' difficulty test, and the nonce search.
 */
module ProofOfWork {
  import opened Types
  import opened Codec

  /** The value of a byte string read as a big-endian unsigned integer. */
  function BigEndian(s: seq<byte>): nat
  {
    if s == [] then 0 else BigEndian(s[..|s| - 1]) * 256 + s[|s| - 1]
  }

  /** What `incrementNonce` leaves in the array: the last byte below 255 is incremented
      and every 255 after it becomes 0. */
  function Increment(s: seq<byte>): (r: seq<byte>)
    ensures |r| == |s|
  {
    if s == [] then []
    else if s[|s| - 1] < 255 then s[..|s| - 1] + [s[|s| - 1] + 1]
    else Increment(s[..|s| - 1]) + [0]
  }

  lemma {:induction false} BigEndianBound(s: seq<byte>)
    ensures BigEndian(s) < Pow256(|s|)
  {
    if s != [] {
      BigEndianBound(s[..|s| - 1]);
    }
  }

  /** Byte strings of one length are told apart by their value. */
  lemma {:induction false} BigEndianInjective(x: seq<byte>, y: seq<byte>)
    requires |x| == |y| && BigEndian(x) == BigEndian(y)
    ensures x == y
  {
    if x != [] {
      var n := |x|;
      DivUnique(BigEndian(x), 256, BigEndian(x[..n - 1]), x[n - 1]);
      DivUnique(BigEndian(y), 256, BigEndian(y[..n - 1]), y[n - 1]);
      BigEndianInjective(x[..n - 1], y[..n - 1]);
      assert x == x[..n - 1] + [x[n - 1]];
      assert y == y[..n - 1] + [y[n - 1]];
    }
  }

  lemma BigEndianSnoc(s: seq<byte>, b: byte)
    ensures BigEndian(s + [b]) == BigEndian(s) * 256 + b
  {
    assert (s + [b])[..|s|] == s;
  }

  /** Every byte is 255: the counter is at its largest value. */
  predicate AllMax(s: seq<byte>)
  {
    forall i :: 0 <= i < |s| ==> s[i] == 255
  }

  /** Below the largest value the counter goes up by one; at the largest value it wraps
      round to all zeros. */
  lemma {:induction false} IncrementSteps(s: seq<byte>)
    ensures !AllMax(s) ==> BigEndian(Increment(s)) == BigEndian(s) + 1
    ensures AllMax(s) ==> BigEndian(s) + 1 == Pow256(|s|)
    ensures AllMax(s) ==> forall i :: 0 <= i < |s| ==> Increment(s)[i] == 0
  {
    if s != [] {
      var front, last := s[..|s| - 1], s[|s| - 1];
      assert s == front + [last];
      BigEndianSnoc(front, last);
      assert AllMax(s) <==> AllMax(front) && last == 255;
      if last < 255 {
        BigEndianSnoc(front, last + 1);
      } else {
        IncrementSteps(front);
        assert Increment(s) == Increment(front) + [0];
        BigEndianSnoc(Increment(front), 0);
      }
    }
  }

  /** The counter goes up by one and wraps round to zero after its largest value,
      256^n - 1, reading the bytes big-endian. */
  lemma IncrementValue(s: seq<byte>)
    ensures BigEndian(Increment(s)) == if BigEndian(s) + 1 == Pow256(|s|) then 0 else BigEndian(s) + 1
  {
    IncrementSteps(s);
    if AllMax(s) {
      AllZero(Increment(s));
    } else {
      BigEndianBound(Increment(s));
    }
  }

  lemma {:induction false} AllZero(s: seq<byte>)
    requires forall i :: 0 <= i < |s| ==> s[i] == 0
    ensures BigEndian(s) == 0
  {
    if s != [] {
      AllZero(s[..|s| - 1]);
    }
  }

  /** `incrementNonce(nonce)`: walks from the last byte, turning 255s into 0s, and
      increments the first byte below 255. */
  method IncrementNonce(nonce: array<byte>)
    modifies nonce
    ensures nonce[..] == Increment(old(nonce[..]))
  {
    ghost var s := nonce[..];
    var i := nonce.Length;
    assert s[..i] == s;
    while i > 0
      invariant 0 <= i <= nonce.Length
      invariant nonce[..i] == s[..i]
      invariant forall k :: i <= k < nonce.Length ==> nonce[k] == 0
      invariant Increment(s) == Increment(s[..i]) + nonce[i..]
    {
      i := i - 1;
      assert s[..i + 1][..i] == s[..i];
      if nonce[i] < 255 {
        nonce[i] := nonce[i] + 1;
        assert nonce[..] == s[..i] + [s[i] + 1] + nonce[i + 1..];
        return;
      }
      nonce[i] := 0;
      assert nonce[i..] == [0] + nonce[i + 1..];
    }
    assert nonce[..] == nonce[0..];
  }

  /** The block id starts with `difficulty` characters '1' (vacuously so for a difficulty
      of 0 or less, whatever the id). */
  predicate HasWork(b: Block, difficulty: int)
  {
    || difficulty <= 0
    || (&& b.id.Some?
        && difficulty <= |b.id.value|
        && forall i :: 0 <= i < difficulty ==> b.id.value[i] == '1')
  }

  /** `verifyBlockHash(block, difficulty)`. Reading `block._id[i]` throws on a null id, so
      an id is needed as soon as one character is inspected. */
  method VerifyBlockHash(block: Block, difficulty: int) returns (ok: bool)
    requires difficulty > 0 ==> block.id.Some?
    ensures ok <==> HasWork(block, difficulty)
  {
    var i := 0;
    while i < difficulty
      invariant 0 <= i && (difficulty > 0 ==> i <= difficulty)
      invariant i > 0 ==> block.id.Some? && i <= |block.id.value| && forall j :: 0 <= j < i ==> block.id.value[j] == '1'
    {
      if i >= |block.id.value| || block.id.value[i] != '1' {
        return false;
      }
      i := i + 1;
    }
    return true;
  }

  /** The block `findNonce` produces for one nonce value: the encoded nonce, and the id
      recomputed over it. */
  function Candidate(c: Crypto, block: Block, nonce: seq<byte>): (r: Block)
    requires block.root.Some?
    ensures r.previous == block.previous && r.root == block.root
    ensures r.nonce == Some(c.encode(nonce))
    ensures r.id == Some(BlockHash(c, r))
  {
    var b := block.(nonce := Some(c.encode(nonce)));
    b.(id := Some(BlockHash(c, b)))
  }

  /** The counter value after `tries` steps from `start` in a cycle of length `m`. */
  function Advanced(start: nat, tries: nat, m: nat): int
  {
    if start + tries < m then start + tries else start + tries - m
  }

  /** The counter value `v` was reached in the first `tries` steps after `start`. */
  predicate Reached(v: nat, start: nat, tries: nat, m: nat)
  {
    start < v <= start + tries || v + m <= start + tries
  }

  /** No nonce reached within the first `tries` steps after `start` meets the difficulty. */
  ghost predicate NoneFound(c: Crypto, block: Block, difficulty: int, n: nat, start: nat, tries: nat)
    requires block.root.Some?
  {
    forall x :: |x| == n && Reached(BigEndian(x), start, tries, Pow256(n)) ==> !HasWork(Candidate(c, block, x), difficulty)
  }

  lemma CounterStep(before: seq<byte>, start: nat, tries: nat)
    requires start < Pow256(|before|) && tries < Pow256(|before|)
    requires BigEndian(before) == Advanced(start, tries, Pow256(|before|))
    ensures BigEndian(Increment(before)) == Advanced(start, tries + 1, Pow256(|before|))
  {
    IncrementValue(before);
  }

  lemma CycleStep(c: Crypto, block: Block, difficulty: int, start: nat, tries: nat, current: seq<byte>)
    requires block.root.Some?
    requires start < Pow256(|current|) && tries < Pow256(|current|)
    requires BigEndian(current) == Advanced(start, tries + 1, Pow256(|current|))
    requires !HasWork(Candidate(c, block, current), difficulty)
    requires NoneFound(c, block, difficulty, |current|, start, tries)
    ensures NoneFound(c, block, difficulty, |current|, start, tries + 1)
  {
    var n, m := |current|, Pow256(|current|);
    forall x | |x| == n && Reached(BigEndian(x), start, tries + 1, m)
      ensures !HasWork(Candidate(c, block, x), difficulty)
    {
      if !Reached(BigEndian(x), start, tries, m) {
        BigEndianBound(x);
        BigEndianInjective(x, current);
      }
    }
  }

  lemma CycleDone(c: Crypto, block: Block, difficulty: int, n: nat, start: nat)
    requires block.root.Some? && start < Pow256(n)
    requires NoneFound(c, block, difficulty, n, start, Pow256(n))
    ensures forall x :: |x| == n ==> !HasWork(Candidate(c, block, x), difficulty)
  {
    forall x | |x| == n
      ensures !HasWork(Candidate(c, block, x), difficulty)
    {
      BigEndianBound(x);
      assert Reached(BigEndian(x), start, Pow256(n), Pow256(n));
    }
  }

  /**
   * `findNonce(block, difficulty)` from the starting counter `seed` (the source draws it
   * at random). The source repeats "increment, encode, rehash" until the id meets the
   * difficulty, and never stops if no nonce of that length does; the counter cycles
   * through all 256^n values in 256^n steps, so the model stops after one full cycle and
   * returns `None`, having shown that no nonce of that length would ever succeed.
   */
  method FindNonce(c: Crypto, block: Block, difficulty: int, seed: seq<byte>) returns (found: Option<Block>)
    requires block.root.Some?
    ensures found.Some? ==> exists x :: |x| == |seed| && found.value == Candidate(c, block, x)
    ensures found.Some? ==> HasWork(found.value, difficulty)
    ensures found.None? ==> forall x :: |x| == |seed| ==> !HasWork(Candidate(c, block, x), difficulty)
  {
    var n := |seed|;
    var nonce := new byte[n](i requires 0 <= i < n => seed[i]);
    assert nonce[..] == seed;
    var cycle := Pow256(n);
    ghost var start := BigEndian(seed);
    BigEndianBound(seed);
    var tries := 0;
    while tries < cycle
      invariant nonce.Length == n
      invariant 0 <= tries <= cycle
      invariant BigEndian(nonce[..]) == Advanced(start, tries, cycle)
      invariant NoneFound(c, block, difficulty, n, start, tries)
    {
      ghost var before := nonce[..];
      IncrementNonce(nonce);
      CounterStep(before, start, tries);
      var candidate := block.(nonce := Some(c.encode(nonce[..])));
      candidate := candidate.(id := Some(BlockHash(c, candidate)));
      assert candidate == Candidate(c, block, nonce[..]);
      var ok := VerifyBlockHash(candidate, difficulty);
      if ok {
        return Some(candidate);
      }
      CycleStep(c, block, difficulty, start, tries, nonce[..]);
      tries := tries + 1;
    }
    CycleDone(c, block, difficulty, n, start);
    return None;
  }
}
