/**
 * Canonical serialisation (utils/utils.mjs): little-endian amount encoding and the byte
 * layout of the transaction-hash and block-hash preimages.
 */
module Codec {
  import opened Types

  function Pow256(i: nat): (r: nat)
    ensures r > 0
  {
    if i == 0 then 1 else 256 * Pow256(i - 1)
  }

  const TWO_TO_THE_64: nat := 0x1_0000_0000_0000_0000

  /** The `n` bytes `numToUint8Array` writes: byte `i` is `num % 256` after `i` floor
      divisions by 256. JavaScript's `%` followed by the Uint8Array store, and
      `Math.floor(num / 256)`, agree with Dafny's Euclidean `%` and `/` for the divisor 256,
      negative `num` included. */
  function LittleEndian(num: int, n: nat): (r: seq<byte>)
    ensures |r| == n
    decreases n
  {
    if n == 0 then [] else [num % 256] + LittleEndian(num / 256, n - 1)
  }

  /** The value a little-endian byte string denotes. */
  function FromLittleEndian(s: seq<byte>): nat
  {
    if s == [] then 0 else s[0] + 256 * FromLittleEndian(s[1..])
  }

  lemma DivUnique(a: int, d: int, q: int, r: int)
    requires d > 0 && a == d * q + r && 0 <= r < d
    ensures a / d == q && a % d == r
  {
    var q0, r0 := a / d, a % d;
    assert d * (q - q0) == r0 - r;
    if q - q0 >= 1 {
      MulAtLeast(d, q - q0);
    } else if q0 - q >= 1 {
      MulAtLeast(d, q0 - q);
    }
  }

  lemma MulAtLeast(d: int, k: int)
    requires d > 0 && k >= 1
    ensures d * k >= d
  {
    assert d * k == d * (k - 1) + d;
  }

  /** Floor division by a product is repeated floor division. */
  lemma DivDiv(a: int, b: int, c: int)
    requires b > 0 && c > 0
    ensures a / b / c == a / (b * c)
    ensures a % (b * c) == a % b + b * ((a / b) % c)
  {
    var q1, r1 := a / b, a % b;
    var q2, r2 := q1 / c, q1 % c;
    assert a == b * q1 + r1;
    assert q1 == c * q2 + r2;
    assert a == (b * c) * q2 + (b * r2 + r1) by {
      assert b * q1 == b * (c * q2) + b * r2;
      assert b * (c * q2) == (b * c) * q2;
    }
    assert 0 <= b * r2 <= b * (c - 1) by {
      assert r2 <= c - 1;
    }
    assert b * (c - 1) == b * c - b;
    DivUnique(a, b * c, q2, b * r2 + r1);
  }

  /** Byte `i` of the encoding is `(num / 256^i) % 256`. */
  lemma {:induction false} LittleEndianAt(num: int, n: nat, i: nat)
    requires i < n
    ensures LittleEndian(num, n)[i] == (num / Pow256(i)) % 256
    decreases n
  {
    if i > 0 {
      LittleEndianAt(num / 256, n - 1, i - 1);
      DivDiv(num, 256, Pow256(i - 1));
    }
  }

  /** Decoding the `n` bytes gives back `num` modulo 256^n. */
  lemma {:induction false} LittleEndianRoundTrip(num: int, n: nat)
    ensures FromLittleEndian(LittleEndian(num, n)) == num % Pow256(n)
    decreases n
  {
    if n > 0 {
      var s := LittleEndian(num, n);
      assert s[1..] == LittleEndian(num / 256, n - 1);
      LittleEndianRoundTrip(num / 256, n - 1);
      DivDiv(num, 256, Pow256(n - 1));
    }
  }

  /** Digit `i` of `num` in base 256, for `i < n`. */
  function Digits(num: int, n: nat): (r: seq<byte>)
    ensures |r| == n
  {
    seq(n, i requires 0 <= i < n => (num / Pow256(i)) % 256)
  }

  /** The recursive encoding writes the base-256 digits of `num`, least significant first. */
  lemma LittleEndianDigits(num: int, n: nat)
    ensures LittleEndian(num, n) == Digits(num, n)
  {
    forall i | 0 <= i < n
      ensures LittleEndian(num, n)[i] == Digits(num, n)[i]
    {
      LittleEndianAt(num, n, i);
    }
  }

  /** Decoding the `n` digits gives back `num` modulo 256^n. */
  lemma DigitsRoundTrip(num: int, n: nat)
    ensures FromLittleEndian(Digits(num, n)) == num % Pow256(n)
  {
    LittleEndianDigits(num, n);
    LittleEndianRoundTrip(num, n);
  }

  /** `numToUint8Array(num)` as a value: byte `i` is digit `i` of `num` in base 256. */
  function LE64(num: int): (r: seq<byte>)
    ensures |r| == 8
  {
    Digits(num, 8)
  }

  /** For `0 <= num < 2^64` the eight bytes decode back to `num`. */
  lemma LE64RoundTrip(num: int)
    requires 0 <= num < TWO_TO_THE_64
    ensures FromLittleEndian(LE64(num)) == num
  {
    DigitsRoundTrip(num, 8);
    assert Pow256(8) == TWO_TO_THE_64;
    DivUnique(num, TWO_TO_THE_64, 0, num);
  }

  /** One more digit extends the encoding by one byte, `num / 256^n` further divided
      once more by 256. */
  lemma NextDigit(num: int, n: nat)
    ensures Digits(num, n + 1) == Digits(num, n) + [(num / Pow256(n)) % 256]
    ensures num / Pow256(n) / 256 == num / Pow256(n + 1)
  {
    DivDiv(num, Pow256(n), 256);
  }

  /** `numToUint8Array`: fills an 8-byte array, dividing `num` by 256 at every step. */
  method NumToUint8Array(num: int) returns (arr: array<byte>)
    ensures arr.Length == 8
    ensures arr[..] == LE64(num)
  {
    arr := new byte[8];
    var rest := num;
    var i := 0;
    while i < 8
      invariant 0 <= i <= 8
      invariant rest == num / Pow256(i)
      invariant arr[..i] == Digits(num, i)
    {
      NextDigit(num, i);
      arr[i] := rest % 256;
      assert arr[..i + 1] == arr[..i] + [rest % 256];
      rest := rest / 256;
      i := i + 1;
    }
    assert arr[..] == arr[..8];
  }

  // ---------------------------------------------------------------------------------------
  // Transaction hash

  /** Part one of the preimage: the public-key bytes of every input, in order. */
  function InputsPart(c: Crypto, ins: seq<Key>): seq<byte>
  {
    if ins == [] then [] else InputsPart(c, ins[..|ins| - 1]) + c.keyBytes(ins[|ins| - 1])
  }

  /** The bytes one output contributes: its address key bytes, then LE64 of its amount.
      A null or absent amount serialises as eight zero bytes (`null % 256` is 0 and
      `NaN` stores as 0); a missing address makes `keyToUint8Array` throw, hence `None`. */
  function OutputBytes(c: Crypto, o: Out): (r: Option<seq<byte>>)
    ensures r.Some? <==> o.address.Some?
    ensures r.Some? ==> && |r.value| == |c.keyBytes(o.address.value)| + 8
                        && r.value[..|c.keyBytes(o.address.value)|] == c.keyBytes(o.address.value)
                        && r.value[|c.keyBytes(o.address.value)|..] == LE64(o.amount.GetOr(0))
  {
    if o.address.None? then None else Some(c.keyBytes(o.address.value) + LE64(o.amount.GetOr(0)))
  }

  /** Part two of the preimage; `None` when some output lacks an address. */
  function OutputsPart(c: Crypto, outs: seq<Out>): (r: Option<seq<byte>>)
    ensures r.Some? <==> forall i :: 0 <= i < |outs| ==> outs[i].address.Some?
  {
    if outs == [] then Some([])
    else
      var n := |outs| - 1;
      var front := OutputsPart(c, outs[..n]);
      var last := OutputBytes(c, outs[n]);
      assert forall i :: 0 <= i < n ==> outs[..n][i] == outs[i];
      if front.None? || last.None? then None else Some(front.value + last.value)
  }

  /** The single element `new Uint8Array([...output, decoded])` stores for one decoded
      signature: the array converts to a number through its string form, so a one-byte
      signature gives that byte and any other length gives NaN, stored as 0. */
  function SignatureElement(decoded: seq<byte>): byte
  {
    if |decoded| == 1 then decoded[0] else 0
  }

  /** Part three of the preimage: one element per signature. */
  function SignaturesPart(c: Crypto, sigs: seq<Sig>): seq<byte>
  {
    if sigs == [] then [] else SignaturesPart(c, sigs[..|sigs| - 1]) + [SignatureElement(c.decode(sigs[|sigs| - 1]))]
  }

  /** The preimage of `getTransactionHash(tx)`: inputs (only when the field exists),
      outputs, then signatures (only when the field exists). */
  function TxPreimage(c: Crypto, tx: Tx): (r: Option<seq<byte>>)
    requires tx.utxoOuts.Some?
    ensures r.Some? <==> OutputsPart(c, tx.utxoOuts.value).Some?
  {
    var ins := if tx.utxoIns.Some? then InputsPart(c, tx.utxoIns.value) else [];
    var sigs := if tx.signatures.Some? then SignaturesPart(c, tx.signatures.value) else [];
    match OutputsPart(c, tx.utxoOuts.value)
    case None => None
    case Some(outs) => Some(ins + outs + sigs)
  }

  /** `getTransactionHash(tx)`; `None` where the source throws. */
  function TxHash(c: Crypto, tx: Tx): (r: Option<Hash>)
    requires tx.utxoOuts.Some?
    ensures r.Some? <==> forall i :: 0 <= i < |tx.utxoOuts.value| ==> tx.utxoOuts.value[i].address.Some?
  {
    match TxPreimage(c, tx)
    case None => None
    case Some(p) => Some(c.encode(c.keccak(p)))
  }

  /** Each signature adds exactly one element to the preimage. */
  lemma {:induction false} SignaturesPartLength(c: Crypto, sigs: seq<Sig>)
    ensures |SignaturesPart(c, sigs)| == |sigs|
  {
    if sigs != [] {
      SignaturesPartLength(c, sigs[..|sigs| - 1]);
    }
  }

  /** The preimage therefore binds only the number of signatures whose decoding is not a
      single byte: two lists of equal length of such signatures give the same bytes. */
  lemma {:induction false} SignaturesPartIgnoresContent(c: Crypto, s1: seq<Sig>, s2: seq<Sig>)
    requires |s1| == |s2|
    requires forall i :: 0 <= i < |s1| ==> |c.decode(s1[i])| != 1 && |c.decode(s2[i])| != 1
    ensures SignaturesPart(c, s1) == SignaturesPart(c, s2)
  {
    if s1 != [] {
      SignaturesPartIgnoresContent(c, s1[..|s1| - 1], s2[..|s2| - 1]);
    }
  }

  /** The hash depends on `utxoIns`, `utxoOuts` and `signatures` only, and an empty
      `signatures` list hashes like an absent one. */
  lemma TxHashFields(c: Crypto, t1: Tx, t2: Tx)
    requires t1.utxoOuts.Some? && t1.utxoIns == t2.utxoIns && t1.utxoOuts == t2.utxoOuts
    requires t1.signatures == t2.signatures || (t1.signatures.GetOr([]) == [] && t2.signatures.GetOr([]) == [])
    ensures TxHash(c, t1) == TxHash(c, t2)
  {
  }

  /** The input loop of `getTransactionHash`. */
  method InputsBytes(c: Crypto, ins: seq<Key>) returns (output: seq<byte>)
    ensures output == InputsPart(c, ins)
  {
    output := [];
    var i := 0;
    while i < |ins|
      invariant 0 <= i <= |ins|
      invariant output == InputsPart(c, ins[..i])
    {
      assert ins[..i + 1][..i] == ins[..i];
      output := output + c.keyBytes(ins[i]);
      i := i + 1;
    }
    assert ins[..|ins|] == ins;
  }

  /** The output loop of `getTransactionHash`; `None` where `keyToUint8Array` throws. */
  method OutputsBytes(c: Crypto, outs: seq<Out>) returns (output: Option<seq<byte>>)
    ensures output == OutputsPart(c, outs)
  {
    var bytes: seq<byte> := [];
    var j := 0;
    while j < |outs|
      invariant 0 <= j <= |outs|
      invariant OutputsPart(c, outs[..j]) == Some(bytes)
    {
      assert outs[..j + 1][..j] == outs[..j];
      if outs[j].address.None? {
        OutputsPartPrefix(c, outs, j + 1);
        return None;
      }
      var amountBytes := NumToUint8Array(outs[j].amount.GetOr(0));
      bytes := bytes + (c.keyBytes(outs[j].address.value) + amountBytes[..]);
      j := j + 1;
    }
    assert outs[..|outs|] == outs;
    output := Some(bytes);
  }

  /** The signature loop of `getTransactionHash`. */
  method SignaturesBytes(c: Crypto, sigs: seq<Sig>) returns (output: seq<byte>)
    ensures output == SignaturesPart(c, sigs)
  {
    output := [];
    var k := 0;
    while k < |sigs|
      invariant 0 <= k <= |sigs|
      invariant output == SignaturesPart(c, sigs[..k])
    {
      assert sigs[..k + 1][..k] == sigs[..k];
      output := output + [SignatureElement(c.decode(sigs[k]))];
      k := k + 1;
    }
    assert sigs[..|sigs|] == sigs;
  }

  /** `getTransactionHash`: inputs when the field exists, outputs, signatures when the
      field exists, then keccak and base58check. */
  method TransactionHash(c: Crypto, tx: Tx) returns (r: Option<Hash>)
    requires tx.utxoOuts.Some?
    ensures r == TxHash(c, tx)
    ensures r.Some? <==> forall i :: 0 <= i < |tx.utxoOuts.value| ==> tx.utxoOuts.value[i].address.Some?
  {
    var ins: seq<byte> := [];
    if tx.utxoIns.Some? {
      ins := InputsBytes(c, tx.utxoIns.value);
    }
    var outs := OutputsBytes(c, tx.utxoOuts.value);
    if outs.None? {
      return None;
    }
    var sigs: seq<byte> := [];
    if tx.signatures.Some? {
      sigs := SignaturesBytes(c, tx.signatures.value);
    }
    r := Some(c.encode(c.keccak(ins + outs.value + sigs)));
  }

  /** A prefix without a preimage means the whole list has none. */
  lemma {:induction false} OutputsPartPrefix(c: Crypto, outs: seq<Out>, n: nat)
    requires n <= |outs| && OutputsPart(c, outs[..n]).None?
    ensures OutputsPart(c, outs).None?
  {
    var i :| 0 <= i < n && outs[..n][i].address.None?;
    assert outs[i].address.None?;
  }

  // ---------------------------------------------------------------------------------------
  // Block hash

  /** `previous` contributes its decoded bytes, or nothing when it is falsy (absent or ""). */
  function PreviousBytes(c: Crypto, previous: Option<Hash>): seq<byte>
  {
    if previous.Some? && previous.value != "" then c.decode(previous.value) else []
  }

  /** The preimage of `getBlockHash`: previous bytes, root bytes, nonce bytes. */
  function BlockPreimage(c: Crypto, b: Block): (r: seq<byte>)
    requires b.root.Some? && b.nonce.Some?
    ensures |r| == |PreviousBytes(c, b.previous)| + |c.decode(b.root.value)| + |c.decode(b.nonce.value)|
    ensures r[..|PreviousBytes(c, b.previous)|] == PreviousBytes(c, b.previous)
    ensures r[|PreviousBytes(c, b.previous)|..|r| - |c.decode(b.nonce.value)|] == c.decode(b.root.value)
    ensures r[|r| - |c.decode(b.nonce.value)|..] == c.decode(b.nonce.value)
  {
    PreviousBytes(c, b.previous) + c.decode(b.root.value) + c.decode(b.nonce.value)
  }

  /** `getBlockHash(block)`. */
  function BlockHash(c: Crypto, b: Block): Hash
    requires b.root.Some? && b.nonce.Some?
  {
    c.encode(c.keccak(BlockPreimage(c, b)))
  }

  /** The block hash ignores `_id`, and a genesis block (`previous` absent) hashes like one
      whose `previous` is the empty string. */
  lemma BlockHashFields(c: Crypto, b: Block, id: Option<Hash>)
    requires b.root.Some? && b.nonce.Some?
    ensures BlockHash(c, b.(id := id)) == BlockHash(c, b)
    ensures b.previous.None? ==> BlockHash(c, b.(previous := Some(""))) == BlockHash(c, b)
  {
  }

  // ---------------------------------------------------------------------------------------
  // Merkle membership proof

  datatype MerkleProof = MerkleProof(siblings: seq<seq<int>>, pathIndices: seq<int>)
  /** `treeSiblings` holds `undefined` (`None`) for an empty sibling group. */
  datatype MerkleInfo = MerkleInfo(treeSiblings: seq<Option<int>>, treePathIndices: seq<int>)

  /** `getMerkleInfo`: each sibling group is replaced by its first element (`s[0]`, which is
      `undefined` for an empty group); the path indices pass through. */
  function GetMerkleInfo(proof: MerkleProof): (r: MerkleInfo)
    ensures |r.treeSiblings| == |proof.siblings|
    ensures forall i :: 0 <= i < |r.treeSiblings| && proof.siblings[i] != [] ==> r.treeSiblings[i] == Some(proof.siblings[i][0])
    ensures forall i :: 0 <= i < |r.treeSiblings| && proof.siblings[i] == [] ==> r.treeSiblings[i].None?
    ensures r.treePathIndices == proof.pathIndices
  {
    var siblings := proof.siblings;
    MerkleInfo(seq(|siblings|, i requires 0 <= i < |siblings| => if siblings[i] == [] then None else Some(siblings[i][0])),
               proof.pathIndices)
  }
}
