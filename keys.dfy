/**
 * Key handling of core/common.mjs: child-key derivation over abstract BIP-32, the
 * descendant test, one-time child-index allocation, per-input signing, and the shielded
 * coin commitment over abstract poseidon.
 */
module Keys {
  import opened Types

  /** `getChildKeys(key, index)`: `{publicKey}` or `{publicKey, privateKey}`. */
  datatype ChildKeys = ChildKeys(publicKey: Key, privateKey: Option<Key>)

  /** `getChildKeys`: the public extended key of the child always, its private extended
      key exactly when the derived child holds private material. */
  function GetChildKeys(c: Crypto, key: Key, index: nat): (r: ChildKeys)
    ensures r.publicKey == c.deriveChild(key, index).publicExtendedKey
    ensures r.privateKey.Some? <==> c.deriveChild(key, index).privateKey.Some?
    ensures r.privateKey.Some? ==> r.privateKey.value == c.deriveChild(key, index).privateExtendedKey
  {
    var child := c.deriveChild(key, index);
    if child.privateKey.Some? then ChildKeys(child.publicExtendedKey, Some(child.privateExtendedKey))
    else ChildKeys(child.publicExtendedKey, None)
  }

  /** `isChild(parent, child)`: re-derive the child of `parent` at the index embedded in
      `child` and compare the public extended keys. (The second comparison in the source,
      against a field `getChildKeys` never sets, is always false.) */
  predicate IsChild(c: Crypto, parent: Key, child: Key)
  {
    GetChildKeys(c, parent, c.keyIndex(child)).publicKey == child
  }

  /** A key derived from `parent` is recognised as its child whenever the derived key
      embeds the index it was derived at; and `isChild` holds only of the public child of
      `parent` at the embedded index. */
  lemma IsChildCharacterisation(c: Crypto, parent: Key, child: Key, i: nat)
    ensures c.keyIndex(c.deriveChild(parent, i).publicExtendedKey) == i ==>
              IsChild(c, parent, c.deriveChild(parent, i).publicExtendedKey)
    ensures IsChild(c, parent, child) <==> c.deriveChild(parent, c.keyIndex(child)).publicExtendedKey == child
  {
  }

  // ---------------------------------------------------------------------------------------
  // One-time child-index allocation

  /** The index `getNextAvailableChild` settles on after scanning `utxos`: the loop keeps
      `maxIndex` and bumps it to `index + 1` whenever an index reaches it. */
  function NextIndex(c: Crypto, utxos: seq<Out>): nat
    requires forall i :: 0 <= i < |utxos| ==> utxos[i].address.Some?
  {
    if utxos == [] then 0
    else
      var m := NextIndex(c, utxos[..|utxos| - 1]);
      var k := c.keyIndex(utxos[|utxos| - 1].address.value);
      if k >= m then k + 1 else m
  }

  /** The allocated index is 0 for no UTXOs, and otherwise one past the largest index
      observed: strictly above every observed index and attained by one of them. */
  lemma {:induction false} NextIndexIsOnePastMax(c: Crypto, utxos: seq<Out>)
    requires forall i :: 0 <= i < |utxos| ==> utxos[i].address.Some?
    ensures utxos == [] <==> NextIndex(c, utxos) == 0
    ensures forall i :: 0 <= i < |utxos| ==> c.keyIndex(utxos[i].address.value) < NextIndex(c, utxos)
    ensures utxos != [] ==> exists i :: 0 <= i < |utxos| && c.keyIndex(utxos[i].address.value) + 1 == NextIndex(c, utxos)
  {
    if utxos != [] {
      var front := utxos[..|utxos| - 1];
      NextIndexIsOnePastMax(c, front);
      assert forall i :: 0 <= i < |front| ==> front[i] == utxos[i];
      var k := c.keyIndex(utxos[|utxos| - 1].address.value);
      if k < NextIndex(c, front) {
        var i :| 0 <= i < |front| && c.keyIndex(front[i].address.value) + 1 == NextIndex(c, front);
        assert c.keyIndex(utxos[i].address.value) + 1 == NextIndex(c, utxos);
      }
    }
  }

  /** `getNextAvailableChild(address, utxos)`: the child of `address` at the first index
      past every index found among `utxos`. */
  method GetNextAvailableChild(c: Crypto, address: Key, utxos: seq<Out>) returns (available: ChildKeys)
    requires forall i :: 0 <= i < |utxos| ==> utxos[i].address.Some?
    ensures available == GetChildKeys(c, address, NextIndex(c, utxos))
  {
    var maxIndex := 0;
    var i := 0;
    while i < |utxos|
      invariant 0 <= i <= |utxos|
      invariant maxIndex == NextIndex(c, utxos[..i])
    {
      assert utxos[..i + 1][..i] == utxos[..i];
      var index := c.keyIndex(utxos[i].address.value);
      if index >= maxIndex {
        maxIndex := index + 1;
      }
      i := i + 1;
    }
    assert utxos[..|utxos|] == utxos;
    available := GetChildKeys(c, address, maxIndex);
  }

  // ---------------------------------------------------------------------------------------
  // Signing

  /** BIP-32 derives a private child from a private parent: the account chain keys of the
      wallet can sign for any of their children. */
  ghost predicate CanSign(c: Crypto, mnemonic: string, account: nat)
  {
    && (forall i: nat :: c.deriveChild(c.accountKey(mnemonic, account, RECEIVE).privateExtendedKey, i).privateKey.Some?)
    && (forall i: nat :: c.deriveChild(c.accountKey(mnemonic, account, CHANGE).privateExtendedKey, i).privateKey.Some?)
  }

  /** The signature one input receives: the receive chain is tried first, then the change
      chain; an input that neither chain derives at its embedded index gets none. */
  function SignatureFor(c: Crypto, tHash: Hash, mnemonic: string, account: nat, utxo: Key): (r: Option<Sig>)
    requires CanSign(c, mnemonic, account)
    ensures r.Some? <==> Owns(c, mnemonic, account, utxo)
  {
    var receiving := GetChildKeys(c, c.accountKey(mnemonic, account, RECEIVE).privateExtendedKey, c.keyIndex(utxo));
    var change := GetChildKeys(c, c.accountKey(mnemonic, account, CHANGE).privateExtendedKey, c.keyIndex(utxo));
    if receiving.publicKey == utxo then Some(c.sign(tHash, receiving.privateKey.value))
    else if change.publicKey == utxo then Some(c.sign(tHash, change.privateKey.value))
    else None
  }

  /** The signatures `signUtxos` collects: one per input that has one, in input order. */
  function Signatures(c: Crypto, tHash: Hash, mnemonic: string, account: nat, utxos: seq<Key>): (r: seq<Sig>)
    requires CanSign(c, mnemonic, account)
    ensures |r| <= |utxos|
  {
    if utxos == [] then []
    else
      var front := Signatures(c, tHash, mnemonic, account, utxos[..|utxos| - 1]);
      match SignatureFor(c, tHash, mnemonic, account, utxos[|utxos| - 1])
      case None => front
      case Some(s) => front + [s]
  }

  /** The wallet owns an input when one of its two chains derives it. */
  predicate Owns(c: Crypto, mnemonic: string, account: nat, utxo: Key)
  {
    || IsChild(c, c.accountKey(mnemonic, account, RECEIVE).privateExtendedKey, utxo)
    || IsChild(c, c.accountKey(mnemonic, account, CHANGE).privateExtendedKey, utxo)
  }

  /** There is one signature per input exactly when the wallet owns every input;
      otherwise the list is silently shorter. */
  lemma {:induction false} SignaturesComplete(c: Crypto, tHash: Hash, mnemonic: string, account: nat, utxos: seq<Key>)
    requires CanSign(c, mnemonic, account)
    ensures |Signatures(c, tHash, mnemonic, account, utxos)| == |utxos| <==>
              forall i :: 0 <= i < |utxos| ==> Owns(c, mnemonic, account, utxos[i])
  {
    if utxos != [] {
      var front := utxos[..|utxos| - 1];
      SignaturesComplete(c, tHash, mnemonic, account, front);
      assert forall i :: 0 <= i < |front| ==> front[i] == utxos[i];
      var last := utxos[|utxos| - 1];
      assert SignatureFor(c, tHash, mnemonic, account, last).Some? <==> Owns(c, mnemonic, account, last);
    }
  }

  /** `signUtxos(tHash, mnemonic, account, utxos)`. */
  method SignUtxos(c: Crypto, tHash: Hash, mnemonic: string, account: nat, utxos: seq<Key>) returns (signatures: seq<Sig>)
    requires CanSign(c, mnemonic, account)
    ensures signatures == Signatures(c, tHash, mnemonic, account, utxos)
    ensures |signatures| <= |utxos|
  {
    var receivingKeyPair := c.accountKey(mnemonic, account, RECEIVE);
    var changeKeyPair := c.accountKey(mnemonic, account, CHANGE);
    signatures := [];
    var i := 0;
    while i < |utxos|
      invariant 0 <= i <= |utxos|
      invariant signatures == Signatures(c, tHash, mnemonic, account, utxos[..i])
    {
      assert utxos[..i + 1][..i] == utxos[..i];
      var utxo := utxos[i];
      var index := c.keyIndex(utxo);
      var derived := GetChildKeys(c, receivingKeyPair.privateExtendedKey, index);
      if derived.publicKey == utxo {
        signatures := signatures + [c.sign(tHash, derived.privateKey.value)];
      } else {
        derived := GetChildKeys(c, changeKeyPair.privateExtendedKey, index);
        if derived.publicKey == utxo {
          signatures := signatures + [c.sign(tHash, derived.privateKey.value)];
        }
      }
      i := i + 1;
    }
    assert utxos[..|utxos|] == utxos;
  }

  // ---------------------------------------------------------------------------------------
  // Shielded coins

  datatype ShieldedCoin = ShieldedCoin(apk: int, value: int, rho: int, r: int, s: int, cm: int)
  /** The payload handed to the recipient (not encrypted, despite its name in the source). */
  datatype CoinPayload = CoinPayload(amount: int, k: int, s: int, cm: int)

  /** A coin whose commitment opens to its five components. */
  predicate Opens(c: Crypto, coin: ShieldedCoin)
  {
    coin.cm == c.poseidon3(coin.value, c.poseidon3(coin.apk, coin.rho, coin.r), coin.s)
  }

  /** `createShieldedCoin(value, apk)` with the three random field elements as inputs. */
  function CreateShieldedCoin(c: Crypto, value: int, apk: int, rho: int, r: int, s: int): (result: (ShieldedCoin, CoinPayload))
    ensures Opens(c, result.0)
    ensures result.0.apk == apk && result.0.value == value && result.0.rho == rho && result.0.r == r && result.0.s == s
    ensures result.1 == CoinPayload(value, c.poseidon3(apk, rho, r), s, result.0.cm)
  {
    var k := c.poseidon3(apk, rho, r);
    var cm := c.poseidon3(value, k, s);
    (ShieldedCoin(apk, value, rho, r, s, cm), CoinPayload(value, k, s, cm))
  }

  /** The payload alone lets the recipient recompute the commitment from `amount`, `k`
      and `s`, without `apk`, `rho` or `r`. */
  lemma PayloadRecomputesCommitment(c: Crypto, value: int, apk: int, rho: int, r: int, s: int)
    ensures var (coin, payload) := CreateShieldedCoin(c, value, apk, rho, r, s);
            payload.cm == c.poseidon3(payload.amount, payload.k, payload.s)
  {
  }
}
