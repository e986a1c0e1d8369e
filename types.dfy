/**
 * Shared vocabulary of the Dotcoin ledger model: the JSON shapes exchanged between the
 * wallet and the ledger (transactions, outputs, blocks), the stored UTXO record, and the
 * cryptographic primitives the code calls into.
 *
 * A JSON field that may be missing or null is an `Option`; `None` stands for both.
 * Keys, hashes and signatures are base58check-encoded strings, as in the source.
 */
module Types {

  datatype Option<+T> = None | Some(value: T) {
    function GetOr(default: T): T {
      if Some? then value else default
    }
  }

  /** An element of a Uint8Array. */
  type byte = x: int | 0 <= x < 256

  /** A base58check-encoded extended key (`xpub…` or `xprv…`). */
  type Key = string
  /** A base58check-encoded hash (transaction id, block id, Merkle root). */
  type Hash = string
  /** A base58check-encoded signature. */
  type Sig = string

  /** What `HDKey.deriveChild` yields: the public extended key always, the private
      material only when the parent had some. `privateExtendedKey` is meaningful only
      when `privateKey` is present (the library getter throws otherwise). */
  datatype HDKey = HDKey(publicExtendedKey: Key, privateKey: Option<seq<byte>>, privateExtendedKey: Key)

  /** An account chain key derived from the wallet mnemonic: always private. */
  datatype AccountKey = AccountKey(publicExtendedKey: Key, privateExtendedKey: Key)

  /**
   * The primitives the core uses and does not define, as uninterpreted functions:
   * keccak-256, base58check encoding and decoding, `keyToUint8Array`, the child index
   * embedded in an extended key, BIP-32 child derivation, the account key at
   * m/44'/1'/account'/chain for a mnemonic, signing and signature verification over a
   * digest, the Merkle root of a list of ids, and the poseidon hash of three field elements.
   */
  datatype Crypto = Crypto(
    keccak: seq<byte> -> seq<byte>,
    encode: seq<byte> -> string,
    decode: string -> seq<byte>,
    keyBytes: Key -> seq<byte>,
    keyIndex: Key -> nat,
    deriveChild: (Key, nat) -> HDKey,
    accountKey: (string, nat, nat) -> AccountKey,
    sign: (Hash, Key) -> Sig,
    verify: (Hash, Key, Sig) -> bool,
    merkleRoot: seq<Hash> -> Hash,
    poseidon3: (int, int, int) -> int)

  /** Derivation chains of an account. */
  const CHANGE: nat := 0
  const RECEIVE: nat := 1
  const SHIELDED: nat := 2

  /** A transaction output as it travels in a transaction: `{address, amount, txIn}`. */
  datatype Out = Out(address: Option<Key>, amount: Option<int>, txIn: Option<Hash>)

  /**
   * A transaction object. `signatures` is the field the wallet fills; `signature` is the
   * field the ledger moves the signatures to once it has verified them; `block` is the id
   * of the confirming block.
   */
  datatype Tx = Tx(
    id: Option<Hash>,
    utxoIns: Option<seq<Key>>,
    utxoOuts: Option<seq<Out>>,
    signatures: Option<seq<Sig>>,
    signature: Option<seq<Sig>>,
    block: Option<Hash>)

  /** A block object: `{_id, previous, root, nonce}`. */
  datatype Block = Block(id: Option<Hash>, previous: Option<Hash>, root: Option<Hash>, nonce: Option<string>)

  /** A UTXO as the store returns it from `getUtxo(address)`. */
  datatype Utxo = Utxo(address: Key, amount: int, txIn: Option<Hash>)

  /** `config.x || d` for a numeric configuration entry: 0 and absent fall back to `d`. */
  function OrDefault(v: Option<int>, d: int): (r: int)
    ensures v.Some? && v.value != 0 ==> r == v.value
    ensures v.None? || v == Some(0) ==> r == d
  {
    if v.Some? && v.value != 0 then v.value else d
  }

  datatype Config = Config(difficulty: Option<int>, limit: Option<int>, amount: Option<int>)
}
