# Dotcoin ledger core in Dafny

Dotcoin is a small UTXO cryptocurrency. Its core has three parts:

- A **server** (`DotcoinServer`) owns the ledger store. It admits transactions and blocks.
  - A transaction names unspent outputs (UTXOs), identified by their one-time public keys, as its inputs. The code never marks them spent (see below). It creates new outputs at fresh keys, signs every input, and carries its own hash as id.
  - A block commits to a coinbase transaction and a list of pending transaction ids through a Merkle root. It points at the previous block and carries a proof-of-work nonce: its id must start with `difficulty` characters `'1'`.
- A **wallet client** (`DotcoinClient`) only reads the store. It derives BIP-32 keys from a mnemonic on two chains per account (receive and change) and finds the UTXOs paid to children of those keys. It computes balances, builds and signs transfers with coin selection, and assembles coinbase transactions and mined block templates.
- **Shared helpers** cover canonical serialisation (the transaction- and block-hash preimages, little-endian amounts), child-key derivation, the descendant test, one-time child-index allocation, per-input signing, the nonce counter, the difficulty test, the nonce search, and shielded-coin commitments.

## How the project is laid out

| file | module | what it models |
|---|---|---|
| `types.dfy` | `Types` | The documents: `Tx`, `Out`, `Block`, `Utxo`. Configuration entries and their `||` defaults. The crypto primitives (keccak, base58check, BIP-32, signatures, Merkle root, poseidon) are uninterpreted fields of a `Crypto` value that every operation takes. |
| `codec.dfy` | `Codec` | `numToUint8Array`, the transaction-hash and block-hash preimages, and `getMerkleInfo`. |
| `keys.dfy` | `Keys` | `getChildKeys`, `isChild`, `getNextAvailableChild`, `signUtxos` and `createShieldedCoin`. |
| `pow.dfy` | `ProofOfWork` | `incrementNonce` on a byte array, `verifyBlockHash` and `findNonce`. |
| `store.dfy` | `Database` | The store interface the core calls: lookups, newest-first listings, inserts, confirmation. |
| `admission.dfy` | `Admission` | The checks of `verifyTransaction` and `addBlock` as functions of the store, their order-free meaning, and the store after an accepted block. |
| `server.dfy` | `Server` | The class `DotcoinServer`, whose methods update the store field and the caller's objects. They are proved equal to the `Admission` functions. |
| `wallet.dfy` | `Wallet` | The class `DotcoinClient` and the functions that specify each of its methods. |
| `clientserver.dfy` | `ClientServer` | What the client produces, held against what the server accepts. |

**Error paths.** A `ValidationError` thrown by the server is `Fail(Invalid(e))`. A runtime `TypeError` the source would raise is `Fail(Crash(f))`. `getTransactionHash` of an output without an address is `None`.

**Randomness.** Random inputs of the source are parameters:
- the `findNonce` starting counter;
- the generated mnemonic;
- the three random field elements of a shielded coin;
- the key the store generates for a transaction without `_id`.

## Model

| member | source | states |
|---|---|---|
| Types.OrDefault | core/server.mjs:22-24 | `config.x || d` keeps a non-zero entry and falls back to `d` for an absent or zero one. |
| Codec.Pow256 | utils/utils.mjs:37-40 | The place values of the 8-byte encoding are positive. |
| Codec.LittleEndian | utils/utils.mjs:35-42 | The encoding loop, written as a recursion, produces exactly `n` bytes. |
| Codec.LittleEndianAt | utils/utils.mjs:37-40 | Byte `i` of the encoding is `(num / 256^i) % 256`, with floor division, negative amounts included. |
| Codec.LittleEndianRoundTrip | utils/utils.mjs:35-42 | Decoding the `n` bytes little-endian gives back `num` modulo 256^n. |
| Codec.Digits | utils/utils.mjs:35-42 | The base-256 digit string has exactly `n` digits. |
| Codec.LittleEndianDigits | utils/utils.mjs:35-42 | The recursive encoding and the digit-by-digit definition agree. |
| Codec.DigitsRoundTrip | utils/utils.mjs:35-42 | Decoding the digits gives back `num` modulo 256^n. |
| Codec.LE64 | utils/utils.mjs:35-42 | The encoding of an amount is always 8 bytes. |
| Codec.LE64RoundTrip | utils/utils.mjs:35-42 | For every amount in `[0, 2^64)` the 8 bytes decode back to the amount: the encoding is lossless there. |
| Codec.NextDigit | utils/utils.mjs:38-39 | One loop step appends the next digit, and `Math.floor(num / 256)` carries the remaining value. |
| Codec.NumToUint8Array | utils/utils.mjs:35-42 | The method returns an 8-element array holding exactly the little-endian digits of `num`. |
| Codec.OutputBytes | utils/utils.mjs:56-60 | An output serialises exactly when it has an address. Its bytes are the address key bytes followed by the 8-byte encoding of its amount. |
| Codec.OutputsPart | utils/utils.mjs:55-61 | The outputs part exists exactly when every output has an address; otherwise `keyToUint8Array` throws. |
| Codec.TxPreimage | utils/utils.mjs:48-66 | The preimage exists exactly when the outputs part does, that is, when every output has an address. Which fields the hash reads is stated by `Codec.TxHashFields`. |
| Codec.SignaturesPartLength | utils/utils.mjs:62-66 | Each signature contributes exactly one byte to the preimage. |
| Codec.SignaturesPartIgnoresContent | utils/utils.mjs:62-66 | Two equally long lists of signatures that do not decode to a single byte give the same preimage bytes. The hash binds their number, not their content. |
| Codec.TxHashFields | utils/utils.mjs:48-68 | The transaction hash depends only on `utxoIns`, `utxoOuts` and `signatures`. An empty signature list hashes like an absent one. |
| Codec.InputsBytes | utils/utils.mjs:50-54 | The input loop yields the concatenated key bytes of every input, in order. |
| Codec.OutputsBytes | utils/utils.mjs:55-61 | The output loop yields the outputs part, or `None` at the first output without an address. |
| Codec.SignaturesBytes | utils/utils.mjs:62-66 | The signature loop yields one element per signature. |
| Codec.TransactionHash | utils/utils.mjs:48-68 | `getTransactionHash` returns the keccak/base58 hash of the preimage. It fails exactly when some output has no address. |
| Codec.OutputsPartPrefix | utils/utils.mjs:55-61 | A prefix that cannot be serialised means the whole list cannot be, so the loop may stop early. |
| Codec.InputsPart | utils/utils.mjs:50-54 | Definition of the inputs part: the key bytes of every input, in input order. `Codec.InputsBytes` proves the loop yields it. |
| Codec.SignatureElement | utils/utils.mjs:64 | Definition: a signature that decodes to one byte stores that byte, any other one stores 0 (`NaN`). |
| Codec.SignaturesPart | utils/utils.mjs:62-66 | Definition of the signatures part, one element per signature in order. Its length is proved by `Codec.SignaturesPartLength`. |
| Codec.TxHash | utils/utils.mjs:48-68 | The transaction hash exists exactly when every output has an address. Otherwise `keyToUint8Array` throws. |
| Codec.PreviousBytes | utils/utils.mjs:75-77 | Definition: a present, non-empty `previous` contributes its decoded bytes; an absent or empty one contributes none. |
| Codec.BlockHash | utils/utils.mjs:74-82 | Definition: keccak and base58 of the block preimage. The fields it reads are stated by `Codec.BlockHashFields`. |
| Codec.BlockPreimage | utils/utils.mjs:74-80 | The block preimage is the previous-id bytes (none when falsy), then the decoded root, then the decoded nonce, with the lengths adding up. |
| Codec.BlockHashFields | utils/utils.mjs:74-82 | The block hash ignores `_id`. A genesis block hashes like one whose `previous` is the empty string. |
| Codec.GetMerkleInfo | utils/utils.mjs:118-125 | The result keeps one entry per level, in order: the first sibling of the group, or `undefined` for an empty group. The path indices pass through. |
| Keys.GetChildKeys | core/common.mjs:72-81 | `getChildKeys` always returns the child's public extended key. It returns the private extended key exactly when the derived child has private material. |
| Keys.IsChild | core/common.mjs:83-92 | Definition: the child of `parent` at the index embedded in `child` has `child` as public key. `Keys.IsChildCharacterisation` states its meaning. |
| Keys.IsChildCharacterisation | core/common.mjs:83-92 | `isChild` holds exactly of the public child of `parent` at the index embedded in `child`. A derived child that embeds its index is recognised. |
| Keys.NextIndex | core/common.mjs:125-133 | Definition: the running maximum, bumped to `index + 1` whenever an index reaches it. `Keys.NextIndexIsOnePastMax` states its meaning. |
| Keys.NextIndexIsOnePastMax | core/common.mjs:125-133 | The allocated index is 0 for no UTXOs. Otherwise it is one past the largest embedded index, so it exceeds every observed one. |
| Keys.GetNextAvailableChild | core/common.mjs:125-136 | The method returns the child keys of `address` at the index one past every index found among the UTXOs. |
| Keys.SignatureFor | core/common.mjs:144-156 | An input gets a signature exactly when the wallet owns it, that is, when its receive or change chain derives the input at its embedded index. |
| Keys.Signatures | core/common.mjs:138-159 | There is never more than one signature per input. |
| Keys.SignaturesComplete | core/common.mjs:138-159 | There is one signature per input exactly when the wallet's receive or change chain derives every input. Otherwise inputs are skipped silently. |
| Keys.SignUtxos | core/common.mjs:138-159 | The signing loop tries the receive chain, then the change chain, for each input. It returns the specified signature list. |
| Keys.CreateShieldedCoin | core/common.mjs:204-221 | The coin opens to its commitment `cm = poseidon3(value, poseidon3(apk, rho, r), s)`. The payload carries amount, `k`, `s` and `cm`. |
| Keys.PayloadRecomputesCommitment | core/common.mjs:210-219 | The recipient can recompute `cm` from the payload alone. |
| ProofOfWork.Increment | core/common.mjs:161-170 | The counter step keeps the nonce length. |
| ProofOfWork.BigEndianBound | core/common.mjs:161-170 | An `n`-byte counter holds a value below 256^n. |
| ProofOfWork.BigEndianInjective | core/common.mjs:161-170 | Counters of equal length are equal exactly when their values are. |
| ProofOfWork.IncrementSteps | core/common.mjs:161-170 | Below the all-255 state the counter goes up by one. At that state it wraps to all zeros. |
| ProofOfWork.IncrementValue | core/common.mjs:161-170 | `incrementNonce` is big-endian `+1` modulo 256^n. |
| ProofOfWork.IncrementNonce | core/common.mjs:161-170 | The in-place carry loop leaves the array holding the incremented counter. |
| ProofOfWork.HasWork | core/common.mjs:172-179 | Definition: a difficulty of 0 or less, or an id whose first `difficulty` characters are `'1'`. `ProofOfWork.VerifyBlockHash` is proved to compute it. |
| ProofOfWork.VerifyBlockHash | core/common.mjs:172-179 | The method returns true exactly when the block id starts with `difficulty` characters `'1'`. A difficulty of 0 or less accepts any block. |
| ProofOfWork.Candidate | core/common.mjs:189-192 | One search step sets the encoded nonce and an id equal to the block hash. It keeps `previous` and `root`. |
| ProofOfWork.CycleStep | core/common.mjs:188-193 | A failed attempt extends the set of counter values known to fail by the one just tried. |
| ProofOfWork.CycleDone | core/common.mjs:188-193 | After 256^n failed steps no nonce of that length meets the difficulty. |
| ProofOfWork.FindNonce | core/common.mjs:186-195 | A found block is a candidate over the header whose id meets the difficulty. `None` means no nonce of the seed's length would ever succeed. |
| Database.Store.GetUtxo | core/server.mjs:64 | A lookup finds the stored UTXO exactly when the address is stored. |
| Database.Store.GetTransaction | core/server.mjs:129 | A lookup finds the stored transaction exactly when the id is stored. |
| Database.Store.GetBlock | core/server.mjs:149 | A lookup finds the stored block exactly when the id is stored. |
| Database.Store.LatestBlock | core/server.mjs:145 | There is a latest block exactly when a block is stored. It is a stored block that carries its own id. |
| Database.Store.Listing | core/client.mjs:55 | The listing holds only stored transactions, and only unconfirmed ones when so filtered. |
| Database.Store.Transactions | core/client.mjs:185 | A page has at most `n` stored transactions (no limit for `n = 0`). With the filter they are all unconfirmed. |
| Database.Store.ListingCovers | core/client.mjs:55 | Every transaction the filter keeps is listed. |
| Database.Store.AllTransactions | core/client.mjs:55 | Without a page limit the listing is exactly the stored transactions, or exactly the unconfirmed ones. |
| Database.Store.Register | core/server.mjs:178 | Storing a transaction makes a UTXO of every output with an address and an amount, and of nothing else. |
| Database.Store.RegisterKeeps | core/server.mjs:178 | An address no output pays keeps the UTXO it had. |
| Database.Store.RegisterStores | core/server.mjs:178 | The UTXO at an output's address carries that output's amount and `txIn`, for the last output paid there. |
| Database.Store.AddTransaction | core/server.mjs:36 | The store stays consistent. It stores the transaction under its key and registers the outputs; blocks are unchanged. |
| Database.Store.AddBlock | core/server.mjs:179 | The store stays consistent. It stores the block under its id; transactions and UTXOs are unchanged. |
| Database.Store.ConfirmTransactions | core/server.mjs:180 | Exactly the listed stored transactions get `block = blockId`. Nothing else changes. |
| Database.EmptyValid | core/server.mjs:26 | A fresh store is consistent. |
| Admission.InputScan | core/server.mjs:62-72 | The input loop can stop only on an unknown or a spent input. |
| Admission.OutputScan | core/server.mjs:75-88 | The output loop can stop only on a missing field or an already used address. |
| Admission.SignatureScan | core/server.mjs:103-109 | The signature loop can stop only on a bad signature. |
| Admission.TxFailure | core/server.mjs:47-108 | Definition: the failures `verifyTransaction` can report, a crash on an output without an address included. |
| Admission.Precheck | core/server.mjs:47-98 | Every failure is of a transaction's kind. A pass means the fields are present, the id is the hash and there is one signature per input. |
| Admission.Verdict | core/server.mjs:41-111 | Every failure is of a transaction's kind. A pass means the checks before the signature loop passed. |
| Admission.InputScanStops | core/server.mjs:65-70 | A stop on a prefix is the stop of the whole loop: the first error wins. |
| Admission.OutputScanStops | core/server.mjs:78-86 | A stop on a prefix is the stop of the whole loop: the first error wins. |
| Admission.SignatureScanStops | core/server.mjs:106-108 | A stop on a prefix is the stop of the whole loop: the first error wins. |
| Admission.Digest | core/server.mjs:100-102 | Signatures are checked against the hash of the transaction with `signatures` deleted. |
| Admission.AfterVerify | core/server.mjs:100-110 | `verifyTransaction` changes only `signatures` and `signature`. It deletes `signatures` once the signature loop is reached, and moves the list to `signature` on success. |
| Admission.HashedOutputsHaveAddresses | core/server.mjs:56 | Once the id check has computed a hash, every output has an address. |
| Admission.InputScanMeaning | core/server.mjs:62-72 | The input loop passes exactly when every input is a stored unspent UTXO. Its sum is their total amount. |
| Admission.OutputScanMeaning | core/server.mjs:75-88 | The output loop passes exactly when every output has an address and an amount at an unused address. Its sum is their total. |
| Admission.SignatureScanMeaning | core/server.mjs:103-109 | The signature loop passes exactly when every signature verifies against its input. |
| Admission.VerdictPassIff | core/server.mjs:41-111 | `verifyTransaction` accepts exactly the transactions meeting all of: fields present, id equal to the hash, inputs spendable, outputs fresh, balance (unless coinbase), one valid signature per input. |
| Admission.MissingAddressUnreported | core/server.mjs:56-82 | The "missing address" rejection is never reported. Hashing an output without an address throws first. |
| Admission.OutputScanNeverMissesAddress | core/server.mjs:78-82 | On addressed outputs the output loop never reports a missing address. |
| Admission.MissingFieldFirst | core/server.mjs:48-53 | A missing field is reported first, in the order `_id`, `utxoIns`, `utxoOuts`, `signatures`, whatever the store holds. |
| Admission.CoinbaseSkipsBalance | core/server.mjs:91-93 | The coinbase flag relaxes the balance rule and nothing else. |
| Admission.TxCrashesWithoutAddress | core/server.mjs:56 | Hashing throws exactly when the fields are present and some output has no address. |
| Admission.TxRejectsId | core/server.mjs:55-59 | The id is rejected exactly when the fields are present, the hash exists, and it differs from `_id`. |
| Admission.TxRejectsInput | core/server.mjs:61-72 | An unknown or spent input is reported exactly when the id matches and some input is not spendable. The input scan's error is the one reported. |
| Admission.TxRejectsOutput | core/server.mjs:74-88 | A missing output field or used address is reported exactly when the inputs are spendable and the outputs are not fresh. The output scan's error is the one reported. |
| Admission.TxRejectsImbalance | core/server.mjs:90-93 | The imbalance is reported exactly when all earlier rules hold, the transaction is no coinbase, and the inputs are worth less than the outputs. |
| Admission.TxRejectsSignatureCount | core/server.mjs:95-98 | The count mismatch is reported exactly when all earlier rules hold and the signature and input counts differ. |
| Admission.TxRejectsSignature | core/server.mjs:100-109 | A bad signature is reported exactly when all earlier rules hold and some signature fails against the hash without signatures. |
| Admission.IdScan | core/server.mjs:128-136 | The id loop stops only on an unknown or an already confirmed id. |
| Admission.IdScanStops | core/server.mjs:128-136 | A stop on a prefix is the stop of the whole id loop. |
| Admission.IdScanMeaning | core/server.mjs:128-136 | The id loop passes exactly when every listed id is a stored unconfirmed transaction. |
| Admission.BlockFailure | core/server.mjs:122-175 | Definition: the failures `addBlock` reports before it verifies the coinbase. |
| Admission.FailureKindsDisjoint | core/server.mjs:122-177 | No failure is both of a block's kind and of a transaction's kind. |
| Admission.BlockShape | core/server.mjs:122-158 | Every failure is of a block's kind. A pass means the coinbase pays `amount`, the list is under the limit, the block is linked and its fields are present. |
| Admission.Prepends | core/server.mjs:160 | Definition: the list is prepended when the shape checks pass and the coinbase has an id. `Server.DotcoinServer.AddBlock` is proved to do so. |
| Admission.BlockPrecheck | core/server.mjs:119-175 | Every failure is of a block's kind. A pass means the fields are present, the root is over `[coinbase id] + ids`, the id is the block hash and the work is met. |
| Admission.BlockVerdict | core/server.mjs:119-177 | Every failure is of a block's kind or of a transaction's kind. |
| Admission.BlockCrashesWithoutOutput | core/server.mjs:122 | Reading the coinbase amount throws exactly when the coinbase has no outputs. |
| Admission.BlockRejectsAmount | core/server.mjs:121-124 | The amount is rejected exactly when the first coinbase output exists and does not carry `amount`. |
| Admission.BlockRejectsIds | core/server.mjs:127-136 | An unknown or confirmed id is reported exactly when the amount is right and some listed id is not pending. The id scan's error is the one reported. |
| Admission.BlockRejectsOverLimit | core/server.mjs:137-140 | The limit is exceeded exactly when the amount is right, the ids are pending and there are `limit` or more. |
| Admission.BlockRejectsGenesis | core/server.mjs:143-147 | A second genesis block is rejected exactly when the list fits and a block is stored. |
| Admission.BlockRejectsPrevious | core/server.mjs:149-151 | An unknown previous block is rejected exactly when the list fits and `previous` is not stored. |
| Admission.BlockRejectsMissingField | core/server.mjs:152-158 | A missing field is reported exactly when the block is linked and a field is missing. The first of `_id`, `root`, `nonce` is named. |
| Admission.BlockCrashesWithoutCoinbaseId | core/server.mjs:160-161 | Hashing the leaves throws exactly when the shape checks pass and the coinbase has no id. |
| Admission.BlockRejectsRoot | core/server.mjs:159-164 | The root is rejected exactly when the shape checks pass and it differs from the Merkle root over `[coinbase id] + ids`. |
| Admission.BlockRejectsBlockId | core/server.mjs:167-171 | The id is rejected exactly when the root is right and the id differs from the block hash. |
| Admission.BlockRejectsWork | core/server.mjs:172-175 | The work is rejected exactly when the id is right and does not meet the difficulty. |
| Admission.BlockPrecheckPassIff | core/server.mjs:119-175 | The checks before the coinbase pass exactly when every block rule holds. |
| Admission.BlockDefersToCoinbase | core/server.mjs:177 | Once every block rule holds, the outcome is that of verifying the coinbase. |
| Admission.BlockCoinbaseFailure | core/server.mjs:119-177 | A failure of a transaction's kind is reported for a block only when every block rule holds. |
| Admission.Accept | core/server.mjs:177-180 | The store after an accepted block stays consistent. |
| Admission.BlockVerdictPassIff | core/server.mjs:119-183 | `addBlock` accepts exactly the blocks meeting all of the block rules (listed below the table). |
| Admission.ChainShapeExtends | core/server.mjs:144-151 | Adding a block whose `previous` is stored, or the first block, keeps the chain shape: every previous stored, at most one genesis. |
| Admission.StoreBlockKeepsChain | core/server.mjs:177-180 | The three writes of `addBlock` keep the store consistent and chained. They change the blocks only by the new one. |
| Admission.AcceptKeepsChain | core/server.mjs:144-180 | An accepted block keeps the store consistent and chained. |
| Admission.StoreBlockConfirms | core/server.mjs:178-180 | After the writes every listed id is stored and stamped with the block id. |
| Admission.AcceptConfirms | core/server.mjs:160-180 | An accepted block confirms its coinbase and every listed transaction. |
| Admission.AcceptRegistersCoinbase | core/server.mjs:178 | An accepted block turns every coinbase output into a UTXO. |
| Admission.AcceptUtxos | core/server.mjs:178-180 | After an accepted block the UTXOs are the coinbase outputs registered over the old ones. Storing the block and confirming ids do not touch them. |
| Admission.AcceptStoresCoinbase | core/server.mjs:178 | The UTXO registered for a coinbase output carries its amount and `txIn`, for the last output paid to that address. |
| Admission.AcceptKeepsUtxos | core/server.mjs:177-178 | With fresh coinbase outputs, every earlier UTXO keeps its value. |
| Admission.AcceptedInputsStaySpendable | core/server.mjs:33-39 | After a transaction that `verifyTransaction` accepted is stored, its inputs are still spendable and the input check passes on them again: no spend is recorded. |
| Admission.AcceptedBlockSpendsNothing | core/server.mjs:177-180 | After an accepted block, every input that was spendable before is still spendable. |
| Server.TxObject.constructor | core/server.mjs:41 | The object holds the given transaction. |
| Server.IdList.constructor | core/server.mjs:119 | The list holds the given ids. |
| Server.InputLoop | core/server.mjs:62-72 | The loop returns the input scan: the first unknown or spent input, or the total amount. |
| Server.OutputLoop | core/server.mjs:75-88 | The loop returns the output scan: the first missing field or used address, or the total. |
| Server.SignatureLoop | core/server.mjs:103-109 | The loop returns the first signature that fails verification, if any. |
| Server.IdLoop | core/server.mjs:128-136 | The loop returns the first listed id that is unknown or already confirmed. |
| Server.DotcoinServer.constructor | core/server.mjs:21-27 | The settings default to difficulty 1, limit 1024 and amount 100. The store is the one found and is chained. |
| Server.DotcoinServer.AddTransaction | core/server.mjs:33-39 | The transaction is stored as given, unverified, and returned. The chain invariant is kept. |
| Server.DotcoinServer.VerifyTransaction | core/server.mjs:41-111 | A null input is rejected. The outcome is the specified verdict and the object is left as specified. The store is not written. |
| Server.DotcoinServer.AddBlock | core/server.mjs:119-183 | The outcome is the block verdict. The caller's list is prepended exactly when the shape checks pass and the coinbase has an id. The store changes only on acceptance, and stays chained. |
| Wallet.ByConfirmation | core/client.mjs:56-61 | The filter keeps exactly the transactions of the requested confirmation state. |
| Wallet.Unspent | core/client.mjs:66-68 | The filter keeps exactly the outputs with no `txIn`. |
| Wallet.Matching | core/client.mjs:69-73 | The inner loop keeps exactly the outputs paid to a child of `address`. |
| Wallet.Candidates | core/client.mjs:65-68 | The outputs looked at are all outputs, or exactly the unspent ones. |
| Wallet.Collect | core/client.mjs:63-74 | Every collected output has an address. |
| Wallet.CollectMembers | core/client.mjs:63-74 | An output is collected exactly when one of the first `n` transactions pays it to a child of `address` (unspent, when usable). |
| Wallet.AddressUtxos | core/client.mjs:54-76 | Every listed UTXO has an address. |
| Wallet.CollectStored | core/client.mjs:63-74 | Over a listing of exactly the stored transactions in one state, the collection is exactly what they pay to children of `address`. |
| Wallet.AddressUtxosMembers | core/client.mjs:54-76 | `getAddressUtxos` lists exactly the outputs that stored transactions in the requested state pay to children of the address. |
| Wallet.AddressAllUtxos | core/client.mjs:78-80 | Every listed UTXO has an address. |
| Wallet.AddressAllUtxosMembers | core/client.mjs:78-80 | `getAddressAllUtxos` lists exactly the outputs any stored transaction pays to children of the address. |
| Wallet.AccountUtxos | core/client.mjs:82-87 | Every listed UTXO of the account has an address. |
| Wallet.AccountUtxosMembers | core/client.mjs:82-87 | The account's UTXOs are exactly the unspent outputs paid to children of its receive or change key. |
| Wallet.NextIndexAboveStored | core/client.mjs:134-162 | The next address is at an index above every index the store has paid under that key. |
| Wallet.ReceiveKey | core/client.mjs:42-45 | Definition: the public extended key of the account's receive chain. |
| Wallet.ChangeKey | core/client.mjs:47-50 | Definition: the public extended key of the account's change chain. |
| Wallet.NextAddress | core/client.mjs:134-135 | Definition: the child of `address` at the next free index. `Wallet.NextIndexAboveStored` states that the index is above every stored payment. |
| Wallet.SumAppend | core/client.mjs:93-107 | Totals add over concatenation. |
| Wallet.AccountTotal | core/client.mjs:82-107 | An account's total, usable or pending, is its receive-chain total plus its change-chain total. |
| Wallet.Insert | core/client.mjs:120 | Inserting keeps the list sorted by amount and is a permutation plus the new element. |
| Wallet.SortByAmount | core/client.mjs:120 | The sort yields a permutation of the UTXOs in ascending order of amount. |
| Wallet.CoverFrom | core/client.mjs:121-129 | From position `k` the loop stops at the first prefix covering the payment, or at the end. |
| Wallet.Selection | core/client.mjs:121-129 | The loop takes the shortest prefix whose total reaches the payment, or all UTXOs when none does. |
| Wallet.Chosen | core/client.mjs:119-129 | The chosen inputs are addressed usable UTXOs of the account. |
| Wallet.Addresses | core/client.mjs:127 | One address per chosen UTXO. |
| Wallet.SortKeepsOutputs | core/client.mjs:120 | Sorting neither adds nor drops a UTXO. |
| Wallet.SelectInputs | core/client.mjs:121-129 | The loop returns the addresses and the total of exactly the selected prefix. |
| Wallet.PaysOutTotal | core/client.mjs:132-144 | The outputs are worth the selected total when it covers the payment, and the payment otherwise. |
| Wallet.HashOf | core/client.mjs:147-150 | The method returns the transaction hash of an addressed transaction. |
| Wallet.SumAmounts | core/client.mjs:97-99 | The summing loop returns the total amount. |
| Wallet.CoinbaseUnique | core/client.mjs:156-168 | The coinbase is determined by the store, the address and the amount. |
| Wallet.Ids | core/client.mjs:185 | One id per listed transaction. |
| Wallet.PoolIds | core/client.mjs:185 | Definition: the ids of a page of `limit - 1` unconfirmed transactions. `ClientServer.PoolIdsPending` states their properties. |
| Wallet.Header | core/client.mjs:176-189 | The header is a genesis header exactly when no block is stored. Otherwise it points to a stored block. It always carries a root. |
| Wallet.IsCoinbase | core/client.mjs:156-168 | Definition: no inputs and no signatures, one output of `amount` to the next receive child, and an id equal to the hash. |
| Wallet.IsTransfer | core/client.mjs:115-154 | Definition: the chosen inputs, the recipient and change outputs, and the wallet's signatures. |
| Wallet.Mined | core/client.mjs:174-195 | Definition: the coinbase, the pool ids, a candidate block over the header, and the work met. |
| Wallet.DotcoinClient.constructor | core/client.mjs:22-29 | The settings default to difficulty 1, limit 1024 and amount 100. A missing mnemonic is replaced by the generated one. |
| Wallet.DotcoinClient.GetAddressUtxos | core/client.mjs:54-76 | The method returns the specified UTXO list of the address. |
| Wallet.DotcoinClient.CollectLoop | core/client.mjs:64-74 | The outer loop returns the collection over all listed transactions. |
| Wallet.DotcoinClient.MatchingLoop | core/client.mjs:69-73 | The inner loop returns the outputs paid to a child of `address`, in order. |
| Wallet.DotcoinClient.GetAddressAllUtxos | core/client.mjs:78-80 | The method returns confirmed then unconfirmed UTXOs of the address. |
| Wallet.DotcoinClient.GetAccountUtxos | core/client.mjs:82-87 | The method returns the receive-chain then change-chain UTXOs of the account. |
| Wallet.DotcoinClient.GetBalance | core/client.mjs:93-107 | The usable balance is the total of the confirmed usable UTXOs. The pending balance is that of the unconfirmed ones. |
| Wallet.DotcoinClient.TransferOutputs | core/client.mjs:132-144 | The method pays `payment` to the next child of the recipient. It adds change to the next change child exactly when the selection exceeds the payment. |
| Wallet.DotcoinClient.Sign | core/client.mjs:146-151 | Every owned input is signed over the unsigned hash, and the id is the hash with signatures. |
| Wallet.DotcoinClient.CreateTransaction | core/client.mjs:115-154 | The returned transaction spends the smallest-first covering selection, pays recipient and change, and is signed by the wallet. |
| Wallet.DotcoinClient.CreateCoinbaseTransaction | core/client.mjs:156-168 | The coinbase has no inputs and no signatures. It has one output of `amount` to the next receive child, and its own hash as id. |
| Wallet.DotcoinClient.Mine | core/client.mjs:174-195 | A template's coinbase pays the receive chain. It lists the first `limit - 1` pending ids, and its block over the latest block carries the work. `None` means no nonce of the seed's length works. |
| ClientServer.PoolIdsPending | core/client.mjs:185 | The listed ids are pending. They fit the limit when `limit >= 2`. With limit 1 every pending transaction is listed. |
| ClientServer.CandidatePasses | core/server.mjs:119-183 | A well-formed coinbase with pending ids, the right root and id, and the work passes `addBlock`. |
| ClientServer.MinedBlockPasses | core/client.mjs:174-195 | A mined template passes `addBlock` on the same store and settings, provided its coinbase key is new and its ids fit. |
| ClientServer.SingleSlotTemplateRejected | core/client.mjs:185 | With limit 1 a template over a non-empty pool is rejected as over the limit. |
| ClientServer.LedgerTotal | core/server.mjs:62-72 | The inputs the ledger agrees on are spendable and worth the wallet's sum. |
| ClientServer.OutputTotalIsSum | core/server.mjs:87 | The server's output total equals the wallet's sum. |
| ClientServer.ChildOwned | core/common.mjs:146-155 | Under BIP-32 public derivation, a child of a chain's public key is derived by its private key too. |
| ClientServer.AccountOutputOwned | core/common.mjs:138-159 | Every confirmed UTXO of the account is owned by one of its chains. |
| ClientServer.ChosenOwned | core/client.mjs:148 | Every chosen input is owned by the wallet. |
| ClientServer.SignaturesVerify | core/common.mjs:138-159 | For owned inputs, under sound signatures, each input gets one signature and each verifies. |
| ClientServer.TransferTotals | core/client.mjs:130-144 | A transfer's inputs are spendable and worth the selection. Its outputs are fresh and worth `max(selection, payment)`. |
| ClientServer.SignedTransferPasses | core/server.mjs:41-111 | A signed, covered transfer over agreed inputs passes verification, with inputs worth exactly the outputs. |
| ClientServer.TransferPasses | core/client.mjs:115-154 | A transfer the wallet built passes `verifyTransaction` (assumptions below the table). Its inputs are then worth exactly its outputs. |
| ClientServer.ShortTransferRejected | core/client.mjs:121-138 | A transfer the funds do not cover still goes out, and the server rejects it as unbalanced. |

**Block rules** (`Admission.BlockVerdictPassIff`):
- a coinbase amount of `amount`;
- pending listed ids, fewer than `limit`;
- the previous block stored, or no block at all for a genesis block;
- the fields present;
- the root over `[coinbase id] + ids`;
- an id equal to the block hash;
- the work;
- an admissible coinbase.

**Assumptions of `ClientServer.TransferPasses`:**
- the ledger agrees with the UTXOs the wallet read;
- the selection covers the payment;
- the new keys are fresh;
- BIP-32 public derivation holds and signatures are sound.

## Left out

- The database classes `DatabaseWrite` and `DatabaseRead` are not part of this model.
  - The store is modelled as maps plus insertion order.
  - A stored transaction registers every output with an address and an amount as a UTXO.
  - An insert under an existing key replaces the document and keeps its place.
  - A page size of 0 lists everything; the client itself relies on this.
- Crypto primitives are uninterpreted. This covers keccak, base58check, `HDKey` parsing and BIP-32 derivation, mnemonic-to-seed, ECDSA, the Merkle tree and poseidon.
  - Where a proof needs a property of them, it is an explicit hypothesis: `CanSign`, `PublicDerivation`, `SoundSignatures`.
  - Exceptions thrown while decoding a malformed key or signature are not modelled.
- `Keys.IsChild`: the source's second comparison, against a `publicExtendedKey` field that `getChildKeys` never sets, is always false and is dropped.
- JavaScript numbers are modelled as unbounded integers.
  - Amounts above 2^53 and fractional amounts are out of scope.
  - `parseInt` on an integer amount is taken to be the amount.
  - The loose `!=` against the configured amount is taken on integers.
- `ProofOfWork.FindNonce`: the search stops after one full cycle of the counter and returns `None`. The source loops forever.
  - The 32 random starting bytes are the `seed` parameter.
  - `Wallet.DotcoinClient.Mine` inherits this `None` case.
- `ProofOfWork.VerifyBlockHash` requires an id when the difficulty is positive. The source throws on a null id. `addBlock` checks the id before calling it.
- `Wallet.SortByAmount`: the result is proved sorted and a permutation. That `Array.prototype.sort` is stable and keeps equal amounts in their order is not proved.
- `Wallet.AddressUtxos` and the client methods require every output of every stored transaction in the requested state to carry an address. Spent outputs are included. The source throws on a missing address only for outputs it inspects. When `usable` is set it drops spent outputs first, so it accepts a spent output without an address, which the model excludes.
- `Wallet.DotcoinClient.CreateTransaction` requires every confirmed usable UTXO of the account to carry an amount. Without one, the source sorts with a `NaN` comparison and may add `undefined` to its running total. `NaN` arithmetic is not modelled.
- `Wallet.DotcoinClient.Mine` requires `limit >= 1`. The source keeps a negative configured limit (`config.limit || 1024`) and hands the store a negative page size, whose behaviour is not modelled.
- `Server.DotcoinServer.constructor` requires the store it opens to be consistent and chained. The source opens whatever store it finds at `config.path` and does not check it.
- `Wallet.DotcoinClient.GetBalance` requires every listed UTXO to carry an amount. `parseInt(undefined)` would make the balance `NaN`.
- `Admission.BlockPrecheck`: when the coinbase has no `_id`, the source unshifts `undefined` into the caller's list before `keccak_256` throws. The model reports the crash and leaves the list unchanged.
- `createMnemonic`, `getMnemonic`, `getKey`, `signHash`/`verifySignature` (folded into `Crypto`) and `getMerkleRoot` (the `merkleRoot` primitive) are not separate members.
- The incremental Merkle tree wrappers (`initMerkleTree`, `addCoinToTree`, `getMerkleProof`), `randomBigInt`, `stringToUint8Array` and the zero-knowledge code in core/ZKPour.mjs are not part of this model.
- The server's paging getters (`getBlocks`, `getTransactions`, `getUtxos` and similar) are plain pass-throughs to the store. Only the calls the core makes are modelled.
- Asynchrony and concurrent calls to the server are not modelled. Every operation runs against one store state.

Where the documentation and the code disagree, the model follows the code:
- `addTransaction` stores a transaction without verifying it (the verification call is commented out);
- nothing marks an input as spent. The `spendUtxos` call in `addTransaction` is commented out and `addBlock` spends nothing. So `txIn` is never set, and the inputs of an accepted transaction stay spendable: the same UTXO can be spent any number of times (`Admission.AcceptedInputsStaySpendable`, `Admission.AcceptedBlockSpendsNothing`);
- `createTransaction` does not check that the funds cover the payment (`ClientServer.ShortTransferRejected`);
- `addBlock` accepts a coinbase with extra outputs and checks only the amount of its first one;
- `mine` with `limit` 1 asks the store for a page of size 0 and so lists the whole pool (`ClientServer.SingleSlotTemplateRejected`).
