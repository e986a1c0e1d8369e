/**
 * `DotcoinServer` of core/server.mjs: the ledger that verifies transactions and blocks
 * against its store and writes accepted blocks to it.
 */
module Server {
  import opened Types
  import opened Codec
  import opened ProofOfWork
  import opened Database
  import opened Admission

  /** A transaction object handed to the server; `verifyTransaction` rewrites its fields. */
  class TxObject {
    var data: Tx

    constructor(data: Tx)
      ensures this.data == data
    {
      this.data := data;
    }
  }

  /** The caller's array of transaction ids, which `addBlock` prepends to. */
  class IdList {
    var ids: seq<Hash>

    constructor(ids: seq<Hash>)
      ensures this.ids == ids
    {
      this.ids := ids;
    }
  }

  /** The input loop of `verifyTransaction`: looks each input up and sums the amounts,
      stopping at the first unknown or spent one. */
  method InputLoop(db: Store, ins: seq<Key>) returns (scan: Scan)
    ensures scan == InputScan(db, ins)
  {
    var utxoInAmount := 0;
    var i := 0;
    while i < |ins|
      invariant 0 <= i <= |ins|
      invariant InputScan(db, ins[..i]) == Total(utxoInAmount)
    {
      assert ins[..i + 1][..i] == ins[..i];
      var retrievedUtxo := db.GetUtxo(ins[i]);
      if retrievedUtxo.None? {
        InputScanStops(db, ins, i + 1);
        return Stop(UnknownInput(ins[i]));
      }
      if retrievedUtxo.value.txIn.Some? {
        InputScanStops(db, ins, i + 1);
        return Stop(SpentInput(ins[i]));
      }
      utxoInAmount := utxoInAmount + retrievedUtxo.value.amount;
      i := i + 1;
    }
    assert ins[..|ins|] == ins;
    return Total(utxoInAmount);
  }

  /** The output loop of `verifyTransaction`: checks the fields and the freshness of each
      output address and sums the amounts, stopping at the first failure. */
  method OutputLoop(db: Store, outs: seq<Out>) returns (scan: Scan)
    ensures scan == OutputScan(db, outs)
  {
    var utxoOutAmount := 0;
    var j := 0;
    while j < |outs|
      invariant 0 <= j <= |outs|
      invariant OutputScan(db, outs[..j]) == Total(utxoOutAmount)
    {
      assert outs[..j + 1][..j] == outs[..j];
      var utxo := outs[j];
      if utxo.address.None? {
        OutputScanStops(db, outs, j + 1);
        return Stop(MissingOutputField("address"));
      }
      if utxo.amount.None? {
        OutputScanStops(db, outs, j + 1);
        return Stop(MissingOutputField("amount"));
      }
      var retrievedUtxo := db.GetUtxo(utxo.address.value);
      if retrievedUtxo.Some? {
        OutputScanStops(db, outs, j + 1);
        return Stop(UsedOutput(utxo.address.value));
      }
      utxoOutAmount := utxoOutAmount + utxo.amount.value;
      j := j + 1;
    }
    assert outs[..|outs|] == outs;
    return Total(utxoOutAmount);
  }

  /** The signature loop of `verifyTransaction`: the first signature that does not verify
      against its input over `digest`, if any. */
  method SignatureLoop(c: Crypto, digest: Hash, ins: seq<Key>, sigs: seq<Sig>) returns (bad: Option<ValidationError>)
    requires |ins| == |sigs|
    ensures bad == SignatureScan(c, digest, ins, sigs)
  {
    var k := 0;
    while k < |sigs|
      invariant 0 <= k <= |sigs|
      invariant SignatureScan(c, digest, ins[..k], sigs[..k]).None?
    {
      assert ins[..k + 1][..k] == ins[..k] && sigs[..k + 1][..k] == sigs[..k];
      if !c.verify(digest, ins[k], sigs[k]) {
        SignatureScanStops(c, digest, ins, sigs, k + 1);
        return Some(BadSignature(sigs[k], ins[k]));
      }
      k := k + 1;
    }
    assert ins[..|ins|] == ins && sigs[..|sigs|] == sigs;
    return None;
  }

  /** The loop of `addBlock` over the listed ids: the first one not stored, or already
      confirmed, stops it. */
  method IdLoop(db: Store, ids: seq<Hash>) returns (r: Option<ValidationError>)
    ensures r == IdScan(db, ids)
  {
    var i := 0;
    while i < |ids|
      invariant 0 <= i <= |ids|
      invariant IdScan(db, ids[..i]).None?
    {
      assert ids[..i + 1][..i] == ids[..i];
      var transaction := db.GetTransaction(ids[i]);
      if transaction.None? {
        IdScanStops(db, ids, i + 1);
        return Some(UnknownTransaction(ids[i]));
      }
      if transaction.value.block.Some? {
        IdScanStops(db, ids, i + 1);
        return Some(ConfirmedTransaction(ids[i]));
      }
      i := i + 1;
    }
    assert ids[..|ids|] == ids;
    return None;
  }

  class DotcoinServer {
    const crypto: Crypto
    /** Number of leading '1' characters a block id needs. */
    const difficulty: int
    /** Upper bound (exclusive) on the number of listed transactions in a block. */
    const limit: int
    /** The coinbase amount. */
    const amount: int
    var db: Store

    ghost predicate Valid()
      reads this
    {
      Chained(db)
    }

    /** `new DotcoinServer(config)` over the store found at the configured path. */
    constructor(c: Crypto, config: Config, stored: Store)
      requires Chained(stored)
      ensures Valid()
      ensures crypto == c && db == stored
      ensures difficulty == OrDefault(config.difficulty, 1)
      ensures limit == OrDefault(config.limit, 1024)
      ensures amount == OrDefault(config.amount, 100)
    {
      crypto := c;
      difficulty := OrDefault(config.difficulty, 1);
      limit := OrDefault(config.limit, 1024);
      amount := OrDefault(config.amount, 100);
      db := stored;
    }

    /** `addTransaction(txParams)`: stores the transaction as given, without verifying it.
        A transaction without an id is stored under the key the store generates. */
    method AddTransaction(txParams: Tx, generatedKey: Hash) returns (r: Tx)
      requires Valid()
      modifies this
      ensures Valid()
      ensures db == old(db).AddTransaction(txParams.id.GetOr(generatedKey), txParams)
      ensures r == txParams
    {
      db := db.AddTransaction(txParams.id.GetOr(generatedKey), txParams);
      r := txParams;
    }

    /** `verifyTransaction(txParams, coinbase)`: returns `Pass` where the source returns and
        the failure where it throws; the store is only read. */
    method VerifyTransaction(txParams: TxObject?, coinbase: bool) returns (outcome: Outcome)
      requires Valid()
      modifies txParams
      ensures txParams == null ==> outcome == Fail(Invalid(NullInput))
      ensures txParams != null ==> outcome == Verdict(crypto, db, old(txParams.data), coinbase)
      ensures txParams != null ==> txParams.data == AfterVerify(crypto, db, old(txParams.data), coinbase)
    {
      if txParams == null {
        return Fail(Invalid(NullInput));
      }
      var tx := txParams.data;
      if tx.id.None? {
        return Fail(Invalid(MissingField("_id")));
      }
      if tx.utxoIns.None? {
        return Fail(Invalid(MissingField("utxoIns")));
      }
      if tx.utxoOuts.None? {
        return Fail(Invalid(MissingField("utxoOuts")));
      }
      if tx.signatures.None? {
        return Fail(Invalid(MissingField("signatures")));
      }
      var testTransactionHash := TransactionHash(crypto, tx);
      if testTransactionHash.None? {
        return Fail(Crash(OutputWithoutAddress));
      }
      if testTransactionHash.value != tx.id.value {
        return Fail(Invalid(InvalidId));
      }
      var ins, outs, sigs := tx.utxoIns.value, tx.utxoOuts.value, tx.signatures.value;

      var inputs := InputLoop(db, ins);
      if inputs.Stop? {
        return Fail(Invalid(inputs.error));
      }
      var outputs := OutputLoop(db, outs);
      if outputs.Stop? {
        return Fail(Invalid(outputs.error));
      }
      var utxoInAmount, utxoOutAmount := inputs.sum, outputs.sum;
      if !coinbase && utxoInAmount < utxoOutAmount {
        return Fail(Invalid(Imbalance));
      }
      if |sigs| != |ins| {
        return Fail(Invalid(SignatureCountMismatch));
      }

      txParams.data := tx.(signatures := None);
      var tNoSigHash := TransactionHash(crypto, txParams.data);
      HashedOutputsHaveAddresses(crypto, tx);
      var badSignature := SignatureLoop(crypto, tNoSigHash.value, ins, sigs);
      if badSignature.Some? {
        return Fail(Invalid(badSignature.value));
      }
      txParams.data := txParams.data.(signature := Some(sigs));
      return Pass;
    }

    /**
     * `addBlock(block, coinbase, transactions)`. Nothing is written until every check has
     * passed; the caller's list gets the coinbase id in front once the shape checks pass,
     * and the coinbase object is rewritten by `verifyTransaction`.
     */
    method AddBlock(block: Block, coinbase: TxObject, transactions: IdList) returns (outcome: Outcome)
      requires Valid()
      modifies this, coinbase, transactions
      ensures Valid()
      ensures outcome == BlockVerdict(crypto, old(db), difficulty, limit, amount, block, old(coinbase.data), old(transactions.ids))
      ensures transactions.ids ==
                if Prepends(old(db), limit, amount, block, old(coinbase.data), old(transactions.ids))
                then [old(coinbase.data).id.value] + old(transactions.ids)
                else old(transactions.ids)
      ensures coinbase.data ==
                if BlockPrecheck(crypto, old(db), difficulty, limit, amount, block, old(coinbase.data), old(transactions.ids)) == Pass
                then AfterVerify(crypto, old(db), old(coinbase.data), true)
                else old(coinbase.data)
      ensures db == if outcome == Pass then Accept(crypto, old(db), block, old(coinbase.data), old(transactions.ids)) else old(db)
    {
      var cb := coinbase.data;
      var ids := transactions.ids;
      if cb.utxoOuts.None? || |cb.utxoOuts.value| == 0 {
        return Fail(Crash(NoCoinbaseOutput));
      }
      if cb.utxoOuts.value[0].amount != Some(amount) {
        return Fail(Invalid(CoinbaseAmount));
      }

      var unlisted := IdLoop(db, ids);
      if unlisted.Some? {
        return Fail(Invalid(unlisted.value));
      }
      if |ids| >= limit {
        return Fail(Invalid(OverLimit));
      }

      if block.previous.None? {
        if db.LatestBlock().Some? {
          return Fail(Invalid(GenesisExists));
        }
      } else if db.GetBlock(block.previous.value).None? {
        return Fail(Invalid(UnknownPrevious));
      }
      if block.id.None? {
        return Fail(Invalid(MissingBlockField("_id")));
      }
      if block.root.None? {
        return Fail(Invalid(MissingBlockField("root")));
      }
      if block.nonce.None? {
        return Fail(Invalid(MissingBlockField("nonce")));
      }

      if cb.id.None? {
        return Fail(Crash(UndefinedMerkleLeaf));
      }
      transactions.ids := [cb.id.value] + transactions.ids;
      var testMerkleRoot := crypto.merkleRoot(transactions.ids);
      if testMerkleRoot != block.root.value {
        return Fail(Invalid(BadRoot));
      }
      var testBlockHash := BlockHash(crypto, block);
      if testBlockHash != block.id.value {
        return Fail(Invalid(BadBlockId));
      }
      var enoughWork := VerifyBlockHash(block, difficulty);
      if !enoughWork {
        return Fail(Invalid(InsufficientWork));
      }

      ghost var before := db;
      outcome := VerifyTransaction(coinbase, true);
      if outcome != Pass {
        return outcome;
      }
      BlockVerdictPassIff(crypto, before, difficulty, limit, amount, block, cb, ids);
      AcceptKeepsChain(crypto, before, block, cb, ids);
      db := db.AddTransaction(coinbase.data.id.value, coinbase.data);
      db := db.AddBlock(block);
      db := db.ConfirmTransactions(block.id.value, transactions.ids);
    }
  }
}
