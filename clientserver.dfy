/**
 * What the client produces, held against the server's rules: a block template from
 * `mine` passes `addBlock`, and a transfer from `createTransaction` passes
 * `verifyTransaction` when the ledger agrees with what the wallet read and the funds
 * cover the payment (and is rejected as unbalanced when they do not). The key
 * primitives are uninterpreted, so the two BIP-32 and signature facts these rest on are
 * stated as hypotheses.
 */
module ClientServer {
  import opened Types
  import opened Codec
  import opened Keys
  import opened ProofOfWork
  import opened Database
  import opened Admission
  import opened Wallet

  // ---------------------------------------------------------------------------------------
  // Mining

  /** The ids `mine` lists are pending transactions of the store. With `limit` 1 the page
      size passed to the store is 0, which sets no limit: every pending transaction is
      listed. */
  lemma PoolIdsPending(db: Store, limit: int)
    requires db.Valid() && limit >= 1
    ensures Pending(db, PoolIds(db, limit))
    ensures limit >= 2 ==> |PoolIds(db, limit)| < limit
    ensures limit == 1 ==> (PoolIds(db, limit) == [] <==> forall h :: h in db.txs ==> db.txs[h].block.Some?)
  {
    var pool := db.Transactions(true, limit - 1);
    var ids := PoolIds(db, limit);
    forall i | 0 <= i < |ids|
      ensures ids[i] in db.txs && db.txs[ids[i]].block.None?
    {
      assert pool[i] in pool;
      var h :| h in db.txs && db.txs[h] == pool[i];
    }
    if limit == 1 {
      db.AllTransactions(true);
      if pool != [] {
        assert pool[0] in pool;
      }
      forall h | h in db.txs && db.txs[h].block.None?
        ensures pool != []
      {
        assert db.txs[h] in pool;
      }
    }
  }

  /** A block over the latest stored block, whose coinbase pays `amount` to one fresh key
      with no inputs and no signatures, and which commits to pending ids that fit the
      limit, passes `addBlock` when it carries the work. */
  lemma CandidatePasses(c: Crypto, db: Store, difficulty: int, limit: int, amount: int, key: Key,
                        block: Block, cb: Tx, ids: seq<Hash>)
    requires db.Valid() && Pending(db, ids) && |ids| < limit
    requires cb.utxoIns == Some([]) && cb.signatures == Some([])
    requires cb.utxoOuts == Some([Out(Some(key), Some(amount), None)]) && key !in db.utxos
    requires cb.id.Some? && cb.id == TxHash(c, cb)
    requires block.previous == Header(c, db, cb.id.value, ids).previous
    requires block.root == Some(c.merkleRoot([cb.id.value] + ids))
    requires block.nonce.Some? && block.id == Some(BlockHash(c, block))
    requires HasWork(block, difficulty)
    ensures BlockVerdict(c, db, difficulty, limit, amount, block, cb, ids) == Pass
  {
    assert Admissible(c, db, cb, true);
    BlockVerdictPassIff(c, db, difficulty, limit, amount, block, cb, ids);
  }

  /** A template mined on the store passes `addBlock` on that same store with the same
      difficulty, limit and amount, provided the new coinbase key is not already a UTXO and
      the pending transactions fit in the block. */
  lemma MinedBlockPasses(c: Crypto, db: Store, difficulty: int, limit: int, amount: int, address: Key, t: Template)
    requires ReadableStore(db) && limit >= 1
    requires Mined(c, db, difficulty, amount, limit, address, t)
    requires limit >= 2 || forall h :: h in db.txs ==> db.txs[h].block.Some?
    requires NextAddress(c, db, address, true) !in db.utxos
    ensures BlockVerdict(c, db, difficulty, limit, amount, t.block, t.coinbase, t.transactions) == Pass
  {
    PoolIdsPending(db, limit);
    var header := Header(c, db, t.coinbase.id.value, t.transactions);
    var x :| t.block == Candidate(c, header, x);
    CandidatePasses(c, db, difficulty, limit, amount, NextAddress(c, db, address, true),
                    t.block, t.coinbase, t.transactions);
  }

  /** With a limit of 1 the template lists every pending transaction, so whenever one is
      pending the server rejects the template as over the limit. */
  lemma SingleSlotTemplateRejected(c: Crypto, db: Store, difficulty: int, amount: int, address: Key, t: Template)
    requires ReadableStore(db)
    requires Mined(c, db, difficulty, amount, 1, address, t)
    requires exists h :: h in db.txs && db.txs[h].block.None?
    ensures BlockVerdict(c, db, difficulty, 1, amount, t.block, t.coinbase, t.transactions) == Fail(Invalid(OverLimit))
  {
    PoolIdsPending(db, 1);
    IdScanMeaning(db, t.transactions);
  }

  // ---------------------------------------------------------------------------------------
  // Transfers

  /** BIP-32 public derivation: on both chains of the account, the child derived from the
      private key has the public key of the child derived from the public key. */
  ghost predicate PublicDerivation(c: Crypto, mnemonic: string, account: nat)
  {
    && (forall i: nat ::
          c.deriveChild(c.accountKey(mnemonic, account, RECEIVE).privateExtendedKey, i).publicExtendedKey ==
          c.deriveChild(c.accountKey(mnemonic, account, RECEIVE).publicExtendedKey, i).publicExtendedKey)
    && (forall i: nat ::
          c.deriveChild(c.accountKey(mnemonic, account, CHANGE).privateExtendedKey, i).publicExtendedKey ==
          c.deriveChild(c.accountKey(mnemonic, account, CHANGE).publicExtendedKey, i).publicExtendedKey)
  }

  /** A signature made with a derived private key verifies under the matching public key. */
  ghost predicate SoundSignatures(c: Crypto)
  {
    forall h: Hash, k: Key, i: nat ::
      c.verify(h, c.deriveChild(k, i).publicExtendedKey, c.sign(h, c.deriveChild(k, i).privateExtendedKey))
  }

  /** The ledger holds every output the wallet chose as an unspent UTXO of the amount the
      wallet read. */
  ghost predicate LedgerAgrees(db: Store, chosen: seq<Out>)
  {
    forall o :: o in chosen ==>
      && o.address.Some?
      && o.address.value in db.utxos
      && db.utxos[o.address.value].txIn.None?
      && db.utxos[o.address.value].amount == Amount(o)
  }

  /** Where the ledger agrees, the inputs are spendable and worth what the wallet summed. */
  lemma {:induction false} LedgerTotal(db: Store, s: seq<Out>)
    requires Addressed(s) && LedgerAgrees(db, s)
    ensures Spendable(db, Addresses(s))
    ensures InputTotal(db, Addresses(s)) == Sum(s)
  {
    if s != [] {
      var front := s[..|s| - 1];
      assert forall o :: o in front ==> o in s;
      LedgerTotal(db, front);
      assert Addresses(s)[..|s| - 1] == Addresses(front);
      assert s[|s| - 1] in s;
    }
  }

  /** The ledger's output total and the wallet's sum agree on priced outputs. */
  lemma {:induction false} OutputTotalIsSum(outs: seq<Out>)
    requires Priced(outs)
    ensures forall i :: 0 <= i < |outs| ==> outs[i].amount.Some?
    ensures OutputTotal(outs) == Sum(outs)
  {
    assert forall i :: 0 <= i < |outs| ==> outs[i] in outs;
    if outs != [] {
      var front := outs[..|outs| - 1];
      assert forall o :: o in front ==> o in outs;
      OutputTotalIsSum(front);
    }
  }

  /** A child of either public chain key is derived by the matching private key too. */
  lemma ChildOwned(c: Crypto, mnemonic: string, account: nat, key: Key)
    requires PublicDerivation(c, mnemonic, account)
    requires IsChild(c, ReceiveKey(c, mnemonic, account), key) || IsChild(c, ChangeKey(c, mnemonic, account), key)
    ensures Owns(c, mnemonic, account, key)
  {
    var i := c.keyIndex(key);
    assert c.deriveChild(c.accountKey(mnemonic, account, RECEIVE).privateExtendedKey, i).publicExtendedKey ==
           c.deriveChild(c.accountKey(mnemonic, account, RECEIVE).publicExtendedKey, i).publicExtendedKey;
    assert c.deriveChild(c.accountKey(mnemonic, account, CHANGE).privateExtendedKey, i).publicExtendedKey ==
           c.deriveChild(c.accountKey(mnemonic, account, CHANGE).publicExtendedKey, i).publicExtendedKey;
  }

  /** Every confirmed UTXO the wallet lists for the account belongs to one of its chains. */
  lemma AccountOutputOwned(c: Crypto, db: Store, mnemonic: string, account: nat, o: Out)
    requires db.Valid() && Listable(db, false) && PublicDerivation(c, mnemonic, account)
    requires o in AccountUtxos(c, db, mnemonic, account, false)
    ensures o.address.Some? && Owns(c, mnemonic, account, o.address.value)
  {
    AccountUtxosMembers(c, db, mnemonic, account, false);
    var h :| h in db.txs && db.txs[h].block.Some? &&
      (Pays(c, ReceiveKey(c, mnemonic, account), db.txs[h], o, true) ||
       Pays(c, ChangeKey(c, mnemonic, account), db.txs[h], o, true));
    ChildOwned(c, mnemonic, account, o.address.value);
  }

  /** Every input the wallet chooses belongs to one of its two chains. */
  lemma ChosenOwned(c: Crypto, db: Store, mnemonic: string, account: nat, payment: int)
    requires db.Valid() && Listable(db, false) && PublicDerivation(c, mnemonic, account)
    ensures var ins := Addresses(Chosen(c, db, mnemonic, account, payment));
            forall i :: 0 <= i < |ins| ==> Owns(c, mnemonic, account, ins[i])
  {
    var chosen := Chosen(c, db, mnemonic, account, payment);
    var ins := Addresses(chosen);
    forall i | 0 <= i < |ins|
      ensures Owns(c, mnemonic, account, ins[i])
    {
      assert chosen[i] in chosen;
      AccountOutputOwned(c, db, mnemonic, account, chosen[i]);
    }
  }

  /** When the wallet owns every input, each input gets exactly one signature and each one
      verifies over the signed hash. */
  lemma {:induction false} SignaturesVerify(c: Crypto, h: Hash, mnemonic: string, account: nat, ins: seq<Key>)
    requires CanSign(c, mnemonic, account) && SoundSignatures(c)
    requires forall i :: 0 <= i < |ins| ==> Owns(c, mnemonic, account, ins[i])
    ensures Signed(c, h, ins, Signatures(c, h, mnemonic, account, ins))
  {
    if ins != [] {
      var front := ins[..|ins| - 1];
      SignaturesVerify(c, h, mnemonic, account, front);
      SignaturesComplete(c, h, mnemonic, account, front);
      var last := ins[|ins| - 1];
      assert Owns(c, mnemonic, account, last);
      assert c.verify(h, last, SignatureFor(c, h, mnemonic, account, last).value);
    }
  }

  /** The transaction spends stored unspent outputs worth exactly what it pays out: no
      amount is left over as a fee. */
  predicate Balanced(db: Store, tx: Tx)
  {
    && tx.utxoIns.Some? && tx.utxoOuts.Some?
    && Spendable(db, tx.utxoIns.value)
    && (forall i :: 0 <= i < |tx.utxoOuts.value| ==> tx.utxoOuts.value[i].amount.Some?)
    && InputTotal(db, tx.utxoIns.value) == OutputTotal(tx.utxoOuts.value)
  }

  /** The admission facts of a signed transfer of `chosen`: the inputs are spendable and
      worth `Sum(chosen)`, and the outputs are fresh and worth `Max(Sum(chosen), payment)`. */
  lemma TransferTotals(db: Store, chosen: seq<Out>, recipient: Key, payment: int, change: Key, tx: Tx)
    requires Addressed(chosen) && LedgerAgrees(db, chosen)
    requires tx.utxoIns == Some(Addresses(chosen)) && tx.utxoOuts.Some?
    requires PaysOut(tx.utxoOuts.value, recipient, payment, change, Sum(chosen))
    requires recipient !in db.utxos && (Sum(chosen) > payment ==> change !in db.utxos)
    ensures Spendable(db, tx.utxoIns.value) && InputTotal(db, tx.utxoIns.value) == Sum(chosen)
    ensures Fresh(db, tx.utxoOuts.value)
    ensures OutputTotal(tx.utxoOuts.value) == Max(Sum(chosen), payment)
  {
    var outs := tx.utxoOuts.value;
    LedgerTotal(db, chosen);
    PaysOutTotal(outs, recipient, payment, change, Sum(chosen));
    OutputTotalIsSum(outs);
  }

  /** A transfer signed by keys the wallet owns, over inputs the ledger agrees on and with
      fresh outputs, passes when its inputs cover the payment. */
  lemma SignedTransferPasses(c: Crypto, db: Store, mnemonic: string, account: nat, chosen: seq<Out>,
                             recipient: Key, payment: int, change: Key, tx: Tx)
    requires CanSign(c, mnemonic, account) && SoundSignatures(c)
    requires Addressed(chosen) && LedgerAgrees(db, chosen)
    requires forall i :: 0 <= i < |Addresses(chosen)| ==> Owns(c, mnemonic, account, Addresses(chosen)[i])
    requires tx.utxoIns == Some(Addresses(chosen)) && tx.utxoOuts.Some?
    requires PaysOut(tx.utxoOuts.value, recipient, payment, change, Sum(chosen))
    requires SignedBy(c, mnemonic, account, tx)
    requires recipient !in db.utxos && (Sum(chosen) > payment ==> change !in db.utxos)
    requires Sum(chosen) >= payment
    ensures Verdict(c, db, tx, false) == Pass
    ensures Balanced(db, tx)
  {
    TransferTotals(db, chosen, recipient, payment, change, tx);
    SignaturesVerify(c, Digest(c, tx), mnemonic, account, tx.utxoIns.value);
    VerdictPassIff(c, db, tx, false);
  }

  /** A transfer the wallet built passes `verifyTransaction` when the selection covers the
      payment, the ledger agrees with what the wallet read, the new output keys are not
      UTXOs yet, and the key primitives behave as BIP-32 and the signature scheme promise.
      The inputs are then worth exactly the outputs. */
  lemma TransferPasses(c: Crypto, db: Store, mnemonic: string, account: nat, address: Key, payment: int, tx: Tx)
    requires ReadableStore(db) && CanSign(c, mnemonic, account)
    requires IsTransfer(c, db, mnemonic, account, address, payment, tx)
    requires Sum(Chosen(c, db, mnemonic, account, payment)) >= payment
    requires LedgerAgrees(db, Chosen(c, db, mnemonic, account, payment))
    requires NextAddress(c, db, address, false) !in db.utxos
    requires Sum(Chosen(c, db, mnemonic, account, payment)) > payment ==>
               NextAddress(c, db, ChangeKey(c, mnemonic, account), false) !in db.utxos
    requires PublicDerivation(c, mnemonic, account) && SoundSignatures(c)
    ensures Verdict(c, db, tx, false) == Pass
    ensures Balanced(db, tx)
  {
    ChosenOwned(c, db, mnemonic, account, payment);
    SignedTransferPasses(c, db, mnemonic, account, Chosen(c, db, mnemonic, account, payment),
                         NextAddress(c, db, address, false), payment,
                         NextAddress(c, db, ChangeKey(c, mnemonic, account), false), tx);
  }

  /** The wallet does not check the funds: when the selection falls short of the payment
      the transfer still goes out, and the ledger rejects it as unbalanced. */
  lemma ShortTransferRejected(c: Crypto, db: Store, mnemonic: string, account: nat, address: Key, payment: int, tx: Tx)
    requires ReadableStore(db) && CanSign(c, mnemonic, account)
    requires IsTransfer(c, db, mnemonic, account, address, payment, tx)
    requires Sum(Chosen(c, db, mnemonic, account, payment)) < payment
    requires LedgerAgrees(db, Chosen(c, db, mnemonic, account, payment))
    requires NextAddress(c, db, address, false) !in db.utxos
    ensures Verdict(c, db, tx, false) == Fail(Invalid(Imbalance))
  {
    var chosen := Chosen(c, db, mnemonic, account, payment);
    TransferTotals(db, chosen, NextAddress(c, db, address, false), payment,
                   NextAddress(c, db, ChangeKey(c, mnemonic, account), false), tx);
    InputScanMeaning(db, tx.utxoIns.value);
    OutputScanMeaning(db, tx.utxoOuts.value);
  }
}
