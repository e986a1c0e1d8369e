/**
 * The ledger's admission rules (core/server.mjs) as functions of the store: the ordered
 * fail-fast checks of `verifyTransaction` and `addBlock`, the state they leave behind,
 * and what passing them means.
 */
module Admission {
  import opened Types
  import opened Codec
  import opened ProofOfWork
  import opened Database

  /** One constructor per `ValidationError` the server throws. */
  datatype ValidationError =
    | NullInput
    | MissingField(field: string)
    | InvalidId
    | UnknownInput(utxo: Key)
    | SpentInput(utxo: Key)
    | MissingOutputField(field: string)
    | UsedOutput(address: Key)
    | Imbalance
    | SignatureCountMismatch
    | BadSignature(signature: Sig, utxo: Key)
    | CoinbaseAmount
    | UnknownTransaction(id: Hash)
    | ConfirmedTransaction(id: Hash)
    | OverLimit
    | GenesisExists
    | UnknownPrevious
    | MissingBlockField(field: string)
    | BadRoot
    | BadBlockId
    | InsufficientWork

  /** The places where the server does not throw a `ValidationError` but a `TypeError`
      from the runtime or a library. */
  datatype Fault =
    | OutputWithoutAddress  // `keyToUint8Array(undefined)` while hashing the transaction
    | NoCoinbaseOutput      // `coinbase.utxoOuts[0].amount` on a missing or empty list
    | UndefinedMerkleLeaf   // `keccak_256(undefined)` for a coinbase without an id

  datatype Failure = Invalid(error: ValidationError) | Crash(fault: Fault)

  datatype Outcome = Pass | Fail(failure: Failure)

  /** Where a scan over inputs or outputs stops: at the first error, or with the total. */
  datatype Scan = Stop(error: ValidationError) | Total(sum: int)

  // ---------------------------------------------------------------------------------------
  // verifyTransaction

  /** The input loop: each input must be a stored UTXO with no spending transaction. */
  function InputScan(db: Store, ins: seq<Key>): (r: Scan)
    ensures r.Stop? ==> r.error.UnknownInput? || r.error.SpentInput?
  {
    if ins == [] then Total(0)
    else match InputScan(db, ins[..|ins| - 1])
      case Stop(e) => Stop(e)
      case Total(s) =>
        var u := ins[|ins| - 1];
        match db.GetUtxo(u)
        case None => Stop(UnknownInput(u))
        case Some(utxo) => if utxo.txIn.Some? then Stop(SpentInput(u)) else Total(s + utxo.amount)
  }

  /** The output loop: each output needs an address and an amount, at an address that is
      not a UTXO yet. */
  function OutputScan(db: Store, outs: seq<Out>): (r: Scan)
    ensures r.Stop? ==> r.error.MissingOutputField? || r.error.UsedOutput?
  {
    if outs == [] then Total(0)
    else match OutputScan(db, outs[..|outs| - 1])
      case Stop(e) => Stop(e)
      case Total(s) =>
        var o := outs[|outs| - 1];
        if o.address.None? then Stop(MissingOutputField("address"))
        else if o.amount.None? then Stop(MissingOutputField("amount"))
        else if db.GetUtxo(o.address.value).Some? then Stop(UsedOutput(o.address.value))
        else Total(s + o.amount.value)
  }

  /** The signature loop: signature `i` must verify against input `i` over `digest`. */
  function SignatureScan(c: Crypto, digest: Hash, ins: seq<Key>, sigs: seq<Sig>): (r: Option<ValidationError>)
    requires |ins| == |sigs|
    ensures r.Some? ==> r.value.BadSignature?
  {
    if sigs == [] then None
    else match SignatureScan(c, digest, ins[..|ins| - 1], sigs[..|sigs| - 1])
      case Some(e) => Some(e)
      case None =>
        if c.verify(digest, ins[|ins| - 1], sigs[|sigs| - 1]) then None
        else Some(BadSignature(sigs[|sigs| - 1], ins[|ins| - 1]))
  }

  /** A scan that stopped on a prefix stops there on the whole list: the loops may
      return at the first error. */
  lemma {:induction false} InputScanStops(db: Store, ins: seq<Key>, k: nat)
    requires k <= |ins| && InputScan(db, ins[..k]).Stop?
    ensures InputScan(db, ins) == InputScan(db, ins[..k])
  {
    if k < |ins| {
      assert ins[..|ins| - 1][..k] == ins[..k];
      InputScanStops(db, ins[..|ins| - 1], k);
    } else {
      assert ins[..k] == ins;
    }
  }

  lemma {:induction false} OutputScanStops(db: Store, outs: seq<Out>, k: nat)
    requires k <= |outs| && OutputScan(db, outs[..k]).Stop?
    ensures OutputScan(db, outs) == OutputScan(db, outs[..k])
  {
    if k < |outs| {
      assert outs[..|outs| - 1][..k] == outs[..k];
      OutputScanStops(db, outs[..|outs| - 1], k);
    } else {
      assert outs[..k] == outs;
    }
  }

  lemma {:induction false} SignatureScanStops(c: Crypto, digest: Hash, ins: seq<Key>, sigs: seq<Sig>, k: nat)
    requires |ins| == |sigs| && k <= |ins| && SignatureScan(c, digest, ins[..k], sigs[..k]).Some?
    ensures SignatureScan(c, digest, ins, sigs) == SignatureScan(c, digest, ins[..k], sigs[..k])
  {
    if k < |ins| {
      assert ins[..|ins| - 1][..k] == ins[..k];
      assert sigs[..|sigs| - 1][..k] == sigs[..k];
      SignatureScanStops(c, digest, ins[..|ins| - 1], sigs[..|sigs| - 1], k);
    } else {
      assert ins[..k] == ins && sigs[..k] == sigs;
    }
  }

  /** The digest the signatures are checked against: the hash of the transaction once its
      `signatures` field has been deleted. */
  function Digest(c: Crypto, tx: Tx): (r: Hash)
    requires tx.utxoOuts.Some? && forall i :: 0 <= i < |tx.utxoOuts.value| ==> tx.utxoOuts.value[i].address.Some?
    ensures Some(r) == TxHash(c, tx.(signatures := None))
  {
    TxHash(c, tx.(signatures := None)).value
  }

  /** The failures `verifyTransaction` can end with: a `TypeError` while hashing an output
      without an address, or one of the transaction's own validation errors. */
  predicate TxFailure(f: Failure)
  {
    || f == Crash(OutputWithoutAddress)
    || (&& f.Invalid?
        && (|| f.error.MissingField? || f.error == InvalidId || f.error.UnknownInput? || f.error.SpentInput?
            || f.error.MissingOutputField? || f.error.UsedOutput? || f.error == Imbalance
            || f.error == SignatureCountMismatch || f.error.BadSignature?))
  }

  /** The four fields `verifyTransaction` requires are present. */
  predicate HasFields(tx: Tx)
  {
    tx.id.Some? && tx.utxoIns.Some? && tx.utxoOuts.Some? && tx.signatures.Some?
  }

  /** The fields are present and the id is the transaction hash. */
  predicate IdMatches(c: Crypto, tx: Tx)
  {
    HasFields(tx) && TxHash(c, tx) == Some(tx.id.value)
  }

  /** The checks of `verifyTransaction` up to the point where it deletes `signatures`:
      `Pass` means that point is reached. */
  function Precheck(c: Crypto, db: Store, tx: Tx, coinbase: bool): (r: Outcome)
    ensures r.Fail? ==> TxFailure(r.failure)
    ensures r == Pass ==> IdMatches(c, tx) && |tx.signatures.value| == |tx.utxoIns.value|
  {
    if tx.id.None? then Fail(Invalid(MissingField("_id")))
    else if tx.utxoIns.None? then Fail(Invalid(MissingField("utxoIns")))
    else if tx.utxoOuts.None? then Fail(Invalid(MissingField("utxoOuts")))
    else if tx.signatures.None? then Fail(Invalid(MissingField("signatures")))
    else match TxHash(c, tx)
      case None => Fail(Crash(OutputWithoutAddress))
      case Some(h) =>
        if h != tx.id.value then Fail(Invalid(InvalidId))
        else match InputScan(db, tx.utxoIns.value)
          case Stop(e) => Fail(Invalid(e))
          case Total(inTotal) =>
            match OutputScan(db, tx.utxoOuts.value)
            case Stop(e) => Fail(Invalid(e))
            case Total(outTotal) =>
              if !coinbase && inTotal < outTotal then Fail(Invalid(Imbalance))
              else if |tx.signatures.value| != |tx.utxoIns.value| then Fail(Invalid(SignatureCountMismatch))
              else Pass
  }

  /** The outcome of `verifyTransaction(tx, coinbase)` on a non-null `tx`. */
  function Verdict(c: Crypto, db: Store, tx: Tx, coinbase: bool): (r: Outcome)
    ensures r.Fail? ==> TxFailure(r.failure)
    ensures r == Pass ==> Precheck(c, db, tx, coinbase) == Pass
  {
    if Precheck(c, db, tx, coinbase) != Pass then Precheck(c, db, tx, coinbase)
    else
      HashedOutputsHaveAddresses(c, tx);
      match SignatureScan(c, Digest(c, tx), tx.utxoIns.value, tx.signatures.value)
      case Some(e) => Fail(Invalid(e))
      case None => Pass
  }

  /** The transaction object after `verifyTransaction`: once the signature loop is
      reached `signatures` is deleted, and on success the list is put back under the key
      `signature`. */
  function AfterVerify(c: Crypto, db: Store, tx: Tx, coinbase: bool): (r: Tx)
    ensures r.id == tx.id && r.utxoIns == tx.utxoIns && r.utxoOuts == tx.utxoOuts && r.block == tx.block
    ensures Precheck(c, db, tx, coinbase) != Pass ==> r == tx
    ensures Precheck(c, db, tx, coinbase) == Pass ==> r.signatures.None?
    ensures r.signature == if Verdict(c, db, tx, coinbase) == Pass then tx.signatures else tx.signature
  {
    if Precheck(c, db, tx, coinbase) != Pass then tx
    else if Verdict(c, db, tx, coinbase) == Pass then tx.(signatures := None, signature := tx.signatures)
    else tx.(signatures := None)
  }

  lemma HashedOutputsHaveAddresses(c: Crypto, tx: Tx)
    requires tx.utxoOuts.Some? && TxHash(c, tx).Some?
    ensures forall i :: 0 <= i < |tx.utxoOuts.value| ==> tx.utxoOuts.value[i].address.Some?
  {
  }

  // ---------------------------------------------------------------------------------------
  // What passing verifyTransaction means

  /** Every input is a stored, unspent UTXO. */
  predicate Spendable(db: Store, ins: seq<Key>)
  {
    forall i :: 0 <= i < |ins| ==> ins[i] in db.utxos && db.utxos[ins[i]].txIn.None?
  }

  /** The sum of the stored amounts of the inputs. */
  function InputTotal(db: Store, ins: seq<Key>): int
    requires forall i :: 0 <= i < |ins| ==> ins[i] in db.utxos
  {
    if ins == [] then 0 else InputTotal(db, ins[..|ins| - 1]) + db.utxos[ins[|ins| - 1]].amount
  }

  /** Every output has an address and an amount, at an address that is not a UTXO. */
  predicate Fresh(db: Store, outs: seq<Out>)
  {
    forall i :: 0 <= i < |outs| ==> outs[i].address.Some? && outs[i].amount.Some? && outs[i].address.value !in db.utxos
  }

  /** The sum of the output amounts. */
  function OutputTotal(outs: seq<Out>): int
    requires forall i :: 0 <= i < |outs| ==> outs[i].amount.Some?
  {
    if outs == [] then 0 else OutputTotal(outs[..|outs| - 1]) + outs[|outs| - 1].amount.value
  }

  /** One signature per input, each verifying against its input over `digest`. */
  predicate Signed(c: Crypto, digest: Hash, ins: seq<Key>, sigs: seq<Sig>)
  {
    |sigs| == |ins| && forall i :: 0 <= i < |ins| ==> c.verify(digest, ins[i], sigs[i])
  }

  /** The ledger's rules for a transaction, stated without their order. */
  predicate Admissible(c: Crypto, db: Store, tx: Tx, coinbase: bool)
  {
    && tx.id.Some? && tx.utxoIns.Some? && tx.utxoOuts.Some? && tx.signatures.Some?
    && TxHash(c, tx) == Some(tx.id.value)
    && Spendable(db, tx.utxoIns.value)
    && Fresh(db, tx.utxoOuts.value)
    && (coinbase || InputTotal(db, tx.utxoIns.value) >= OutputTotal(tx.utxoOuts.value))
    && Signed(c, Digest(c, tx), tx.utxoIns.value, tx.signatures.value)
  }

  lemma {:induction false} InputScanMeaning(db: Store, ins: seq<Key>)
    ensures InputScan(db, ins).Total? <==> Spendable(db, ins)
    ensures InputScan(db, ins).Total? ==> InputScan(db, ins).sum == InputTotal(db, ins)
  {
    if ins != [] {
      var front := ins[..|ins| - 1];
      InputScanMeaning(db, front);
      assert forall i :: 0 <= i < |front| ==> front[i] == ins[i];
      assert Spendable(db, ins) <==> Spendable(db, front) && ins[|ins| - 1] in db.utxos && db.utxos[ins[|ins| - 1]].txIn.None?;
    }
  }

  lemma {:induction false} OutputScanMeaning(db: Store, outs: seq<Out>)
    ensures OutputScan(db, outs).Total? <==> Fresh(db, outs)
    ensures OutputScan(db, outs).Total? ==> OutputScan(db, outs).sum == OutputTotal(outs)
  {
    if outs != [] {
      var front := outs[..|outs| - 1];
      OutputScanMeaning(db, front);
      assert forall i :: 0 <= i < |front| ==> front[i] == outs[i];
      var o := outs[|outs| - 1];
      assert Fresh(db, outs) <==> Fresh(db, front) && o.address.Some? && o.amount.Some? && o.address.value !in db.utxos;
    }
  }

  lemma {:induction false} SignatureScanMeaning(c: Crypto, digest: Hash, ins: seq<Key>, sigs: seq<Sig>)
    requires |ins| == |sigs|
    ensures SignatureScan(c, digest, ins, sigs).None? <==> Signed(c, digest, ins, sigs)
  {
    if sigs != [] {
      var n := |ins|;
      SignatureScanMeaning(c, digest, ins[..n - 1], sigs[..n - 1]);
      assert forall i :: 0 <= i < n - 1 ==> ins[..n - 1][i] == ins[i] && sigs[..n - 1][i] == sigs[i];
      assert Signed(c, digest, ins, sigs) <==> Signed(c, digest, ins[..n - 1], sigs[..n - 1]) && c.verify(digest, ins[n - 1], sigs[n - 1]);
    }
  }

  /** `verifyTransaction` accepts exactly the transactions that meet every rule. */
  lemma VerdictPassIff(c: Crypto, db: Store, tx: Tx, coinbase: bool)
    ensures Verdict(c, db, tx, coinbase) == Pass <==> Admissible(c, db, tx, coinbase)
  {
    if tx.id.Some? && tx.utxoIns.Some? && tx.utxoOuts.Some? && tx.signatures.Some? {
      InputScanMeaning(db, tx.utxoIns.value);
      OutputScanMeaning(db, tx.utxoOuts.value);
      if Fresh(db, tx.utxoOuts.value) && |tx.signatures.value| == |tx.utxoIns.value| {
        SignatureScanMeaning(c, Digest(c, tx), tx.utxoIns.value, tx.signatures.value);
      }
    }
  }

  /** An output without an address makes the hash computation throw before the output
      loop runs, so the "missing address" rejection is never reported. */
  lemma MissingAddressUnreported(c: Crypto, db: Store, tx: Tx, coinbase: bool)
    ensures Verdict(c, db, tx, coinbase) != Fail(Invalid(MissingOutputField("address")))
  {
    if tx.id.Some? && tx.utxoIns.Some? && tx.utxoOuts.Some? && tx.signatures.Some? && TxHash(c, tx).Some? {
      HashedOutputsHaveAddresses(c, tx);
      OutputScanNeverMissesAddress(db, tx.utxoOuts.value);
    }
  }

  lemma {:induction false} OutputScanNeverMissesAddress(db: Store, outs: seq<Out>)
    requires forall i :: 0 <= i < |outs| ==> outs[i].address.Some?
    ensures OutputScan(db, outs) != Stop(MissingOutputField("address"))
  {
    if outs != [] {
      OutputScanNeverMissesAddress(db, outs[..|outs| - 1]);
    }
  }

  /** The shape checks come first and read nothing from the store: a transaction missing
      a field is rejected for the first missing one, in the order `_id`, `utxoIns`,
      `utxoOuts`, `signatures`, whatever the store holds. */
  lemma MissingFieldFirst(c: Crypto, db1: Store, db2: Store, tx: Tx, coinbase: bool)
    requires tx.id.None? || tx.utxoIns.None? || tx.utxoOuts.None? || tx.signatures.None?
    ensures Verdict(c, db1, tx, coinbase) == Verdict(c, db2, tx, coinbase)
    ensures Verdict(c, db1, tx, coinbase) == Fail(Invalid(MissingField(
              if tx.id.None? then "_id" else if tx.utxoIns.None? then "utxoIns"
              else if tx.utxoOuts.None? then "utxoOuts" else "signatures")))
  {
  }

  /** A coinbase skips the balance rule and only that rule: whatever passes as a regular
      transaction passes as a coinbase, and a coinbase that would fail as a regular
      transaction outputs more than its inputs hold. */
  lemma CoinbaseSkipsBalance(c: Crypto, db: Store, tx: Tx)
    ensures Verdict(c, db, tx, false) == Pass ==> Verdict(c, db, tx, true) == Pass
    ensures Verdict(c, db, tx, true) == Pass && Verdict(c, db, tx, false) != Pass ==>
              && tx.utxoIns.Some? && tx.utxoOuts.Some?
              && Spendable(db, tx.utxoIns.value) && Fresh(db, tx.utxoOuts.value)
              && InputTotal(db, tx.utxoIns.value) < OutputTotal(tx.utxoOuts.value)
  {
    VerdictPassIff(c, db, tx, true);
    VerdictPassIff(c, db, tx, false);
  }

  // ---------------------------------------------------------------------------------------
  // Which rejection verifyTransaction reports: each failure exactly when every earlier
  // rule holds and its own rule fails

  /** Hashing throws exactly when the fields are present and some output has no address. */
  lemma TxCrashesWithoutAddress(c: Crypto, db: Store, tx: Tx, coinbase: bool)
    ensures Verdict(c, db, tx, coinbase) == Fail(Crash(OutputWithoutAddress)) <==>
              HasFields(tx) && exists i :: 0 <= i < |tx.utxoOuts.value| && tx.utxoOuts.value[i].address.None?
  {
  }

  /** The id is rejected exactly when the fields are present and the hash exists but
      differs from it. */
  lemma TxRejectsId(c: Crypto, db: Store, tx: Tx, coinbase: bool)
    ensures Verdict(c, db, tx, coinbase) == Fail(Invalid(InvalidId)) <==>
              HasFields(tx) && TxHash(c, tx).Some? && TxHash(c, tx).value != tx.id.value
  {
  }

  /** An input is rejected (unknown or spent) exactly when the id matches and some input
      is not a stored unspent UTXO; the rejection names the first such input. */
  lemma TxRejectsInput(c: Crypto, db: Store, tx: Tx, coinbase: bool)
    ensures (&& Verdict(c, db, tx, coinbase).Fail? && Verdict(c, db, tx, coinbase).failure.Invalid?
             && (Verdict(c, db, tx, coinbase).failure.error.UnknownInput? || Verdict(c, db, tx, coinbase).failure.error.SpentInput?))
            <==> IdMatches(c, tx) && !Spendable(db, tx.utxoIns.value)
    ensures IdMatches(c, tx) && !Spendable(db, tx.utxoIns.value) ==>
              Verdict(c, db, tx, coinbase) == Fail(Invalid(InputScan(db, tx.utxoIns.value).error))
  {
    if HasFields(tx) {
      InputScanMeaning(db, tx.utxoIns.value);
    }
  }

  /** An output is rejected (missing field or used address) exactly when the inputs pass
      and some output is not complete and fresh. */
  lemma TxRejectsOutput(c: Crypto, db: Store, tx: Tx, coinbase: bool)
    ensures (&& Verdict(c, db, tx, coinbase).Fail? && Verdict(c, db, tx, coinbase).failure.Invalid?
             && (Verdict(c, db, tx, coinbase).failure.error.MissingOutputField? || Verdict(c, db, tx, coinbase).failure.error.UsedOutput?))
            <==> IdMatches(c, tx) && Spendable(db, tx.utxoIns.value) && !Fresh(db, tx.utxoOuts.value)
    ensures IdMatches(c, tx) && Spendable(db, tx.utxoIns.value) && !Fresh(db, tx.utxoOuts.value) ==>
              Verdict(c, db, tx, coinbase) == Fail(Invalid(OutputScan(db, tx.utxoOuts.value).error))
  {
    if HasFields(tx) {
      InputScanMeaning(db, tx.utxoIns.value);
      OutputScanMeaning(db, tx.utxoOuts.value);
    }
  }

  /** The imbalance is reported exactly for a regular transaction whose inputs and outputs
      pass and whose outputs are worth more than its inputs. */
  lemma TxRejectsImbalance(c: Crypto, db: Store, tx: Tx, coinbase: bool)
    ensures Verdict(c, db, tx, coinbase) == Fail(Invalid(Imbalance)) <==>
              && IdMatches(c, tx) && Spendable(db, tx.utxoIns.value) && Fresh(db, tx.utxoOuts.value)
              && !coinbase && InputTotal(db, tx.utxoIns.value) < OutputTotal(tx.utxoOuts.value)
  {
    if HasFields(tx) {
      InputScanMeaning(db, tx.utxoIns.value);
      OutputScanMeaning(db, tx.utxoOuts.value);
    }
  }

  /** The signature count is rejected exactly when every earlier rule holds and there are
      not as many signatures as inputs. */
  lemma TxRejectsSignatureCount(c: Crypto, db: Store, tx: Tx, coinbase: bool)
    ensures Verdict(c, db, tx, coinbase) == Fail(Invalid(SignatureCountMismatch)) <==>
              && IdMatches(c, tx) && Spendable(db, tx.utxoIns.value) && Fresh(db, tx.utxoOuts.value)
              && (coinbase || InputTotal(db, tx.utxoIns.value) >= OutputTotal(tx.utxoOuts.value))
              && |tx.signatures.value| != |tx.utxoIns.value|
  {
    if HasFields(tx) {
      InputScanMeaning(db, tx.utxoIns.value);
      OutputScanMeaning(db, tx.utxoOuts.value);
    }
  }

  /** A signature is rejected exactly when every earlier rule holds and some signature
      does not verify against its input over the digest. */
  lemma TxRejectsSignature(c: Crypto, db: Store, tx: Tx, coinbase: bool)
    ensures (&& Verdict(c, db, tx, coinbase).Fail? && Verdict(c, db, tx, coinbase).failure.Invalid?
             && Verdict(c, db, tx, coinbase).failure.error.BadSignature?)
            <==>
            (&& IdMatches(c, tx) && Spendable(db, tx.utxoIns.value) && Fresh(db, tx.utxoOuts.value)
             && (coinbase || InputTotal(db, tx.utxoIns.value) >= OutputTotal(tx.utxoOuts.value))
             && |tx.signatures.value| == |tx.utxoIns.value|
             && !Signed(c, Digest(c, tx), tx.utxoIns.value, tx.signatures.value))
  {
    if HasFields(tx) {
      InputScanMeaning(db, tx.utxoIns.value);
      OutputScanMeaning(db, tx.utxoOuts.value);
      if Fresh(db, tx.utxoOuts.value) && |tx.signatures.value| == |tx.utxoIns.value| {
        SignatureScanMeaning(c, Digest(c, tx), tx.utxoIns.value, tx.signatures.value);
      }
    }
  }

  // ---------------------------------------------------------------------------------------
  // addBlock

  /** The loop over the listed transaction ids: each must be stored and unconfirmed. */
  function IdScan(db: Store, ids: seq<Hash>): (r: Option<ValidationError>)
    ensures r.Some? ==> r.value.UnknownTransaction? || r.value.ConfirmedTransaction?
  {
    if ids == [] then None
    else match IdScan(db, ids[..|ids| - 1])
      case Some(e) => Some(e)
      case None =>
        var id := ids[|ids| - 1];
        match db.GetTransaction(id)
        case None => Some(UnknownTransaction(id))
        case Some(t) => if t.block.Some? then Some(ConfirmedTransaction(id)) else None
  }

  lemma {:induction false} IdScanStops(db: Store, ids: seq<Hash>, k: nat)
    requires k <= |ids| && IdScan(db, ids[..k]).Some?
    ensures IdScan(db, ids) == IdScan(db, ids[..k])
  {
    if k < |ids| {
      assert ids[..|ids| - 1][..k] == ids[..k];
      IdScanStops(db, ids[..|ids| - 1], k);
    } else {
      assert ids[..k] == ids;
    }
  }

  /** Every listed id names a stored transaction that no block confirms yet. */
  predicate Pending(db: Store, ids: seq<Hash>)
  {
    forall i :: 0 <= i < |ids| ==> ids[i] in db.txs && db.txs[ids[i]].block.None?
  }

  lemma {:induction false} IdScanMeaning(db: Store, ids: seq<Hash>)
    ensures IdScan(db, ids).None? <==> Pending(db, ids)
  {
    if ids != [] {
      var front := ids[..|ids| - 1];
      IdScanMeaning(db, front);
      assert forall i :: 0 <= i < |front| ==> front[i] == ids[i];
      assert Pending(db, ids) <==> Pending(db, front) && ids[|ids| - 1] in db.txs && db.txs[ids[|ids| - 1]].block.None?;
    }
  }

  /** The coinbase has a first output, of the configured amount. */
  predicate CoinbasePays(cb: Tx, amount: int)
  {
    cb.utxoOuts.Some? && cb.utxoOuts.value != [] && cb.utxoOuts.value[0].amount == Some(amount)
  }

  /** The coinbase pays the amount, and the listed ids are pending and fewer than `limit`. */
  predicate ListFits(db: Store, limit: int, amount: int, cb: Tx, ids: seq<Hash>)
  {
    CoinbasePays(cb, amount) && Pending(db, ids) && |ids| < limit
  }

  /** The previous block is stored; a block without one comes first in an empty store. */
  predicate Linked(db: Store, block: Block)
  {
    if block.previous.None? then db.blocks == map[] else block.previous.value in db.blocks
  }

  /** The three block fields `addBlock` requires are present. */
  predicate BlockComplete(block: Block)
  {
    block.id.Some? && block.root.Some? && block.nonce.Some?
  }

  /** The rules the shape checks of `addBlock` enforce. */
  predicate Placed(db: Store, limit: int, amount: int, block: Block, cb: Tx, ids: seq<Hash>)
  {
    ListFits(db, limit, amount, cb, ids) && Linked(db, block) && BlockComplete(block)
  }

  /** Every rule on the block itself, before its coinbase is verified: the shape, the
      Merkle root over the coinbase id and the listed ids, the id, the work. */
  predicate BlockRules(c: Crypto, db: Store, difficulty: int, limit: int, amount: int, block: Block, cb: Tx, ids: seq<Hash>)
  {
    && Placed(db, limit, amount, block, cb, ids)
    && cb.id.Some?
    && block.root.value == c.merkleRoot([cb.id.value] + ids)
    && block.id.value == BlockHash(c, block)
    && HasWork(block, difficulty)
  }

  /** The failures `addBlock` reports before it verifies the coinbase. */
  predicate BlockFailure(f: Failure)
  {
    || f == Crash(NoCoinbaseOutput) || f == Crash(UndefinedMerkleLeaf)
    || (&& f.Invalid?
        && (|| f.error == CoinbaseAmount || f.error.UnknownTransaction? || f.error.ConfirmedTransaction?
            || f.error == OverLimit || f.error == GenesisExists || f.error == UnknownPrevious
            || f.error.MissingBlockField? || f.error == BadRoot || f.error == BadBlockId
            || f.error == InsufficientWork))
  }

  /** No failure is both of a block's kind and of a transaction's kind. */
  lemma FailureKindsDisjoint(f: Failure)
    ensures !(BlockFailure(f) && TxFailure(f))
  {
  }

  /** The checks of `addBlock` that come before the coinbase id is prepended to the list:
      the coinbase amount, the listed ids, the count, the previous block, the fields. */
  function BlockShape(db: Store, limit: int, amount: int, block: Block, cb: Tx, ids: seq<Hash>): (r: Outcome)
    requires db.Valid()
    ensures r == Pass ==> CoinbasePays(cb, amount) && |ids| < limit && Linked(db, block) && BlockComplete(block)
    ensures r.Fail? ==> BlockFailure(r.failure)
  {
    if cb.utxoOuts.None? || cb.utxoOuts.value == [] then Fail(Crash(NoCoinbaseOutput))
    else if cb.utxoOuts.value[0].amount != Some(amount) then Fail(Invalid(CoinbaseAmount))
    else if IdScan(db, ids).Some? then Fail(Invalid(IdScan(db, ids).value))
    else if |ids| >= limit then Fail(Invalid(OverLimit))
    else if block.previous.None? && db.LatestBlock().Some? then Fail(Invalid(GenesisExists))
    else if block.previous.Some? && db.GetBlock(block.previous.value).None? then Fail(Invalid(UnknownPrevious))
    else if block.id.None? then Fail(Invalid(MissingBlockField("_id")))
    else if block.root.None? then Fail(Invalid(MissingBlockField("root")))
    else if block.nonce.None? then Fail(Invalid(MissingBlockField("nonce")))
    else Pass
  }

  /** `addBlock` prepends the coinbase id to the caller's list once the shape checks pass. */
  predicate Prepends(db: Store, limit: int, amount: int, block: Block, cb: Tx, ids: seq<Hash>)
    requires db.Valid()
  {
    BlockShape(db, limit, amount, block, cb, ids) == Pass && cb.id.Some?
  }

  /** All block checks before the coinbase itself is verified: `Pass` means
      `verifyTransaction(coinbase, true)` is reached. */
  function BlockPrecheck(c: Crypto, db: Store, difficulty: int, limit: int, amount: int, block: Block, cb: Tx, ids: seq<Hash>): (r: Outcome)
    requires db.Valid()
    ensures r == Pass ==> cb.id.Some? && BlockComplete(block) && block.root.value == c.merkleRoot([cb.id.value] + ids)
    ensures r == Pass ==> block.id.value == BlockHash(c, block) && HasWork(block, difficulty)
    ensures r.Fail? ==> BlockFailure(r.failure)
  {
    if BlockShape(db, limit, amount, block, cb, ids) != Pass then BlockShape(db, limit, amount, block, cb, ids)
    else if cb.id.None? then Fail(Crash(UndefinedMerkleLeaf))
    else if c.merkleRoot([cb.id.value] + ids) != block.root.value then Fail(Invalid(BadRoot))
    else if BlockHash(c, block) != block.id.value then Fail(Invalid(BadBlockId))
    else if !HasWork(block, difficulty) then Fail(Invalid(InsufficientWork))
    else Pass
  }

  /** The outcome of `addBlock(block, coinbase, ids)`. */
  function BlockVerdict(c: Crypto, db: Store, difficulty: int, limit: int, amount: int, block: Block, cb: Tx, ids: seq<Hash>): (r: Outcome)
    requires db.Valid()
    ensures r.Fail? ==> BlockFailure(r.failure) || TxFailure(r.failure)
  {
    if BlockPrecheck(c, db, difficulty, limit, amount, block, cb, ids) != Pass
    then BlockPrecheck(c, db, difficulty, limit, amount, block, cb, ids)
    else Verdict(c, db, cb, true)
  }

  /** The store after an accepted block: the verified coinbase, then the block, then every
      id of `[coinbase id] + ids` confirmed by the block. */
  function Accept(c: Crypto, db: Store, block: Block, cb: Tx, ids: seq<Hash>): (r: Store)
    requires db.Valid() && block.id.Some? && cb.id.Some?
    ensures r.Valid()
  {
    db.AddTransaction(cb.id.value, AfterVerify(c, db, cb, true))
      .AddBlock(block)
      .ConfirmTransactions(block.id.value, [cb.id.value] + ids)
  }

  /** The chain shape `addBlock` maintains: every block's previous block is stored, and
      at most one block has no previous block. */
  ghost predicate ChainShape(blocks: map<Hash, Block>)
  {
    && (forall h :: h in blocks && blocks[h].previous.Some? ==> blocks[h].previous.value in blocks)
    && (forall h1, h2 :: h1 in blocks && h2 in blocks && blocks[h1].previous.None? && blocks[h2].previous.None? ==> h1 == h2)
  }

  /** A consistent store whose blocks have the chain shape. */
  ghost predicate Chained(db: Store)
  {
    db.Valid() && ChainShape(db.blocks)
  }

  /** The ledger's rules for a block, stated without their order. */
  predicate BlockAdmissible(c: Crypto, db: Store, difficulty: int, limit: int, amount: int, block: Block, cb: Tx, ids: seq<Hash>)
  {
    BlockRules(c, db, difficulty, limit, amount, block, cb, ids) && Admissible(c, db, cb, true)
  }

  /** `addBlock` accepts exactly the blocks that meet every rule. */
  lemma BlockVerdictPassIff(c: Crypto, db: Store, difficulty: int, limit: int, amount: int, block: Block, cb: Tx, ids: seq<Hash>)
    requires db.Valid()
    ensures BlockVerdict(c, db, difficulty, limit, amount, block, cb, ids) == Pass <==>
              BlockAdmissible(c, db, difficulty, limit, amount, block, cb, ids)
  {
    IdScanMeaning(db, ids);
    VerdictPassIff(c, db, cb, true);
  }

  // ---------------------------------------------------------------------------------------
  // Which rejection addBlock reports: each failure exactly when every earlier rule holds
  // and its own rule fails

  /** Reading the coinbase amount throws exactly when the coinbase has no outputs. */
  lemma BlockCrashesWithoutOutput(c: Crypto, db: Store, difficulty: int, limit: int, amount: int, block: Block, cb: Tx, ids: seq<Hash>)
    requires db.Valid()
    ensures BlockVerdict(c, db, difficulty, limit, amount, block, cb, ids) == Fail(Crash(NoCoinbaseOutput)) <==>
              cb.utxoOuts.None? || cb.utxoOuts.value == []
  {
  }

  lemma BlockRejectsAmount(c: Crypto, db: Store, difficulty: int, limit: int, amount: int, block: Block, cb: Tx, ids: seq<Hash>)
    requires db.Valid()
    ensures BlockVerdict(c, db, difficulty, limit, amount, block, cb, ids) == Fail(Invalid(CoinbaseAmount)) <==>
              cb.utxoOuts.Some? && cb.utxoOuts.value != [] && cb.utxoOuts.value[0].amount != Some(amount)
  {
  }

  /** A listed id is rejected (unknown or confirmed) exactly when the coinbase amount is
      right and some listed id is not pending; the rejection names the first such id. */
  lemma BlockRejectsIds(c: Crypto, db: Store, difficulty: int, limit: int, amount: int, block: Block, cb: Tx, ids: seq<Hash>)
    requires db.Valid()
    ensures var v := BlockVerdict(c, db, difficulty, limit, amount, block, cb, ids);
            (v.Fail? && v.failure.Invalid? && (v.failure.error.UnknownTransaction? || v.failure.error.ConfirmedTransaction?))
            <==> CoinbasePays(cb, amount) && !Pending(db, ids)
    ensures CoinbasePays(cb, amount) && !Pending(db, ids) ==>
              BlockVerdict(c, db, difficulty, limit, amount, block, cb, ids) == Fail(Invalid(IdScan(db, ids).value))
  {
    IdScanMeaning(db, ids);
  }

  lemma BlockRejectsOverLimit(c: Crypto, db: Store, difficulty: int, limit: int, amount: int, block: Block, cb: Tx, ids: seq<Hash>)
    requires db.Valid()
    ensures BlockVerdict(c, db, difficulty, limit, amount, block, cb, ids) == Fail(Invalid(OverLimit)) <==>
              CoinbasePays(cb, amount) && Pending(db, ids) && |ids| >= limit
  {
    IdScanMeaning(db, ids);
  }

  /** A second genesis block is rejected exactly when the list fits and a block exists. */
  lemma BlockRejectsGenesis(c: Crypto, db: Store, difficulty: int, limit: int, amount: int, block: Block, cb: Tx, ids: seq<Hash>)
    requires db.Valid()
    ensures BlockVerdict(c, db, difficulty, limit, amount, block, cb, ids) == Fail(Invalid(GenesisExists)) <==>
              ListFits(db, limit, amount, cb, ids) && block.previous.None? && db.blocks != map[]
  {
    IdScanMeaning(db, ids);
  }

  lemma BlockRejectsPrevious(c: Crypto, db: Store, difficulty: int, limit: int, amount: int, block: Block, cb: Tx, ids: seq<Hash>)
    requires db.Valid()
    ensures BlockVerdict(c, db, difficulty, limit, amount, block, cb, ids) == Fail(Invalid(UnknownPrevious)) <==>
              ListFits(db, limit, amount, cb, ids) && block.previous.Some? && block.previous.value !in db.blocks
  {
    IdScanMeaning(db, ids);
  }

  /** A missing block field is rejected exactly when the block is linked and some field is
      missing; the first missing one in the order `_id`, `root`, `nonce` is named. */
  lemma BlockRejectsMissingField(c: Crypto, db: Store, difficulty: int, limit: int, amount: int, block: Block, cb: Tx, ids: seq<Hash>)
    requires db.Valid()
    ensures var v := BlockVerdict(c, db, difficulty, limit, amount, block, cb, ids);
            (v.Fail? && v.failure.Invalid? && v.failure.error.MissingBlockField?)
            <==> ListFits(db, limit, amount, cb, ids) && Linked(db, block) && !BlockComplete(block)
    ensures ListFits(db, limit, amount, cb, ids) && Linked(db, block) && !BlockComplete(block) ==>
              BlockVerdict(c, db, difficulty, limit, amount, block, cb, ids) == Fail(Invalid(MissingBlockField(
                if block.id.None? then "_id" else if block.root.None? then "root" else "nonce")))
  {
    IdScanMeaning(db, ids);
  }

  /** Hashing the coinbase id into the Merkle tree throws exactly when the block passes its
      shape checks and the coinbase has no id. */
  lemma BlockCrashesWithoutCoinbaseId(c: Crypto, db: Store, difficulty: int, limit: int, amount: int, block: Block, cb: Tx, ids: seq<Hash>)
    requires db.Valid()
    ensures BlockVerdict(c, db, difficulty, limit, amount, block, cb, ids) == Fail(Crash(UndefinedMerkleLeaf)) <==>
              Placed(db, limit, amount, block, cb, ids) && cb.id.None?
  {
    IdScanMeaning(db, ids);
  }

  lemma BlockRejectsRoot(c: Crypto, db: Store, difficulty: int, limit: int, amount: int, block: Block, cb: Tx, ids: seq<Hash>)
    requires db.Valid()
    ensures BlockVerdict(c, db, difficulty, limit, amount, block, cb, ids) == Fail(Invalid(BadRoot)) <==>
              && Placed(db, limit, amount, block, cb, ids) && cb.id.Some?
              && block.root.value != c.merkleRoot([cb.id.value] + ids)
  {
    IdScanMeaning(db, ids);
  }

  lemma BlockRejectsBlockId(c: Crypto, db: Store, difficulty: int, limit: int, amount: int, block: Block, cb: Tx, ids: seq<Hash>)
    requires db.Valid()
    ensures BlockVerdict(c, db, difficulty, limit, amount, block, cb, ids) == Fail(Invalid(BadBlockId)) <==>
              && Placed(db, limit, amount, block, cb, ids) && cb.id.Some?
              && block.root.value == c.merkleRoot([cb.id.value] + ids)
              && block.id.value != BlockHash(c, block)
  {
    IdScanMeaning(db, ids);
  }

  lemma BlockRejectsWork(c: Crypto, db: Store, difficulty: int, limit: int, amount: int, block: Block, cb: Tx, ids: seq<Hash>)
    requires db.Valid()
    ensures BlockVerdict(c, db, difficulty, limit, amount, block, cb, ids) == Fail(Invalid(InsufficientWork)) <==>
              && Placed(db, limit, amount, block, cb, ids) && cb.id.Some?
              && block.root.value == c.merkleRoot([cb.id.value] + ids)
              && block.id.value == BlockHash(c, block)
              && !HasWork(block, difficulty)
  {
    IdScanMeaning(db, ids);
  }

  /** The block checks before the coinbase pass exactly when every rule on the block holds. */
  lemma BlockPrecheckPassIff(c: Crypto, db: Store, difficulty: int, limit: int, amount: int, block: Block, cb: Tx, ids: seq<Hash>)
    requires db.Valid()
    ensures BlockPrecheck(c, db, difficulty, limit, amount, block, cb, ids) == Pass <==>
              BlockRules(c, db, difficulty, limit, amount, block, cb, ids)
  {
    IdScanMeaning(db, ids);
  }

  /** Once every rule on the block holds, the outcome is that of verifying the coinbase. */
  lemma BlockDefersToCoinbase(c: Crypto, db: Store, difficulty: int, limit: int, amount: int, block: Block, cb: Tx, ids: seq<Hash>)
    requires db.Valid()
    ensures BlockRules(c, db, difficulty, limit, amount, block, cb, ids) ==>
              BlockVerdict(c, db, difficulty, limit, amount, block, cb, ids) == Verdict(c, db, cb, true)
  {
    BlockPrecheckPassIff(c, db, difficulty, limit, amount, block, cb, ids);
  }

  /** A failure of a transaction's kind is reported for a block only when every rule on the
      block holds, that is, only by the coinbase's own verification. */
  lemma BlockCoinbaseFailure(c: Crypto, db: Store, difficulty: int, limit: int, amount: int, block: Block, cb: Tx, ids: seq<Hash>)
    requires db.Valid()
    ensures var v := BlockVerdict(c, db, difficulty, limit, amount, block, cb, ids);
            v.Fail? && TxFailure(v.failure) ==> BlockRules(c, db, difficulty, limit, amount, block, cb, ids)
  {
    BlockPrecheckPassIff(c, db, difficulty, limit, amount, block, cb, ids);
    var p := BlockPrecheck(c, db, difficulty, limit, amount, block, cb, ids);
    if p.Fail? {
      FailureKindsDisjoint(p.failure);
    }
  }

  /** Adding a block whose previous block is stored, or the first block, keeps the shape. */
  lemma ChainShapeExtends(blocks: map<Hash, Block>, key: Hash, block: Block)
    requires ChainShape(blocks)
    requires if block.previous.None? then blocks == map[] else block.previous.value in blocks
    ensures ChainShape(blocks[key := block])
  {
    var r := blocks[key := block];
    forall h | h in r && r[h].previous.Some?
      ensures r[h].previous.value in r
    {
      if h != key {
        assert h in blocks;
      }
    }
  }

  /** Storing a transaction, then a block whose previous block is stored (or the first
      block), then confirming ids keeps the chain shape. */
  lemma StoreBlockKeepsChain(db: Store, key: Hash, t: Tx, block: Block, ids: seq<Hash>)
    requires Chained(db) && block.id.Some?
    requires if block.previous.None? then db.blocks == map[] else block.previous.value in db.blocks
    ensures db.AddTransaction(key, t).AddBlock(block).ConfirmTransactions(block.id.value, ids).blocks ==
              db.blocks[block.id.value := block]
    ensures Chained(db.AddTransaction(key, t).AddBlock(block).ConfirmTransactions(block.id.value, ids))
  {
    ChainShapeExtends(db.blocks, block.id.value, block);
  }

  /** An accepted block keeps the chain shape: it is stored under its id, its previous
      block is stored, and it has no previous block only when the store held no block. */
  lemma AcceptKeepsChain(c: Crypto, db: Store, block: Block, cb: Tx, ids: seq<Hash>)
    requires Chained(db) && block.id.Some? && cb.id.Some?
    requires if block.previous.None? then db.blocks == map[] else block.previous.value in db.blocks
    ensures Accept(c, db, block, cb, ids).blocks == db.blocks[block.id.value := block]
    ensures Chained(Accept(c, db, block, cb, ids))
  {
    StoreBlockKeepsChain(db, cb.id.value, AfterVerify(c, db, cb, true), block, [cb.id.value] + ids);
  }

  /** Storing a transaction under `key`, then a block, then confirming ids that are `key`
      or already stored stamps each of them with the block id. */
  lemma StoreBlockConfirms(db: Store, key: Hash, t: Tx, block: Block, ids: seq<Hash>)
    requires db.Valid() && block.id.Some?
    requires forall h :: h in ids ==> h == key || h in db.txs
    ensures var r := db.AddTransaction(key, t).AddBlock(block).ConfirmTransactions(block.id.value, ids);
            forall h :: h in ids ==> h in r.txs && r.txs[h].block == block.id
  {
    var withBlock := db.AddTransaction(key, t).AddBlock(block);
    var r := withBlock.ConfirmTransactions(block.id.value, ids);
    forall h | h in ids
      ensures h in r.txs && r.txs[h].block == block.id
    {
      assert h in withBlock.txs;
    }
  }

  /** An accepted block confirms the coinbase and every listed transaction. */
  lemma AcceptConfirms(c: Crypto, db: Store, block: Block, cb: Tx, ids: seq<Hash>)
    requires db.Valid() && block.id.Some? && cb.id.Some?
    requires Pending(db, ids)
    ensures forall h :: h in [cb.id.value] + ids ==>
              h in Accept(c, db, block, cb, ids).txs && Accept(c, db, block, cb, ids).txs[h].block == block.id
  {
    forall h | h in [cb.id.value] + ids
      ensures h == cb.id.value || h in db.txs
    {
      if h != cb.id.value {
        var i :| 0 <= i < |ids| && ids[i] == h;
      }
    }
    StoreBlockConfirms(db, cb.id.value, AfterVerify(c, db, cb, true), block, [cb.id.value] + ids);
  }

  /** The UTXOs after an accepted block are the coinbase outputs registered over the old ones. */
  lemma AcceptUtxos(c: Crypto, db: Store, block: Block, cb: Tx, ids: seq<Hash>)
    requires db.Valid() && block.id.Some? && cb.id.Some? && cb.utxoOuts.Some?
    ensures Accept(c, db, block, cb, ids).utxos == Database.Store.Register(db.utxos, cb.utxoOuts.value)
  {
  }

  /** An accepted block registers every coinbase output as a UTXO. */
  lemma AcceptRegistersCoinbase(c: Crypto, db: Store, block: Block, cb: Tx, ids: seq<Hash>)
    requires db.Valid() && block.id.Some? && cb.id.Some?
    requires cb.utxoOuts.Some? && Fresh(db, cb.utxoOuts.value)
    ensures forall o :: o in cb.utxoOuts.value ==> o.address.Some? && o.address.value in Accept(c, db, block, cb, ids).utxos
  {
    var r := Accept(c, db, block, cb, ids);
    AcceptUtxos(c, db, block, cb, ids);
    forall o | o in cb.utxoOuts.value
      ensures o.address.Some? && o.address.value in r.utxos
    {
      var i :| 0 <= i < |cb.utxoOuts.value| && cb.utxoOuts.value[i] == o;
    }
  }

  /** The UTXO an accepted block registers for a coinbase output carries that output's
      amount and `txIn` (for the last output paid to its address). */
  lemma AcceptStoresCoinbase(c: Crypto, db: Store, block: Block, cb: Tx, ids: seq<Hash>, i: int)
    requires db.Valid() && block.id.Some? && cb.id.Some?
    requires cb.utxoOuts.Some? && 0 <= i < |cb.utxoOuts.value| && Database.Store.LastPayment(cb.utxoOuts.value, i)
    ensures var o := cb.utxoOuts.value[i];
            && o.address.value in Accept(c, db, block, cb, ids).utxos
            && Accept(c, db, block, cb, ids).utxos[o.address.value] == Utxo(o.address.value, o.amount.value, o.txIn)
  {
    AcceptUtxos(c, db, block, cb, ids);
    Database.Store.RegisterStores(db.utxos, cb.utxoOuts.value, i);
  }

  /** An accepted block with fresh coinbase outputs leaves every earlier UTXO as it was. */
  lemma AcceptKeepsUtxos(c: Crypto, db: Store, block: Block, cb: Tx, ids: seq<Hash>, a: Key)
    requires db.Valid() && block.id.Some? && cb.id.Some?
    requires cb.utxoOuts.Some? && Fresh(db, cb.utxoOuts.value) && a in db.utxos
    ensures a in Accept(c, db, block, cb, ids).utxos && Accept(c, db, block, cb, ids).utxos[a] == db.utxos[a]
  {
    AcceptUtxos(c, db, block, cb, ids);
    Database.Store.RegisterKeeps(db.utxos, cb.utxoOuts.value, a);
  }

  // ---------------------------------------------------------------------------------------
  // Nothing marks an input as spent: `spendUtxos` is never called, so `txIn` stays unset

  /** Storing a transaction that `verifyTransaction` accepted leaves its inputs spendable:
      a second transaction spending the same UTXOs clears the input check again. */
  lemma AcceptedInputsStaySpendable(c: Crypto, db: Store, key: Hash, tx: Tx, coinbase: bool)
    requires db.Valid() && Verdict(c, db, tx, coinbase) == Pass
    ensures tx.utxoIns.Some?
    ensures Spendable(db.AddTransaction(key, tx), tx.utxoIns.value)
    ensures InputScan(db.AddTransaction(key, tx), tx.utxoIns.value).Total?
  {
    VerdictPassIff(c, db, tx, coinbase);
    var ins, outs := tx.utxoIns.value, tx.utxoOuts.value;
    var after := db.AddTransaction(key, tx);
    forall i | 0 <= i < |ins|
      ensures ins[i] in after.utxos && after.utxos[ins[i]].txIn.None?
    {
      Database.Store.RegisterKeeps(db.utxos, outs, ins[i]);
    }
    InputScanMeaning(after, ins);
  }

  /** An accepted block spends nothing either: every input that was spendable before it
      is spendable after it. */
  lemma AcceptedBlockSpendsNothing(c: Crypto, db: Store, difficulty: int, limit: int, amount: int, block: Block, cb: Tx, ids: seq<Hash>, ins: seq<Key>)
    requires db.Valid() && BlockVerdict(c, db, difficulty, limit, amount, block, cb, ids) == Pass
    requires Spendable(db, ins)
    ensures block.id.Some? && cb.id.Some?
    ensures Spendable(Accept(c, db, block, cb, ids), ins)
  {
    BlockVerdictPassIff(c, db, difficulty, limit, amount, block, cb, ids);
    forall i | 0 <= i < |ins|
      ensures ins[i] in Accept(c, db, block, cb, ids).utxos && Accept(c, db, block, cb, ids).utxos[ins[i]].txIn.None?
    {
      AcceptKeepsUtxos(c, db, block, cb, ids, ins[i]);
    }
  }
}
