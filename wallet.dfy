/**
 * `DotcoinClient` of core/client.mjs: the wallet. It reads the ledger store, finds the
 * UTXOs paid to its keys, computes balances, builds and signs transfers, and assembles
 * coinbase transactions and block templates for mining. The client never writes to the
 * store; every operation reads the store as it is at the time of the call, which is a
 * parameter here.
 */
module Wallet {
  import opened Types
  import opened Codec
  import opened Keys
  import opened ProofOfWork
  import opened Database

  // ---------------------------------------------------------------------------------------
  // What the client needs to find in the store

  /** Every output carries an address. */
  predicate Addressed(outs: seq<Out>)
  {
    forall o :: o in outs ==> o.address.Some?
  }

  /** Every output carries an amount. */
  predicate Priced(outs: seq<Out>)
  {
    forall o :: o in outs ==> o.amount.Some?
  }

  /** A transaction whose outputs the client can walk: the list exists (the source
      iterates over it) and each output has an address (`isChild` parses it). */
  predicate Readable(t: Tx)
  {
    t.utxoOuts.Some? && Addressed(t.utxoOuts.value)
  }

  /** Every stored transaction of one confirmation state is readable. */
  ghost predicate Listable(db: Store, unconfirmed: bool)
  {
    forall h :: h in db.txs && db.txs[h].block.None? == unconfirmed ==> Readable(db.txs[h])
  }

  /** A consistent store whose transactions are all readable. */
  ghost predicate ReadableStore(db: Store)
  {
    db.Valid() && Listable(db, false) && Listable(db, true)
  }

  // ---------------------------------------------------------------------------------------
  // UTXO discovery

  /** `transactions.filter(t => t.block == null)` when `unconfirmed`, otherwise
      `transactions.filter(t => t.block != null)`; order is kept. */
  function ByConfirmation(txs: seq<Tx>, unconfirmed: bool): (r: seq<Tx>)
    ensures forall t :: t in r <==> t in txs && t.block.None? == unconfirmed
  {
    if txs == [] then []
    else
      var front, t := txs[..|txs| - 1], txs[|txs| - 1];
      assert txs == front + [t];
      var rest := ByConfirmation(front, unconfirmed);
      if t.block.None? == unconfirmed then rest + [t] else rest
  }

  /** `currUtxos.filter(utxo => utxo.txIn == null)`: the outputs not yet spent. */
  function Unspent(outs: seq<Out>): (r: seq<Out>)
    ensures forall o :: o in r <==> o in outs && o.txIn.None?
  {
    if outs == [] then []
    else
      var front, o := outs[..|outs| - 1], outs[|outs| - 1];
      assert outs == front + [o];
      var rest := Unspent(front);
      if o.txIn.None? then rest + [o] else rest
  }

  /** The outputs of one transaction paid to a child of `address`, in order. */
  function Matching(c: Crypto, address: Key, outs: seq<Out>): (r: seq<Out>)
    requires Addressed(outs)
    ensures forall o :: o in r <==> o in outs && IsChild(c, address, o.address.value)
  {
    if outs == [] then []
    else
      var front, o := outs[..|outs| - 1], outs[|outs| - 1];
      assert outs == front + [o];
      var rest := Matching(c, address, front);
      if IsChild(c, address, o.address.value) then rest + [o] else rest
  }

  /** Output `o` of transaction `t` is paid to a child of `address` (and is unspent, when
      only usable outputs count). */
  predicate Pays(c: Crypto, address: Key, t: Tx, o: Out, usable: bool)
  {
    && t.utxoOuts.Some?
    && o in t.utxoOuts.value
    && o.address.Some?
    && (usable ==> o.txIn.None?)
    && IsChild(c, address, o.address.value)
  }

  /** Every listed transaction is readable. */
  predicate AllReadable(txs: seq<Tx>)
  {
    forall i :: 0 <= i < |txs| ==> Readable(txs[i])
  }

  /** The outputs of `t` the inner loop looks at: all of them, or the unspent ones. */
  function Candidates(t: Tx, usable: bool): (r: seq<Out>)
    requires Readable(t)
    ensures Addressed(r)
    ensures forall o :: o in r <==> o in t.utxoOuts.value && (usable ==> o.txIn.None?)
  {
    if usable then Unspent(t.utxoOuts.value) else t.utxoOuts.value
  }

  /** The outputs the two nested loops of `getAddressUtxos` push for the first `n`
      transactions. */
  function Collect(c: Crypto, address: Key, txs: seq<Tx>, n: nat, usable: bool): (r: seq<Out>)
    requires n <= |txs| && AllReadable(txs)
    ensures Addressed(r)
  {
    if n == 0 then []
    else Collect(c, address, txs, n - 1, usable) + Matching(c, address, Candidates(txs[n - 1], usable))
  }

  /** The outputs collected are exactly those one of the first `n` transactions pays to a
      child of `address` (unspent ones only, when `usable`). */
  lemma {:induction false} CollectMembers(c: Crypto, address: Key, txs: seq<Tx>, n: nat, usable: bool)
    requires n <= |txs| && AllReadable(txs)
    ensures forall o :: o in Collect(c, address, txs, n, usable) <==>
              exists i :: 0 <= i < n && Pays(c, address, txs[i], o, usable)
  {
    if n > 0 {
      CollectMembers(c, address, txs, n - 1, usable);
      var here := Matching(c, address, Candidates(txs[n - 1], usable));
      assert forall o :: o in here <==> Pays(c, address, txs[n - 1], o, usable);
    }
  }

  /** `getAddressUtxos(address, unconfirmed, usable)`: over all stored transactions, newest
      first, those in the requested confirmation state, and of them the outputs paid to a
      child of `address`. */
  function AddressUtxos(c: Crypto, db: Store, address: Key, unconfirmed: bool, usable: bool): (r: seq<Out>)
    requires db.Valid() && Listable(db, unconfirmed)
    ensures Addressed(r)
  {
    var txs := ByConfirmation(db.Transactions(false, 0), unconfirmed);
    assert AllReadable(txs) by {
      forall i | 0 <= i < |txs|
        ensures Readable(txs[i])
      {
        assert txs[i] in txs;
      }
    }
    Collect(c, address, txs, |txs|, usable)
  }

  /** Collecting over a listing of exactly the stored transactions in one confirmation
      state gives exactly the outputs those transactions pay to a child of `address`. */
  lemma CollectStored(c: Crypto, db: Store, address: Key, unconfirmed: bool, usable: bool, txs: seq<Tx>)
    requires AllReadable(txs)
    requires forall t :: t in txs <==> t in db.txs.Values && t.block.None? == unconfirmed
    ensures forall o :: o in Collect(c, address, txs, |txs|, usable) <==>
              exists h :: h in db.txs && db.txs[h].block.None? == unconfirmed && Pays(c, address, db.txs[h], o, usable)
  {
    CollectMembers(c, address, txs, |txs|, usable);
    forall o | o in Collect(c, address, txs, |txs|, usable)
      ensures exists h :: h in db.txs && db.txs[h].block.None? == unconfirmed && Pays(c, address, db.txs[h], o, usable)
    {
      var i :| 0 <= i < |txs| && Pays(c, address, txs[i], o, usable);
      assert txs[i] in txs;
      var h :| h in db.txs && db.txs[h] == txs[i];
    }
    forall o, h | h in db.txs && db.txs[h].block.None? == unconfirmed && Pays(c, address, db.txs[h], o, usable)
      ensures o in Collect(c, address, txs, |txs|, usable)
    {
      assert db.txs[h] in txs;
      var i :| 0 <= i < |txs| && txs[i] == db.txs[h];
    }
  }

  /** The UTXOs listed for an address are exactly the outputs of stored transactions in
      the requested confirmation state that are paid to a child of the address (and
      unspent, when only usable ones are asked for). */
  lemma AddressUtxosMembers(c: Crypto, db: Store, address: Key, unconfirmed: bool, usable: bool)
    requires db.Valid() && Listable(db, unconfirmed)
    ensures forall o :: o in AddressUtxos(c, db, address, unconfirmed, usable) <==>
              exists h :: h in db.txs && db.txs[h].block.None? == unconfirmed && Pays(c, address, db.txs[h], o, usable)
  {
    db.AllTransactions(false);
    var txs := ByConfirmation(db.Transactions(false, 0), unconfirmed);
    assert AllReadable(txs) by {
      forall i | 0 <= i < |txs|
        ensures Readable(txs[i])
      {
        assert txs[i] in txs;
      }
    }
    CollectStored(c, db, address, unconfirmed, usable, txs);
  }

  /** `getAddressAllUtxos(address, usable)`: confirmed ones first, then unconfirmed. */
  function AddressAllUtxos(c: Crypto, db: Store, address: Key, usable: bool): (r: seq<Out>)
    requires ReadableStore(db)
    ensures Addressed(r)
  {
    AddressUtxos(c, db, address, false, usable) + AddressUtxos(c, db, address, true, usable)
  }

  /** Whatever their confirmation state, every stored output paid to a child of the
      address is listed, and nothing else. */
  lemma AddressAllUtxosMembers(c: Crypto, db: Store, address: Key, usable: bool)
    requires ReadableStore(db)
    ensures forall o :: o in AddressAllUtxos(c, db, address, usable) <==>
              exists h :: h in db.txs && Pays(c, address, db.txs[h], o, usable)
  {
    AddressUtxosMembers(c, db, address, false, usable);
    AddressUtxosMembers(c, db, address, true, usable);
  }

  /** The public key of the receive chain of `account` (`getReceivingAddress`). */
  function ReceiveKey(c: Crypto, mnemonic: string, account: nat): Key
  {
    c.accountKey(mnemonic, account, RECEIVE).publicExtendedKey
  }

  /** The public key of the change chain of `account` (`getChangeAddress`). */
  function ChangeKey(c: Crypto, mnemonic: string, account: nat): Key
  {
    c.accountKey(mnemonic, account, CHANGE).publicExtendedKey
  }

  /** `getAccountUtxos(account, unconfirmed)`: the usable UTXOs of the receive chain, then
      those of the change chain. */
  function AccountUtxos(c: Crypto, db: Store, mnemonic: string, account: nat, unconfirmed: bool): (r: seq<Out>)
    requires db.Valid() && Listable(db, unconfirmed)
    ensures Addressed(r)
  {
    AddressUtxos(c, db, ReceiveKey(c, mnemonic, account), unconfirmed, true)
      + AddressUtxos(c, db, ChangeKey(c, mnemonic, account), unconfirmed, true)
  }

  /** The account owns an unspent output of a transaction in the requested state exactly
      when it is listed: paid to a child of its receive or of its change chain. */
  lemma AccountUtxosMembers(c: Crypto, db: Store, mnemonic: string, account: nat, unconfirmed: bool)
    requires db.Valid() && Listable(db, unconfirmed)
    ensures forall o :: o in AccountUtxos(c, db, mnemonic, account, unconfirmed) <==>
              exists h :: h in db.txs && db.txs[h].block.None? == unconfirmed &&
                (Pays(c, ReceiveKey(c, mnemonic, account), db.txs[h], o, true) || Pays(c, ChangeKey(c, mnemonic, account), db.txs[h], o, true))
  {
    AddressUtxosMembers(c, db, ReceiveKey(c, mnemonic, account), unconfirmed, true);
    AddressUtxosMembers(c, db, ChangeKey(c, mnemonic, account), unconfirmed, true);
  }

  /** The key the next payment to `address` goes to: the child one past every child index
      found among its outputs in the store. */
  function NextAddress(c: Crypto, db: Store, address: Key, usable: bool): Key
    requires ReadableStore(db)
  {
    GetChildKeys(c, address, NextIndex(c, AddressAllUtxos(c, db, address, usable))).publicKey
  }

  /** The next child index is above the index of every stored output paid to a child of
      the address, so the new key is a child the store has not paid yet at that index. */
  lemma NextIndexAboveStored(c: Crypto, db: Store, address: Key, usable: bool)
    requires ReadableStore(db)
    ensures forall h, o :: h in db.txs && Pays(c, address, db.txs[h], o, usable) ==>
              c.keyIndex(o.address.value) < NextIndex(c, AddressAllUtxos(c, db, address, usable))
  {
    var all := AddressAllUtxos(c, db, address, usable);
    var next := NextIndex(c, all);
    assert forall o :: o in all ==> c.keyIndex(o.address.value) < next by {
      NextIndexIsOnePastMax(c, all);
      forall o | o in all
        ensures c.keyIndex(o.address.value) < next
      {
        var i :| 0 <= i < |all| && all[i] == o;
      }
    }
    AddressAllUtxosMembers(c, db, address, usable);
  }

  // ---------------------------------------------------------------------------------------
  // Amounts

  /** The amount of an output, as `u1.amount - u2.amount` and the sums read it. */
  function Amount(o: Out): int
  {
    o.amount.GetOr(0)
  }

  /** The total amount of a list of outputs. */
  function Sum(outs: seq<Out>): int
  {
    if outs == [] then 0 else Sum(outs[..|outs| - 1]) + Amount(outs[|outs| - 1])
  }

  /** Totals add up over concatenation. */
  lemma {:induction false} SumAppend(a: seq<Out>, b: seq<Out>)
    ensures Sum(a + b) == Sum(a) + Sum(b)
  {
    if b == [] {
      assert a + b == a;
    } else {
      assert (a + b)[..|a + b| - 1] == a + b[..|b| - 1];
      SumAppend(a, b[..|b| - 1]);
    }
  }

  /** An account's total (either balance of `getBalance`) is the receive-chain total plus
      the change-chain total. */
  lemma AccountTotal(c: Crypto, db: Store, mnemonic: string, account: nat, unconfirmed: bool)
    requires db.Valid() && Listable(db, unconfirmed)
    ensures Sum(AccountUtxos(c, db, mnemonic, account, unconfirmed)) ==
              Sum(AddressUtxos(c, db, ReceiveKey(c, mnemonic, account), unconfirmed, true))
              + Sum(AddressUtxos(c, db, ChangeKey(c, mnemonic, account), unconfirmed, true))
  {
    SumAppend(AddressUtxos(c, db, ReceiveKey(c, mnemonic, account), unconfirmed, true),
              AddressUtxos(c, db, ChangeKey(c, mnemonic, account), unconfirmed, true));
  }

  datatype Balance = Balance(usable: int, pending: int)

  // ---------------------------------------------------------------------------------------
  // Coin selection

  predicate SortedByAmount(s: seq<Out>)
  {
    forall i, j :: 0 <= i < j < |s| ==> Amount(s[i]) <= Amount(s[j])
  }

  /** Inserts `x` after every element of amount at most its own. */
  function Insert(s: seq<Out>, x: Out): (r: seq<Out>)
    requires SortedByAmount(s)
    ensures |r| == |s| + 1
    ensures r[0] == x || (|s| > 0 && r[0] == s[0])
    ensures SortedByAmount(r)
    ensures multiset(r) == multiset(s) + multiset{x}
  {
    if s == [] then [x]
    else if Amount(x) < Amount(s[0]) then [x] + s
    else
      var rest := Insert(s[1..], x);
      assert s == [s[0]] + s[1..];
      [s[0]] + rest
  }

  /** `usableUtxos.sort((u1, u2) => u1.amount - u2.amount)`: ascending by amount. The
      sort is stable, so outputs of equal amount keep their order. */
  function SortByAmount(s: seq<Out>): (r: seq<Out>)
    ensures SortedByAmount(r)
    ensures multiset(r) == multiset(s)
  {
    if s == [] then []
    else
      assert s == s[..|s| - 1] + [s[|s| - 1]];
      Insert(SortByAmount(s[..|s| - 1]), s[|s| - 1])
  }

  /** The selection loop from position `k` on, every shorter prefix falling short. */
  function CoverFrom(s: seq<Out>, amount: int, k: nat): (r: nat)
    requires k <= |s|
    requires forall j :: 0 <= j < k ==> Sum(s[..j]) < amount
    ensures k <= r <= |s|
    ensures r == |s| || Sum(s[..r]) >= amount
    ensures forall j :: 0 <= j < r ==> Sum(s[..j]) < amount
    decreases |s| - k
  {
    if k == |s| || Sum(s[..k]) >= amount then k else CoverFrom(s, amount, k + 1)
  }

  /** How many UTXOs of `s` the selection loop of `createTransaction` takes: the shortest
      prefix whose total reaches `amount`, or all of `s` when none does. */
  function Selection(s: seq<Out>, amount: int): (r: nat)
    ensures r <= |s|
    ensures r == |s| || Sum(s[..r]) >= amount
    ensures forall j :: 0 <= j < r ==> Sum(s[..j]) < amount
  {
    CoverFrom(s, amount, 0)
  }

  /** The UTXOs a transfer of `payment` spends: the usable UTXOs of the account, smallest
      first, up to the first prefix that covers the payment. */
  function Chosen(c: Crypto, db: Store, mnemonic: string, account: nat, payment: int): (r: seq<Out>)
    requires db.Valid() && Listable(db, false)
    ensures Addressed(r)
    ensures forall o :: o in r ==> o in AccountUtxos(c, db, mnemonic, account, false)
  {
    var utxos := AccountUtxos(c, db, mnemonic, account, false);
    var sorted := SortByAmount(utxos);
    SortKeepsOutputs(utxos);
    sorted[..Selection(sorted, payment)]
  }

  /** The addresses of a list of outputs, in order. */
  function Addresses(s: seq<Out>): (r: seq<Key>)
    requires Addressed(s)
    ensures |r| == |s|
  {
    seq(|s|, i requires 0 <= i < |s| => s[i].address.value)
  }

  /** Sorting keeps the outputs, so it keeps them addressed and priced. */
  lemma SortKeepsOutputs(s: seq<Out>)
    ensures forall o :: o in SortByAmount(s) <==> o in s
  {
    var r := SortByAmount(s);
    forall o
      ensures o in r <==> o in s
    {
      assert o in r <==> o in multiset(r);
      assert o in s <==> o in multiset(s);
    }
  }

  /** The selection loop: takes UTXOs from the front while the running total is below
      `payment`, collecting their addresses. */
  method SelectInputs(sorted: seq<Out>, payment: int) returns (useUtxos: seq<Key>, runningAmount: int)
    requires Addressed(sorted) && Priced(sorted)
    ensures useUtxos == Addresses(sorted[..Selection(sorted, payment)])
    ensures runningAmount == Sum(sorted[..Selection(sorted, payment)])
  {
    useUtxos, runningAmount := [], 0;
    var index := 0;
    while index < |sorted| && runningAmount < payment
      invariant 0 <= index <= |sorted|
      invariant runningAmount == Sum(sorted[..index])
      invariant useUtxos == Addresses(sorted[..index])
      invariant forall j :: 0 <= j < index ==> Sum(sorted[..j]) < payment
      invariant CoverFrom(sorted, payment, index) == Selection(sorted, payment)
    {
      var currUtxo := sorted[index];
      assert sorted[..index + 1][..index] == sorted[..index];
      assert currUtxo in sorted;
      runningAmount := runningAmount + currUtxo.amount.value;
      useUtxos := useUtxos + [currUtxo.address.value];
      index := index + 1;
    }

  }

  /** The outputs of a transfer of `payment` out of a selection worth `total`: the payment
      to `recipient`, then the excess, if any, to `change`. */
  predicate PaysOut(outs: seq<Out>, recipient: Key, payment: int, change: Key, total: int)
  {
    && 1 <= |outs| <= 2
    && outs[0] == Out(Some(recipient), Some(payment), None)
    && (|outs| == 2 <==> total > payment)
    && (|outs| == 2 ==> outs[1] == Out(Some(change), Some(total - payment), None))
  }

  /** The outputs of a transfer hold what was selected when it covers the payment, and
      exactly the payment otherwise. */
  lemma PaysOutTotal(outs: seq<Out>, recipient: Key, payment: int, change: Key, total: int)
    requires PaysOut(outs, recipient, payment, change, total)
    ensures Sum(outs) == Max(total, payment)
    ensures Addressed(outs) && Priced(outs)
  {
    assert [outs[0]][..0] == [];
    assert Sum([outs[0]]) == Amount(outs[0]);
    if |outs| == 2 {
      assert outs[..|outs| - 1] == [outs[0]];
    } else {
      assert outs == [outs[0]];
    }
  }

  /** A transaction the wallet signed: one signature per owned input over the hash of the
      transaction without signatures, and its own hash, signatures included, as id. */
  ghost predicate SignedBy(c: Crypto, mnemonic: string, account: nat, tx: Tx)
    requires CanSign(c, mnemonic, account)
  {
    && tx.utxoIns.Some? && tx.utxoOuts.Some? && tx.signatures.Some?
    && TxHash(c, tx.(signatures := None)).Some?
    && tx.signatures.value == Signatures(c, TxHash(c, tx.(signatures := None)).value, mnemonic, account, tx.utxoIns.value)
    && tx.id.Some? && tx.id == TxHash(c, tx)
    && tx.block.None? && tx.signature.None?
  }

  /** `utils.getTransactionHash` of a transaction whose outputs all have addresses. */
  method HashOf(c: Crypto, tx: Tx) returns (h: Hash)
    requires tx.utxoOuts.Some? && Addressed(tx.utxoOuts.value)
    ensures Some(h) == TxHash(c, tx)
  {
    var r := TransactionHash(c, tx);
    assert forall i :: 0 <= i < |tx.utxoOuts.value| ==> tx.utxoOuts.value[i] in tx.utxoOuts.value;
    h := r.value;
  }

  /** The summing loop of `getBalance`. */
  method SumAmounts(utxos: seq<Out>) returns (total: int)
    requires Priced(utxos)
    ensures total == Sum(utxos)
  {
    total := 0;
    var i := 0;
    while i < |utxos|
      invariant 0 <= i <= |utxos|
      invariant total == Sum(utxos[..i])
    {
      assert utxos[..i + 1][..i] == utxos[..i];
      assert utxos[i] in utxos;
      total := total + utxos[i].amount.value;
      i := i + 1;
    }
    assert utxos[..|utxos|] == utxos;
  }

  // ---------------------------------------------------------------------------------------
  // Coinbase and block templates

  /** The coinbase `createCoinbaseTransaction(address)` builds: no inputs, no signatures,
      one output of `amount` to the next child of `address`, and its own hash as id. */
  ghost predicate IsCoinbase(c: Crypto, db: Store, address: Key, amount: int, tx: Tx)
    requires ReadableStore(db)
  {
    && tx.utxoIns == Some([])
    && tx.signatures == Some([])
    && tx.utxoOuts == Some([Out(Some(NextAddress(c, db, address, true)), Some(amount), None)])
    && tx.block.None? && tx.signature.None?
    && tx.id.Some? && tx.id == TxHash(c, tx)
  }

  /** The coinbase is determined by the store, the address and the amount. */
  lemma CoinbaseUnique(c: Crypto, db: Store, address: Key, amount: int, t1: Tx, t2: Tx)
    requires ReadableStore(db)
    requires IsCoinbase(c, db, address, amount, t1) && IsCoinbase(c, db, address, amount, t2)
    ensures t1 == t2
  {
    TxHashFields(c, t1, t2);
  }

  /** The ids of a list of stored transactions. */
  function Ids(txs: seq<Tx>): (r: seq<Hash>)
    requires forall t :: t in txs ==> t.id.Some?
    ensures |r| == |txs|
  {
    seq(|txs|, i requires 0 <= i < |txs| => txs[i].id.value)
  }

  /** The ids `mine` lists after the coinbase: the first `limit - 1` unconfirmed
      transactions, newest first (all of them when `limit - 1` is 0, a page size of 0
      setting no limit). */
  function PoolIds(db: Store, limit: int): seq<Hash>
    requires db.Valid() && limit >= 1
  {
    Ids(db.Transactions(true, limit - 1))
  }

  /** The header `mine` hands to `findNonce`: the latest block as predecessor (none for the
      genesis block) and the Merkle root over the coinbase id and the listed ids. */
  function Header(c: Crypto, db: Store, coinbaseId: Hash, ids: seq<Hash>): (b: Block)
    requires db.Valid()
    ensures b.previous.None? <==> db.blocks == map[]
    ensures b.previous.Some? ==> b.previous.value in db.blocks
    ensures b.root.Some?
  {
    var prevBlock := db.LatestBlock();
    Block(None, if prevBlock.None? then None else prevBlock.value.id, Some(c.merkleRoot([coinbaseId] + ids)), None)
  }

  /** `{block, coinbase, transactions}` as returned by `mine`. */
  datatype Template = Template(block: Block, coinbase: Tx, transactions: seq<Hash>)

  /** A template mined on `db`: the coinbase pays `amount` to the next receive key, the
      listed ids are the pending pool, and the block is the header completed by a nonce
      whose id meets the difficulty. */
  ghost predicate Mined(c: Crypto, db: Store, difficulty: int, amount: int, limit: int, address: Key, t: Template)
    requires ReadableStore(db) && limit >= 1
  {
    && IsCoinbase(c, db, address, amount, t.coinbase)
    && t.transactions == PoolIds(db, limit)
    && (exists x :: t.block == Candidate(c, Header(c, db, t.coinbase.id.value, t.transactions), x))
    && HasWork(t.block, difficulty)
  }

  /** The transaction `createTransaction(account, address, payment)` returns on `db`: it
      spends the chosen UTXOs, pays `payment` to the next child of `address` with any
      excess going to the next child of the change chain, and is signed by the wallet. */
  ghost predicate IsTransfer(c: Crypto, db: Store, mnemonic: string, account: nat, address: Key, payment: int, tx: Tx)
    requires ReadableStore(db) && CanSign(c, mnemonic, account)
  {
    && tx.utxoIns == Some(Addresses(Chosen(c, db, mnemonic, account, payment)))
    && tx.utxoOuts.Some?
    && PaysOut(tx.utxoOuts.value, NextAddress(c, db, address, false), payment,
               NextAddress(c, db, ChangeKey(c, mnemonic, account), false), Sum(Chosen(c, db, mnemonic, account, payment)))
    && SignedBy(c, mnemonic, account, tx)
  }

  /** Settings of `new DotcoinClient(config)`; `None` stands for a missing entry. */
  datatype ClientConfig = ClientConfig(mnemonic: Option<string>, difficulty: Option<int>, limit: Option<int>, amount: Option<int>)

  class DotcoinClient {
    const crypto: Crypto
    const mnemonic: string
    /** Number of leading '1' characters a block id needs. */
    const difficulty: int
    /** Bound on the transactions of a block, coinbase included. */
    const limit: int
    /** The coinbase amount. */
    const amount: int

    /** `new DotcoinClient(config)`; `generated` is the mnemonic `createMnemonic` draws
        when the configuration has none. */
    constructor(c: Crypto, config: ClientConfig, generated: string)
      ensures crypto == c
      ensures mnemonic == if config.mnemonic.Some? && config.mnemonic.value != "" then config.mnemonic.value else generated
      ensures difficulty == OrDefault(config.difficulty, 1)
      ensures limit == OrDefault(config.limit, 1024)
      ensures amount == OrDefault(config.amount, 100)
    {
      crypto := c;
      mnemonic := if config.mnemonic.Some? && config.mnemonic.value != "" then config.mnemonic.value else generated;
      difficulty := OrDefault(config.difficulty, 1);
      limit := OrDefault(config.limit, 1024);
      amount := OrDefault(config.amount, 100);
    }

    /** `getAddressUtxos(address, unconfirmed, usable)`. */
    method GetAddressUtxos(db: Store, address: Key, unconfirmed: bool, usable: bool) returns (utxos: seq<Out>)
      requires db.Valid() && Listable(db, unconfirmed)
      ensures utxos == AddressUtxos(crypto, db, address, unconfirmed, usable)
    {
      var transactions := db.Transactions(false, 0);
      transactions := ByConfirmation(transactions, unconfirmed);
      utxos := CollectLoop(address, transactions, usable);
    }

    /** The outer loop of `getAddressUtxos`, transaction by transaction. */
    method CollectLoop(address: Key, transactions: seq<Tx>, usable: bool) returns (utxos: seq<Out>)
      requires AllReadable(transactions)
      ensures utxos == Collect(crypto, address, transactions, |transactions|, usable)
    {
      utxos := [];
      var i := 0;
      while i < |transactions|
        invariant 0 <= i <= |transactions|
        invariant utxos == Collect(crypto, address, transactions, i, usable)
      {
        var currUtxos := transactions[i].utxoOuts.value;
        if usable {
          currUtxos := Unspent(currUtxos);
        }
        var matched := MatchingLoop(address, currUtxos);
        utxos := utxos + matched;
        i := i + 1;
      }
    }

    /** The inner loop of `getAddressUtxos`: the outputs paid to a child of `address`. */
    method MatchingLoop(address: Key, currUtxos: seq<Out>) returns (matched: seq<Out>)
      requires Addressed(currUtxos)
      ensures matched == Matching(crypto, address, currUtxos)
    {
      matched := [];
      var j := 0;
      while j < |currUtxos|
        invariant 0 <= j <= |currUtxos|
        invariant Addressed(currUtxos[..j])
        invariant matched == Matching(crypto, address, currUtxos[..j])
      {
        assert currUtxos[..j + 1][..j] == currUtxos[..j];
        assert currUtxos[j] in currUtxos;
        if IsChild(crypto, address, currUtxos[j].address.value) {
          matched := matched + [currUtxos[j]];
        }
        j := j + 1;
      }
      assert currUtxos[..|currUtxos|] == currUtxos;
    }

    /** `getAddressAllUtxos(address, usable)`. */
    method GetAddressAllUtxos(db: Store, address: Key, usable: bool) returns (utxos: seq<Out>)
      requires ReadableStore(db)
      ensures utxos == AddressAllUtxos(crypto, db, address, usable)
    {
      var confirmed := GetAddressUtxos(db, address, false, usable);
      var pending := GetAddressUtxos(db, address, true, usable);
      utxos := confirmed + pending;
    }

    /** `getAccountUtxos(account, unconfirmed)`. */
    method GetAccountUtxos(db: Store, account: nat, unconfirmed: bool) returns (utxos: seq<Out>)
      requires db.Valid() && Listable(db, unconfirmed)
      ensures utxos == AccountUtxos(crypto, db, mnemonic, account, unconfirmed)
    {
      var receivingAddress := ReceiveKey(crypto, mnemonic, account);
      var changeAddress := ChangeKey(crypto, mnemonic, account);
      var receiving := GetAddressUtxos(db, receivingAddress, unconfirmed, true);
      var change := GetAddressUtxos(db, changeAddress, unconfirmed, true);
      utxos := receiving + change;
    }

    /** `getBalance(account)`: the total of the usable UTXOs of confirmed transactions and
        that of unconfirmed ones. `parseInt` of an integer amount is the amount itself. */
    method GetBalance(db: Store, account: nat) returns (balance: Balance)
      requires ReadableStore(db)
      requires Priced(AccountUtxos(crypto, db, mnemonic, account, false))
      requires Priced(AccountUtxos(crypto, db, mnemonic, account, true))
      ensures balance.usable == Sum(AccountUtxos(crypto, db, mnemonic, account, false))
      ensures balance.pending == Sum(AccountUtxos(crypto, db, mnemonic, account, true))
    {
      var usableUtxos := GetAccountUtxos(db, account, false);
      var usableBalance := SumAmounts(usableUtxos);
      var pendingUtxos := GetAccountUtxos(db, account, true);
      var pendingBalance := SumAmounts(pendingUtxos);
      return Balance(usableBalance, pendingBalance);
    }

    /** The outputs `createTransaction` pushes once `total` has been selected. */
    method TransferOutputs(db: Store, account: nat, address: Key, payment: int, total: int) returns (outs: seq<Out>)
      requires ReadableStore(db)
      ensures PaysOut(outs, NextAddress(crypto, db, address, false), payment, NextAddress(crypto, db, ChangeKey(crypto, mnemonic, account), false), total)
    {
      var receivingUtxos := GetAddressAllUtxos(db, address, false);
      var receivingUtxoKey := GetNextAvailableChild(crypto, address, receivingUtxos);
      outs := [Out(Some(receivingUtxoKey.publicKey), Some(payment), None)];
      if total > payment {
        var changeKey := ChangeKey(crypto, mnemonic, account);
        var changeUtxos := GetAddressAllUtxos(db, changeKey, false);
        var changeUtxoKey := GetNextAvailableChild(crypto, changeKey, changeUtxos);
        outs := outs + [Out(Some(changeUtxoKey.publicKey), Some(total - payment), None)];
      }
    }

    /** The signing steps of `createTransaction`: hash without signatures, sign every input
        over that hash, then hash again with the signatures for the id. */
    method Sign(account: nat, ins: seq<Key>, outs: seq<Out>) returns (tx: Tx)
      requires CanSign(crypto, mnemonic, account) && Addressed(outs)
      ensures tx.utxoIns == Some(ins) && tx.utxoOuts == Some(outs)
      ensures SignedBy(crypto, mnemonic, account, tx)
    {
      var unsigned := Tx(None, Some(ins), Some(outs), None, None, None);
      var tHash := HashOf(crypto, unsigned);
      var signatures := SignUtxos(crypto, tHash, mnemonic, account, ins);
      var signed := unsigned.(signatures := Some(signatures));
      var tHashFinal := HashOf(crypto, signed);
      tx := signed.(id := Some(tHashFinal));
      TxHashFields(crypto, signed, tx);
      TxHashFields(crypto, unsigned, tx.(signatures := None));
    }

    /**
     * `createTransaction(account, address, payment)`: spends the smallest usable UTXOs of
     * the account until they cover `payment`, pays `payment` to the next child of
     * `address`, returns any excess to the next child of the change chain, signs the
     * inputs over the hash of the unsigned transaction and takes the hash of the signed
     * one as id. With too little funds every usable UTXO is spent and the payment output
     * still carries the full amount.
     */
    method CreateTransaction(db: Store, account: nat, address: Key, payment: int) returns (tx: Tx)
      requires ReadableStore(db) && CanSign(crypto, mnemonic, account)
      requires Priced(AccountUtxos(crypto, db, mnemonic, account, false))
      ensures IsTransfer(crypto, db, mnemonic, account, address, payment, tx)
    {
      var usableUtxos := GetAccountUtxos(db, account, false);
      var sorted := SortByAmount(usableUtxos);
      SortKeepsOutputs(usableUtxos);
      var useUtxos, runningAmount := SelectInputs(sorted, payment);
      var outs := TransferOutputs(db, account, address, payment, runningAmount);
      tx := Sign(account, useUtxos, outs);
    }

    /** `createCoinbaseTransaction(address)`. */
    method CreateCoinbaseTransaction(db: Store, address: Key) returns (tx: Tx)
      requires ReadableStore(db)
      ensures IsCoinbase(crypto, db, address, amount, tx)
    {
      var receivingUtxos := GetAddressAllUtxos(db, address, true);
      var receivingUtxoKey := GetNextAvailableChild(crypto, address, receivingUtxos);
      var unhashed := Tx(None, Some([]), Some([Out(Some(receivingUtxoKey.publicKey), Some(amount), None)]), Some([]), None, None);
      var tHashFinal := HashOf(crypto, unhashed);
      tx := unhashed.(id := Some(tHashFinal));
      TxHashFields(crypto, unhashed, tx);
    }

    /**
     * `mine(account)` with the nonce search started from `seed`: a template whose coinbase
     * pays the receive chain of `account`. The source searches until it succeeds; `None`
     * says that no nonce of the seed's length gives the header enough work.
     */
    method Mine(db: Store, account: nat, seed: seq<byte>) returns (r: Option<Template>)
      requires ReadableStore(db) && limit >= 1
      ensures r.Some? ==> Mined(crypto, db, difficulty, amount, limit, ReceiveKey(crypto, mnemonic, account), r.value)
      ensures r.None? ==>
                forall cb, x :: IsCoinbase(crypto, db, ReceiveKey(crypto, mnemonic, account), amount, cb) && |x| == |seed| ==>
                  !HasWork(Candidate(crypto, Header(crypto, db, cb.id.value, PoolIds(db, limit)), x), difficulty)
    {
      var prevBlock := db.LatestBlock();
      var previous := if prevBlock.None? then None else prevBlock.value.id;

      var receivingAddress := ReceiveKey(crypto, mnemonic, account);
      var coinbase := CreateCoinbaseTransaction(db, receivingAddress);

      var pool := db.Transactions(true, limit - 1);
      var transactions := [coinbase.id.value] + Ids(pool);
      var root := crypto.merkleRoot(transactions);
      var block := Block(None, previous, Some(root), None);
      transactions := transactions[1..];
      assert block == Header(crypto, db, coinbase.id.value, transactions);

      var found := FindNonce(crypto, block, difficulty, seed);
      if found.None? {
        forall cb | IsCoinbase(crypto, db, receivingAddress, amount, cb)
          ensures cb == coinbase
        {
          CoinbaseUnique(crypto, db, receivingAddress, amount, cb, coinbase);
        }
        return None;
      }
      return Some(Template(found.value, coinbase, transactions));
    }
  }

  function Max(a: int, b: int): int
  {
    if a >= b then a else b
  }
}
