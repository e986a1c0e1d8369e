/**
 * The ledger store the server writes to and the client reads from (`DatabaseWrite` and
 * `DatabaseRead`, whose code is not part of this model). It is modelled by the calls the
 * core makes on it: lookups by UTXO address, transaction id and block id; listings in
 * insertion order, newest first; inserting a transaction and registering its outputs as
 * UTXOs; inserting a block; and stamping transactions with the confirming block id.
 */
module Database {
  import opened Types

  datatype Store = Store(
    utxos: map<Key, Utxo>,
    txs: map<Hash, Tx>,
    txOrder: seq<Hash>,
    blocks: map<Hash, Block>,
    blockOrder: seq<Hash>)
  {
    /** Each collection lists every stored key once, in insertion order, and each stored
        document carries the key it is stored under. */
    ghost predicate Valid()
    {
      && (forall i, j :: 0 <= i < j < |txOrder| ==> txOrder[i] != txOrder[j])
      && (forall h :: h in txs <==> h in txOrder)
      && (forall h :: h in txs ==> txs[h].id == Some(h))
      && (forall i, j :: 0 <= i < j < |blockOrder| ==> blockOrder[i] != blockOrder[j])
      && (forall h :: h in blocks <==> h in blockOrder)
      && (forall h :: h in blocks ==> blocks[h].id == Some(h))
    }

    /** `getUtxo(address)`. */
    function GetUtxo(address: Key): (r: Option<Utxo>)
      ensures r.Some? <==> address in utxos
      ensures r.Some? ==> r.value == utxos[address]
    {
      if address in utxos then Some(utxos[address]) else None
    }

    /** `getTransaction(id)`. */
    function GetTransaction(id: Hash): (r: Option<Tx>)
      ensures r.Some? <==> id in txs
      ensures r.Some? ==> r.value == txs[id]
    {
      if id in txs then Some(txs[id]) else None
    }

    /** `getBlock(id)`. */
    function GetBlock(id: Hash): (r: Option<Block>)
      ensures r.Some? <==> id in blocks
      ensures r.Some? ==> r.value == blocks[id]
    {
      if id in blocks then Some(blocks[id]) else None
    }

    /** `getBlocks(0, 1, -1)[0]`: the block inserted last, if any. */
    function LatestBlock(): (r: Option<Block>)
      requires Valid()
      ensures r.None? <==> blocks == map[]
      ensures r.Some? ==> r.value.id.Some? && r.value.id.value in blocks && blocks[r.value.id.value] == r.value
    {
      if blockOrder == [] then None
      else
        assert blockOrder[|blockOrder| - 1] in blocks;
        Some(blocks[blockOrder[|blockOrder| - 1]])
    }

    /** The transactions listed by `order`, newest first, keeping only unconfirmed ones when
        `unconfirmedOnly` is set. */
    function Listing(order: seq<Hash>, unconfirmedOnly: bool): (r: seq<Tx>)
      requires forall i :: 0 <= i < |order| ==> order[i] in txs
      ensures |r| <= |order|
      ensures forall t :: t in r ==> exists i :: 0 <= i < |order| && txs[order[i]] == t
      ensures unconfirmedOnly ==> forall t :: t in r ==> t.block.None?
    {
      if order == [] then []
      else
        var t := txs[order[|order| - 1]];
        var rest := Listing(order[..|order| - 1], unconfirmedOnly);
        if unconfirmedOnly && t.block.Some? then rest else [t] + rest
    }

    /** `getTransactions(0, n, -1, unconfirmedOnly)`: the first page of `n` transactions,
        newest first; a page size of 0 sets no limit. */
    function Transactions(unconfirmedOnly: bool, n: nat): (r: seq<Tx>)
      requires Valid()
      ensures n > 0 ==> |r| <= n
      ensures forall t :: t in r ==> t in txs.Values
      ensures unconfirmedOnly ==> forall t :: t in r ==> t.block.None?
    {
      var all := Listing(txOrder, unconfirmedOnly);
      assert forall t :: t in all ==> t in txs.Values by {
        forall t | t in all
          ensures t in txs.Values
        {
          var i :| 0 <= i < |txOrder| && txs[txOrder[i]] == t;
        }
      }
      assert n < |all| ==> forall t :: t in all[..n] ==> t in all;
      if n == 0 || |all| <= n then all else all[..n]
    }

    /** The listing holds every transaction `order` names that the filter keeps. */
    lemma {:induction false} ListingCovers(order: seq<Hash>, unconfirmedOnly: bool)
      requires forall i :: 0 <= i < |order| ==> order[i] in txs
      ensures forall i :: 0 <= i < |order| && (!unconfirmedOnly || txs[order[i]].block.None?) ==>
                txs[order[i]] in Listing(order, unconfirmedOnly)
    {
      if order != [] {
        var front := order[..|order| - 1];
        ListingCovers(front, unconfirmedOnly);
        assert forall i :: 0 <= i < |front| ==> front[i] == order[i];
      }
    }

    /** A listing without a page limit is exactly the stored transactions, or exactly the
        unconfirmed ones. */
    lemma AllTransactions(unconfirmedOnly: bool)
      requires Valid()
      ensures forall t :: t in Transactions(unconfirmedOnly, 0) <==> t in txs.Values && (!unconfirmedOnly || t.block.None?)
    {
      ListingCovers(txOrder, unconfirmedOnly);
      forall t | t in txs.Values && (!unconfirmedOnly || t.block.None?)
        ensures t in Transactions(unconfirmedOnly, 0)
      {
        var h :| h in txs && txs[h] == t;
        assert h in txOrder;
        var i :| 0 <= i < |txOrder| && txOrder[i] == h;
      }
    }

    /** Output `i` has an address and an amount, and no later output with an amount is paid
        to the same address: its UTXO is the one that stays registered. */
    static predicate LastPayment(outs: seq<Out>, i: int)
      requires 0 <= i < |outs|
    {
      && outs[i].address.Some? && outs[i].amount.Some?
      && forall j :: i < j < |outs| ==> outs[j].address != outs[i].address || outs[j].amount.None?
    }

    /** The UTXOs registered for `outs`: every output with both an address and an amount,
        a later output replacing an earlier one at the same address. */
    static function Register(utxos: map<Key, Utxo>, outs: seq<Out>): (r: map<Key, Utxo>)
      ensures forall a :: a in r <==> a in utxos || exists o :: o in outs && o.address == Some(a) && o.amount.Some?
    {
      if outs == [] then utxos
      else
        var o := outs[|outs| - 1];
        var front := Register(utxos, outs[..|outs| - 1]);
        assert forall p :: p in outs[..|outs| - 1] ==> p in outs;
        assert forall p :: p in outs ==> p in outs[..|outs| - 1] || p == o;
        if o.address.Some? && o.amount.Some? then front[o.address.value := Utxo(o.address.value, o.amount.value, o.txIn)]
        else front
    }

    /** An address no output pays keeps the UTXO it had. */
    static lemma {:induction false} RegisterKeeps(utxos: map<Key, Utxo>, outs: seq<Out>, a: Key)
      requires a in utxos
      requires forall i :: 0 <= i < |outs| ==> outs[i].address != Some(a) || outs[i].amount.None?
      ensures a in Register(utxos, outs) && Register(utxos, outs)[a] == utxos[a]
    {
      if outs != [] {
        RegisterKeeps(utxos, outs[..|outs| - 1], a);
      }
    }

    /** The UTXO registered at an output's address carries that output's amount and `txIn`,
        for the last output paid there. */
    static lemma {:induction false} RegisterStores(utxos: map<Key, Utxo>, outs: seq<Out>, i: int)
      requires 0 <= i < |outs| && LastPayment(outs, i)
      ensures outs[i].address.value in Register(utxos, outs)
      ensures Register(utxos, outs)[outs[i].address.value] == Utxo(outs[i].address.value, outs[i].amount.value, outs[i].txIn)
    {
      var n := |outs| - 1;
      if i < n {
        assert LastPayment(outs[..n], i);
        RegisterStores(utxos, outs[..n], i);
      }
    }

    /** `addTransaction(tx)`: stores `tx` under `key` and registers its outputs. Storing
        under a key already present replaces the document and keeps its place. */
    function AddTransaction(key: Hash, tx: Tx): (r: Store)
      requires Valid()
      ensures r.Valid()
      ensures r.txs == txs[key := tx.(id := Some(key))]
      ensures r.txOrder == if key in txs then txOrder else txOrder + [key]
      ensures r.utxos == Register(utxos, tx.utxoOuts.GetOr([]))
      ensures r.blocks == blocks && r.blockOrder == blockOrder
    {
      var order := if key in txs then txOrder else txOrder + [key];
      Store(Register(utxos, tx.utxoOuts.GetOr([])), txs[key := tx.(id := Some(key))], order, blocks, blockOrder)
    }

    /** `addBlock(block)` for a block that has an id. */
    function AddBlock(block: Block): (r: Store)
      requires Valid() && block.id.Some?
      ensures r.Valid()
      ensures r.blocks == blocks[block.id.value := block]
      ensures r.blockOrder == if block.id.value in blocks then blockOrder else blockOrder + [block.id.value]
      ensures r.utxos == utxos && r.txs == txs && r.txOrder == txOrder
    {
      var key := block.id.value;
      Store(utxos, txs, txOrder, blocks[key := block], if key in blocks then blockOrder else blockOrder + [key])
    }

    /** `confirmTransactions(blockId, ids)`: every stored transaction whose id is listed
        gets `block = blockId`; ids not stored are ignored. */
    function ConfirmTransactions(blockId: Hash, ids: seq<Hash>): (r: Store)
      requires Valid()
      ensures r.Valid()
      ensures r.txs.Keys == txs.Keys
      ensures forall h :: h in txs && h in ids ==> r.txs[h] == txs[h].(block := Some(blockId))
      ensures forall h :: h in txs && h !in ids ==> r.txs[h] == txs[h]
      ensures r.utxos == utxos && r.txOrder == txOrder && r.blocks == blocks && r.blockOrder == blockOrder
    {
      var confirmed := map h | h in txs :: if h in ids then txs[h].(block := Some(blockId)) else txs[h];
      Store(utxos, confirmed, txOrder, blocks, blockOrder)
    }
  }

  /** A fresh, empty store. */
  const Empty: Store := Store(map[], map[], [], map[], [])

  lemma EmptyValid()
    ensures Empty.Valid()
  {
  }
}
