/** The table of unspent outputs: a working copy, and what survives a crash. */
module Utxo {
  import opened ByteStrings
  import opened Wire

  datatype OutRef = OutRef(txid: Bytes, index: nat)

  /** An output not spent yet: its script, and an amount in satoshis that may be negative. */
  type Coin = TxOut

  type Coins = map<OutRef, Coin>

  /** Both tables of the database: the coins and the checkpoint height. */
  datatype Db = Db(coins: Coins, height: int)

  const EMPTY: Db := Db(map[], -1)

  class UTXOSet {
    var working: Db
    var committed: Db

    /** Opens a database; a fresh one has no coins and height -1. */
    constructor (stored: Option<Db>)
      ensures working == committed == if stored.Some? then stored.value else EMPTY
    {
      var db := if stored.Some? then stored.value else EMPTY;
      working, committed := db, db;
    }

    /** Without permission to overwrite, a row that exists raises and nothing changes. */
    method Add(at: OutRef, coin: Coin, allowOverwrite: bool) returns (ok: bool)
      modifies `working
      ensures ok <==> allowOverwrite || at !in old(working).coins
      ensures working == if ok then old(working).(coins := old(working).coins[at := coin]) else old(working)
    {
      ok := allowOverwrite || at !in working.coins;
      if ok {
        working := working.(coins := working.coins[at := coin]);
      }
    }

    /** Nothing stands for the KeyError of an outpoint that is not there. */
    method Spend(at: OutRef) returns (coin: Option<Coin>)
      modifies `working
      ensures coin == old(Get(at))
      ensures working == old(working).(coins := old(working).coins - {at})
    {
      coin := Get(at);
      working := working.(coins := working.coins - {at});
    }

    function Get(at: OutRef): Option<Coin>
      reads `working
    {
      if at in working.coins then Some(working.coins[at]) else None
    }

    function CheckpointHeight(): int
      reads `working
    {
      working.height
    }

    method SetCheckpointHeight(height: int)
      modifies `working
      ensures working == old(working).(height := height)
    {
      working := working.(height := height);
    }

    method Commit()
      modifies `committed
      ensures committed == working
    {
      committed := working;
    }

    /** The process dies and the database is opened again. */
    method Reopen()
      modifies `working
      ensures working == committed
    {
      working := committed;
    }
  }
}
