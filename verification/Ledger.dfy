/**
 What blocks do to the coins, operation by operation: the last event on an outpoint
 decides what is there, and every satoshi is accounted for.
 */
module Ledger {
  import opened ByteStrings
  import opened Utxo
  import opened Wire

  /** The coins a transaction's inputs name, in order; nothing for one that is not there. */
  function Prevouts(m: Coins, inputs: seq<OutRef>): (all: seq<Option<Coin>>)
    ensures |all| == |inputs|
  {
    seq(|inputs|, k requires 0 <= k < |inputs| => if inputs[k] in m then Some(m[inputs[k]]) else None)
  }

  /** The blob of prevouts is built once all are known, and writes each amount as unsigned. */
  predicate BlobFits(all: seq<Option<Coin>>) {
    AllFound(all) ==> NoneNegative(Found(all))
  }

  /** Whether the witness and the signature hashes of an input can be written, given its coin. */
  type Encodes = (nat, Coin) -> bool

  predicate AllEncode(all: seq<Option<Coin>>, encodes: Encodes) {
    forall k :: 0 <= k < |all| ==> all[k].Some? ==> encodes(k, all[k].value)
  }

  /** Nothing that is written before the inputs are checked raises. */
  predicate Ready(all: seq<Option<Coin>>, encodes: Encodes) {
    BlobFits(all) && AllEncode(all, encodes)
  }

  /** Preparing the inputs of a transaction, taking a coin out, putting one in. */
  datatype Op =
    | Fetch(inputs: seq<OutRef>, encodes: Encodes)
    | Remove(at: OutRef)
    | Put(at: OutRef, coin: Coin, overwrite: bool)
  {
    predicate Touches(o: OutRef) {
      !Fetch? && at == o
    }
  }

  /** Nothing stands for an exception: something that cannot be written, or a duplicate. */
  function Apply1(m: Coins, op: Op): Option<Coins> {
    match op
    case Fetch(inputs, encodes) => if Ready(Prevouts(m, inputs), encodes) then Some(m) else None
    case Remove(at) => Some(m - {at})
    case Put(at, coin, overwrite) => if !overwrite && at in m then None else Some(m[at := coin])
  }

  function Apply(m: Coins, ops: seq<Op>): Option<Coins>
    decreases |ops|
  {
    if ops == [] then Some(m)
    else
      var next :- Apply1(m, ops[0]);
      Apply(next, ops[1..])
  }

  /** The coins when the operations are done or the first of them raises. */
  function Upto(m: Coins, ops: seq<Op>): Coins
    decreases |ops|
  {
    if ops == [] || Apply1(m, ops[0]).None? then m else Upto(Apply1(m, ops[0]).value, ops[1..])
  }

  lemma {:induction false} UptoIsApply(m: Coins, ops: seq<Op>)
    ensures Apply(m, ops).Some? ==> Apply(m, ops).value == Upto(m, ops)
    decreases |ops|
  {
    if ops != [] && Apply1(m, ops[0]).Some? {
      UptoIsApply(Apply1(m, ops[0]).value, ops[1..]);
    }
  }

  lemma {:induction false} UptoAppend(m: Coins, a: seq<Op>, b: seq<Op>)
    ensures Upto(m, a + b) == if Apply(m, a).Some? then Upto(Apply(m, a).value, b) else Upto(m, a)
    decreases |a|
  {
    if a == [] {
      assert a + b == b;
    } else {
      assert (a + b)[1..] == a[1..] + b;
      if Apply1(m, a[0]).Some? {
        UptoAppend(Apply1(m, a[0]).value, a[1..], b);
      }
    }
  }

  lemma {:induction false} ApplyAppend(m: Coins, a: seq<Op>, b: seq<Op>)
    ensures Apply(m, a + b) == if Apply(m, a).Some? then Apply(Apply(m, a).value, b) else None
    decreases |a|
  {
    if a == [] {
      assert a + b == b;
    } else {
      assert (a + b)[1..] == a[1..] + b;
      var next := Apply1(m, a[0]);
      if next.Some? {
        ApplyAppend(next.value, a[1..], b);
      }
    }
  }

  // ---------------------------------------------------------------------------
  // Blocks
  // ---------------------------------------------------------------------------

  datatype Tx = Tx(txid: Bytes, inputs: seq<OutRef>, outputs: seq<Coin>, encodes: Encodes)

  type Block = seq<Tx>

  /** The two heights with duplicate transaction ids (BIP 30). */
  predicate Duplicates(height: int) {
    height == 91842 || height == 91880
  }

  function SpendOps(inputs: seq<OutRef>): seq<Op> {
    if inputs == [] then [] else [Remove(inputs[0])] + SpendOps(inputs[1..])
  }

  /** The outputs of a transaction from index k on. */
  function AddOps(tx: Tx, k: nat, overwrite: bool): seq<Op>
    decreases |tx.outputs| - k
  {
    if k >= |tx.outputs| then []
    else [Put(OutRef(tx.txid, k), tx.outputs[k], overwrite)] + AddOps(tx, k + 1, overwrite)
  }

  /** The first transaction is the coinbase: it spends nothing. */
  function InputOps(tx: Tx, coinbase: bool): seq<Op> {
    if coinbase then [] else [Fetch(tx.inputs, tx.encodes)] + SpendOps(tx.inputs)
  }

  function TxOps(tx: Tx, coinbase: bool, overwrite: bool): seq<Op> {
    InputOps(tx, coinbase) + AddOps(tx, 0, overwrite)
  }

  /** The operations of a block from transaction i on. */
  function BlockOps(block: Block, i: nat, height: int): seq<Op>
    decreases |block| - i
  {
    if i >= |block| then []
    else TxOps(block[i], i == 0, Duplicates(height)) + BlockOps(block, i + 1, height)
  }

  function ApplyBlock(m: Coins, block: Block, height: int): Option<Coins> {
    Apply(m, BlockOps(block, 0, height))
  }

  /** All operations of the blocks from `first` to before n. */
  function SpanOps(chain: seq<Block>, first: nat, n: nat): seq<Op>
    requires n <= |chain|
    decreases n
  {
    if n <= first then [] else SpanOps(chain, first, n - 1) + BlockOps(chain[n - 1], 0, n - 1)
  }

  /** The coins after the first n blocks. */
  function Fold(chain: seq<Block>, n: nat): Option<Coins>
    requires n <= |chain|
  {
    if n == 0 then Some(map[])
    else
      var m :- Fold(chain, n - 1);
      ApplyBlock(m, chain[n - 1], n - 1)
  }

  lemma {:induction false} FoldIsApply(chain: seq<Block>, n: nat)
    requires n <= |chain|
    ensures Fold(chain, n) == Apply(map[], SpanOps(chain, 0, n))
  {
    if n > 0 {
      FoldIsApply(chain, n - 1);
      ApplyAppend(map[], SpanOps(chain, 0, n - 1), BlockOps(chain[n - 1], 0, n - 1));
    }
  }

  // ---------------------------------------------------------------------------
  // History
  // ---------------------------------------------------------------------------

  /** Operation i is the last on this outpoint. */
  predicate IsLast(ops: seq<Op>, i: nat, at: OutRef) {
    && i < |ops| && ops[i].Touches(at)
    && forall j :: i < j < |ops| ==> !ops[j].Touches(at)
  }

  lemma {:induction false} Untouched(m: Coins, ops: seq<Op>, at: OutRef)
    requires Apply(m, ops).Some? && forall j :: 0 <= j < |ops| ==> !ops[j].Touches(at)
    ensures at in Apply(m, ops).value <==> at in m
    ensures at in m ==> Apply(m, ops).value[at] == m[at]
    decreases |ops|
  {
    if ops != [] {
      assert !ops[0].Touches(at);
      Untouched(Apply1(m, ops[0]).value, ops[1..], at);
    }
  }

  lemma {:induction false} LastDecides(m: Coins, ops: seq<Op>, i: nat, at: OutRef)
    requires Apply(m, ops).Some? && IsLast(ops, i, at)
    ensures at in Apply(m, ops).value <==> ops[i].Put?
    ensures ops[i].Put? ==> Apply(m, ops).value[at] == ops[i].coin
    decreases i
  {
    var next := Apply1(m, ops[0]).value;
    if i == 0 {
      assert forall j :: 0 <= j < |ops[1..]| ==> ops[1..][j] == ops[j + 1];
      Untouched(next, ops[1..], at);
    } else {
      assert IsLast(ops[1..], i - 1, at);
      LastDecides(next, ops[1..], i - 1, at);
    }
  }

  lemma {:induction false} LastExists(ops: seq<Op>, at: OutRef, k: nat) returns (i: nat)
    requires k < |ops| && ops[k].Touches(at)
    ensures IsLast(ops, i, at)
    decreases |ops| - k
  {
    if j: nat :| k < j < |ops| && ops[j].Touches(at) {
      i := LastExists(ops, at, j);
    } else {
      i := k;
    }
  }

  /** A coin is there if and only if the last event on its outpoint created it. */
  lemma History(chain: seq<Block>, n: nat, at: OutRef, coin: Coin)
    requires n <= |chain| && Fold(chain, n).Some?
    ensures var m, ops := Fold(chain, n).value, SpanOps(chain, 0, n);
      at in m && m[at] == coin <==> exists i: nat :: IsLast(ops, i, at) && ops[i].Put? && ops[i].coin == coin
  {
    FoldIsApply(chain, n);
    var ops := SpanOps(chain, 0, n);
    if k :| 0 <= k < |ops| && ops[k].Touches(at) {
      var i := LastExists(ops, at, k);
      LastDecides(map[], ops, i, at);
      forall i': nat | IsLast(ops, i', at) ensures i' == i {
      }
    } else {
      Untouched(map[], ops, at);
    }
  }

  // ---------------------------------------------------------------------------
  // The same blocks on different coins
  // ---------------------------------------------------------------------------

  predicate Avoids(ops: seq<Op>, at: OutRef) {
    forall j :: 0 <= j < |ops| ==> !ops[j].Touches(at)
  }

  /** The same coin, or none in either. */
  predicate SameAt(m: Coins, n: Coins, at: OutRef) {
    (at in m <==> at in n) && (at in m ==> m[at] == n[at])
  }

  lemma TouchedAgrees(m: Coins, n: Coins, ops: seq<Op>, at: OutRef)
    requires Apply(m, ops).Some? && Apply(n, ops).Some? && !Avoids(ops, at)
    ensures SameAt(Apply(m, ops).value, Apply(n, ops).value, at)
  {
    var k: nat :| k < |ops| && ops[k].Touches(at);
    var i := LastExists(ops, at, k);
    LastDecides(m, ops, i, at);
    LastDecides(n, ops, i, at);
  }

  /** Operations that complete on both make two tables equal exactly if they agree on what is not touched. */
  lemma ApplyMerges(m: Coins, n: Coins, ops: seq<Op>)
    requires Apply(m, ops).Some? && Apply(n, ops).Some?
    ensures Apply(m, ops) == Apply(n, ops) <==> forall at :: Avoids(ops, at) ==> SameAt(m, n, at)
  {
    var x, y := Apply(m, ops).value, Apply(n, ops).value;
    forall at ensures Avoids(ops, at) ==> (SameAt(x, y, at) <==> SameAt(m, n, at)) {
      if Avoids(ops, at) {
        Untouched(m, ops, at);
        Untouched(n, ops, at);
      }
    }
    forall at ensures !Avoids(ops, at) ==> SameAt(x, y, at) {
      if !Avoids(ops, at) {
        TouchedAgrees(m, n, ops, at);
      }
    }
    SameEverywhere(x, y);
  }

  lemma SameEverywhere(x: Coins, y: Coins)
    ensures x == y <==> forall at :: SameAt(x, y, at)
  {
    if forall at :: SameAt(x, y, at) {
      assert forall at :: at in x <==> at in y by {
        forall at ensures at in x <==> at in y {
          assert SameAt(x, y, at);
        }
      }
      forall at | at in x ensures x[at] == y[at] {
        assert SameAt(x, y, at);
      }
    }
  }

  /** The operations of consecutive blocks, first block first. */
  lemma {:induction false} SpanFront(chain: seq<Block>, first: nat, n: nat)
    requires first < n <= |chain|
    ensures SpanOps(chain, first, n) == BlockOps(chain[first], 0, first) + SpanOps(chain, first + 1, n)
    decreases n
  {
    var last := BlockOps(chain[n - 1], 0, n - 1);
    if first + 1 < n {
      SpanFront(chain, first, n - 1);
      Assoc(BlockOps(chain[first], 0, first), SpanOps(chain, first + 1, n - 1), last);
    } else {
      assert [] + last == last + [];
    }
  }

  lemma {:induction false} FoldGoesOn(chain: seq<Block>, first: nat, n: nat)
    requires first <= n <= |chain|
    ensures Fold(chain, n) ==
      if Fold(chain, first).Some? then Apply(Fold(chain, first).value, SpanOps(chain, first, n)) else None
    decreases n
  {
    if first < n {
      FoldGoesOn(chain, first, n - 1);
      if Fold(chain, first).Some? {
        ApplyAppend(Fold(chain, first).value, SpanOps(chain, first, n - 1), BlockOps(chain[n - 1], 0, n - 1));
      }
    }
  }

  /** A longer chain folds its first blocks to the same coins. */
  lemma {:induction false} FoldOfPrefix(chain: seq<Block>, longer: seq<Block>, n: nat)
    requires chain <= longer && n <= |chain|
    ensures Fold(chain, n) == Fold(longer, n)
  {
    if n > 0 {
      FoldOfPrefix(chain, longer, n - 1);
    }
  }

  // ---------------------------------------------------------------------------
  // Conservation
  // ---------------------------------------------------------------------------

  ghost function Total(m: Coins): int {
    if m == map[] then 0
    else
      var at :| at in m;
      m[at].value + Total(m - {at})
  }

  lemma {:induction false} TotalWithout(m: Coins, at: OutRef)
    requires at in m
    ensures Total(m) == m[at].value + Total(m - {at})
    decreases |m|
  {
    var first :| first in m && Total(m) == m[first].value + Total(m - {first});
    if first != at {
      TotalWithout(m - {first}, at);
      TotalWithout(m - {at}, first);
      assert m - {first} - {at} == m - {at} - {first};
    }
  }

  function Amount(m: Coins, at: OutRef): int {
    if at in m then m[at].value else 0
  }

  lemma TotalRemoved(m: Coins, at: OutRef)
    ensures Total(m - {at}) == Total(m) - Amount(m, at)
  {
    if at in m {
      TotalWithout(m, at);
    } else {
      assert m - {at} == m;
    }
  }

  lemma TotalPut(m: Coins, at: OutRef, coin: Coin)
    ensures Total(m[at := coin]) == Total(m) - Amount(m, at) + coin.value
  {
    TotalRemoved(m, at);
    TotalWithout(m[at := coin], at);
    assert m[at := coin] - {at} == m - {at};
  }

  /** What an operation creates, and what it takes out of the coins. */
  function Created(op: Op): int {
    if op.Put? then op.coin.value else 0
  }

  function CreatedBy(ops: seq<Op>): int {
    if ops == [] then 0 else Created(ops[0]) + CreatedBy(ops[1..])
  }

  /** What is spent: an outpoint that is not there counts nothing. */
  function SpentBy(m: Coins, ops: seq<Op>): int
    requires Apply(m, ops).Some?
    decreases |ops|
  {
    if ops == [] then 0
    else (if ops[0].Remove? then Amount(m, ops[0].at) else 0) + SpentBy(Apply1(m, ops[0]).value, ops[1..])
  }

  /** What a new coin with the same outpoint displaces. */
  function ReplacedBy(m: Coins, ops: seq<Op>): int
    requires Apply(m, ops).Some?
    decreases |ops|
  {
    if ops == [] then 0
    else (if ops[0].Put? then Amount(m, ops[0].at) else 0) + ReplacedBy(Apply1(m, ops[0]).value, ops[1..])
  }

  /** The total changes by what is created less what is spent or replaced. */
  lemma {:induction false} Conservation(m: Coins, ops: seq<Op>)
    requires Apply(m, ops).Some?
    ensures Total(Apply(m, ops).value) == Total(m) + CreatedBy(ops) - SpentBy(m, ops) - ReplacedBy(m, ops)
    decreases |ops|
  {
    if ops != [] {
      match ops[0] {
        case Fetch(_, _) =>
        case Remove(at) => TotalRemoved(m, at);
        case Put(at, coin, _) => TotalPut(m, at, coin);
      }
      Conservation(Apply1(m, ops[0]).value, ops[1..]);
    }
  }

  /** No operation may overwrite. */
  predicate Strict(ops: seq<Op>) {
    forall i :: 0 <= i < |ops| ==> ops[i].Put? ==> !ops[i].overwrite
  }

  /** Only an operation that may overwrite replaces anything. */
  lemma {:induction false} NothingReplaced(m: Coins, ops: seq<Op>)
    requires Apply(m, ops).Some? && Strict(ops)
    ensures ReplacedBy(m, ops) == 0
    decreases |ops|
  {
    if ops != [] {
      assert ops[0].Put? ==> !ops[0].overwrite;
      NothingReplaced(Apply1(m, ops[0]).value, ops[1..]);
    }
  }

  lemma StrictAppend(a: seq<Op>, b: seq<Op>)
    requires Strict(a) && Strict(b)
    ensures Strict(a + b)
  {
  }

  lemma {:induction false} SpendsStrict(inputs: seq<OutRef>)
    ensures Strict(SpendOps(inputs))
  {
    if inputs != [] {
      SpendsStrict(inputs[1..]);
    }
  }

  lemma {:induction false} AddsStrict(tx: Tx, k: nat)
    ensures Strict(AddOps(tx, k, false))
    decreases |tx.outputs| - k
  {
    if k < |tx.outputs| {
      AddsStrict(tx, k + 1);
    }
  }

  lemma TxStrict(tx: Tx, coinbase: bool)
    ensures Strict(TxOps(tx, coinbase, false))
  {
    SpendsStrict(tx.inputs);
    AddsStrict(tx, 0);
    StrictAppend(InputOps(tx, coinbase), AddOps(tx, 0, false));
  }

  lemma {:induction false} BlockStrict(block: Block, i: nat, height: int)
    requires !Duplicates(height)
    ensures Strict(BlockOps(block, i, height))
    decreases |block| - i
  {
    if i < |block| {
      TxStrict(block[i], i == 0);
      BlockStrict(block, i + 1, height);
      StrictAppend(TxOps(block[i], i == 0, false), BlockOps(block, i + 1, height));
    }
  }

  /** The amounts of a list of coins. */
  function Sum(coins: seq<Coin>): int {
    if coins == [] then 0 else coins[0].value + Sum(coins[1..])
  }

  /** All outputs of a block from transaction i on. */
  function Outputs(block: Block, i: nat): int
    decreases |block| - i
  {
    if i >= |block| then 0 else Sum(block[i].outputs) + Outputs(block, i + 1)
  }

  lemma {:induction false} CreatedAppend(a: seq<Op>, b: seq<Op>)
    ensures CreatedBy(a + b) == CreatedBy(a) + CreatedBy(b)
  {
    if a == [] {
      assert a + b == b;
    } else {
      assert (a + b)[1..] == a[1..] + b;
      CreatedAppend(a[1..], b);
    }
  }

  lemma {:induction false} SpendsCreateNothing(inputs: seq<OutRef>)
    ensures CreatedBy(SpendOps(inputs)) == 0
  {
    if inputs != [] {
      SpendsCreateNothing(inputs[1..]);
    }
  }

  lemma {:induction false} AddsCreate(tx: Tx, k: nat, overwrite: bool)
    requires k <= |tx.outputs|
    ensures CreatedBy(AddOps(tx, k, overwrite)) == Sum(tx.outputs[k..])
    decreases |tx.outputs| - k
  {
    if k < |tx.outputs| {
      AddsCreate(tx, k + 1, overwrite);
      assert tx.outputs[k..][1..] == tx.outputs[k + 1..];
    }
  }

  lemma TxCreates(tx: Tx, coinbase: bool, overwrite: bool)
    ensures CreatedBy(TxOps(tx, coinbase, overwrite)) == Sum(tx.outputs)
  {
    SpendsCreateNothing(tx.inputs);
    AddsCreate(tx, 0, overwrite);
    assert tx.outputs[0..] == tx.outputs;
    assert ([Fetch(tx.inputs, tx.encodes)] + SpendOps(tx.inputs))[1..] == SpendOps(tx.inputs);
    CreatedAppend(InputOps(tx, coinbase), AddOps(tx, 0, overwrite));
  }

  lemma CreatedByParts(ops: seq<Op>, here: seq<Op>, rest: seq<Op>, x: int, y: int)
    requires ops == here + rest && CreatedBy(here) == x && CreatedBy(rest) == y
    ensures CreatedBy(ops) == x + y
  {
    CreatedAppend(here, rest);
  }

  lemma {:induction false} BlockCreates(block: Block, i: nat, height: int)
    ensures CreatedBy(BlockOps(block, i, height)) == Outputs(block, i)
    decreases |block| - i
  {
    if i < |block| {
      TxCreates(block[i], i == 0, Duplicates(height));
      BlockCreates(block, i + 1, height);
      CreatedByParts(BlockOps(block, i, height), TxOps(block[i], i == 0, Duplicates(height)),
                     BlockOps(block, i + 1, height), Sum(block[i].outputs), Outputs(block, i + 1));
    }
  }

  // ---------------------------------------------------------------------------
  // What one transaction spends
  // ---------------------------------------------------------------------------

  function Refs(inputs: seq<OutRef>): set<OutRef> {
    set at | at in inputs
  }

  function Only(m: Coins, refs: set<OutRef>): Coins {
    map at | at in m && at in refs :: m[at]
  }

  lemma {:induction false} TotalSplit(m: Coins, refs: set<OutRef>)
    ensures Total(m) == Total(Only(m, refs)) + Total(m - refs)
    decreases |m|
  {
    if m == map[] {
      assert Only(m, refs) == map[] && m - refs == map[];
    } else {
      var at :| at in m;
      var rest := m - {at};
      TotalSplit(rest, refs);
      TotalWithout(m, at);
      if at in refs {
        TotalWithout(Only(m, refs), at);
        assert Only(m, refs) - {at} == Only(rest, refs) && m - refs == rest - refs;
      } else {
        TotalWithout(m - refs, at);
        assert m - refs - {at} == rest - refs && Only(m, refs) == Only(rest, refs);
      }
    }
  }

  /** Listing an outpoint twice, or one that is not there, spends no more. */
  lemma {:induction false} SpendsEachOnce(m: Coins, inputs: seq<OutRef>)
    ensures Apply(m, SpendOps(inputs)) == Some(m - Refs(inputs))
    ensures SpentBy(m, SpendOps(inputs)) == Total(Only(m, Refs(inputs)))
    decreases |inputs|
  {
    if inputs == [] {
      assert m - Refs(inputs) == m && Only(m, Refs(inputs)) == map[];
    } else {
      var at := inputs[0];
      var rest := m - {at};
      SpendsEachOnce(rest, inputs[1..]);
      assert m - Refs(inputs) == rest - Refs(inputs[1..]);
      TotalSplit(m, Refs(inputs));
      TotalSplit(rest, Refs(inputs[1..]));
      TotalRemoved(m, at);
    }
  }

  lemma {:induction false} SpentAppend(m: Coins, a: seq<Op>, b: seq<Op>)
    requires Apply(m, a + b).Some?
    ensures Apply(m, a).Some? && Apply(Apply(m, a).value, b).Some?
    ensures SpentBy(m, a + b) == SpentBy(m, a) + SpentBy(Apply(m, a).value, b)
    decreases |a|
  {
    ApplyAppend(m, a, b);
    if a == [] {
      assert a + b == b;
    } else {
      assert (a + b)[1..] == a[1..] + b;
      SpentAppend(Apply1(m, a[0]).value, a[1..], b);
    }
  }

  lemma {:induction false} AddsSpendNothing(m: Coins, tx: Tx, k: nat, overwrite: bool)
    requires Apply(m, AddOps(tx, k, overwrite)).Some?
    ensures SpentBy(m, AddOps(tx, k, overwrite)) == 0
    decreases |tx.outputs| - k
  {
    if k < |tx.outputs| {
      var ops := AddOps(tx, k, overwrite);
      assert ops[1..] == AddOps(tx, k + 1, overwrite);
      AddsSpendNothing(Apply1(m, ops[0]).value, tx, k + 1, overwrite);
    }
  }

  /** The distinct outpoints a transaction names that are there; the coinbase spends none. */
  ghost function TxSpent(m: Coins, tx: Tx, coinbase: bool): int {
    if coinbase then 0 else Total(Only(m, Refs(tx.inputs)))
  }

  lemma TxSpends(m: Coins, tx: Tx, coinbase: bool, overwrite: bool)
    requires Apply(m, TxOps(tx, coinbase, overwrite)).Some?
    ensures SpentBy(m, TxOps(tx, coinbase, overwrite)) == TxSpent(m, tx, coinbase)
  {
    var ins, outs := InputOps(tx, coinbase), AddOps(tx, 0, overwrite);
    SpentAppend(m, ins, outs);
    AddsSpendNothing(Apply(m, ins).value, tx, 0, overwrite);
    if !coinbase {
      assert ins[1..] == SpendOps(tx.inputs);
      SpendsEachOnce(m, tx.inputs);
    }
  }

  /** Summed over the transactions of a block from i on, each looked at when its turn comes. */
  ghost function BlockSpent(m: Coins, block: Block, i: nat, height: int): int
    decreases |block| - i
  {
    if i >= |block| then 0
    else
      var next := Apply(m, TxOps(block[i], i == 0, Duplicates(height)));
      TxSpent(m, block[i], i == 0) + if next.None? then 0 else BlockSpent(next.value, block, i + 1, height)
  }

  lemma {:induction false} BlockSpends(m: Coins, block: Block, i: nat, height: int)
    requires Apply(m, BlockOps(block, i, height)).Some?
    ensures SpentBy(m, BlockOps(block, i, height)) == BlockSpent(m, block, i, height)
    decreases |block| - i
  {
    if i < |block| {
      var here, rest := TxOps(block[i], i == 0, Duplicates(height)), BlockOps(block, i + 1, height);
      SpentAppend(m, here, rest);
      TxSpends(m, block[i], i == 0, Duplicates(height));
      BlockSpends(Apply(m, here).value, block, i + 1, height);
    }
  }

  /**
   A completed block adds its outputs and takes, for each transaction, the distinct
   outpoints present and, at two heights only, what it replaces.
   */
  lemma BlockConservation(m: Coins, block: Block, height: int)
    requires ApplyBlock(m, block, height).Some?
    ensures var replaced := ReplacedBy(m, BlockOps(block, 0, height));
      && Total(ApplyBlock(m, block, height).value)
         == Total(m) + Outputs(block, 0) - BlockSpent(m, block, 0, height) - replaced
      && (!Duplicates(height) ==> replaced == 0)
  {
    var ops := BlockOps(block, 0, height);
    Conservation(m, ops);
    BlockCreates(block, 0, height);
    BlockSpends(m, block, 0, height);
    if !Duplicates(height) {
      BlockStrict(block, 0, height);
      NothingReplaced(m, ops);
    }
  }

  // ---------------------------------------------------------------------------
  // What one transaction does
  // ---------------------------------------------------------------------------

  /** Adding the outputs from k on: each stands under its number, nothing else changes. */
  lemma {:induction false} AddsEffect(m: Coins, tx: Tx, k: nat, overwrite: bool, at: OutRef)
    requires Apply(m, AddOps(tx, k, overwrite)).Some?
    ensures var after := Apply(m, AddOps(tx, k, overwrite)).value;
      if at.txid == tx.txid && k <= at.index < |tx.outputs| then at in after && after[at] == tx.outputs[at.index]
      else SameAt(after, m, at)
    decreases |tx.outputs| - k
  {
    if k < |tx.outputs| {
      var ops := AddOps(tx, k, overwrite);
      assert ops[1..] == AddOps(tx, k + 1, overwrite);
      AddsEffect(Apply1(m, ops[0]).value, tx, k + 1, overwrite, at);
    }
  }

  /** It completes exactly if overwriting is allowed or none of these outputs is there. */
  lemma {:induction false} AddsComplete(m: Coins, tx: Tx, k: nat, overwrite: bool)
    ensures Apply(m, AddOps(tx, k, overwrite)).Some? <==>
      overwrite || forall v: nat :: k <= v < |tx.outputs| ==> OutRef(tx.txid, v) !in m
    decreases |tx.outputs| - k
  {
    if k < |tx.outputs| {
      var ops := AddOps(tx, k, overwrite);
      assert ops[1..] == AddOps(tx, k + 1, overwrite);
      if overwrite || OutRef(tx.txid, k) !in m {
        AddsComplete(Apply1(m, ops[0]).value, tx, k + 1, overwrite);
      }
    }
  }

  /** Inputs can be written if an amount is not negative, should all be known, and each input encodes. */
  lemma ReadyExactly(m: Coins, tx: Tx)
    ensures Ready(Prevouts(m, tx.inputs), tx.encodes) <==>
      && ((forall k :: 0 <= k < |tx.inputs| ==> tx.inputs[k] in m) ==>
            forall k :: 0 <= k < |tx.inputs| ==> m[tx.inputs[k]].value >= 0)
      && (forall k: nat :: k < |tx.inputs| && tx.inputs[k] in m ==> tx.encodes(k, m[tx.inputs[k]]))
  {
    var all := Prevouts(m, tx.inputs);
    assert AllFound(all) <==> forall k :: 0 <= k < |tx.inputs| ==> tx.inputs[k] in m by {
      forall k | 0 <= k < |tx.inputs| ensures all[k].Some? <==> tx.inputs[k] in m {
      }
    }
    if AllFound(all) {
      assert NoneNegative(Found(all)) <==> forall k :: 0 <= k < |tx.inputs| ==> m[tx.inputs[k]].value >= 0 by {
        forall k | 0 <= k < |tx.inputs| ensures Found(all)[k] == m[tx.inputs[k]] {
        }
      }
    }
    EncodesExactly(m, tx);
  }

  lemma EncodesExactly(m: Coins, tx: Tx)
    ensures AllEncode(Prevouts(m, tx.inputs), tx.encodes) <==>
      forall k: nat :: k < |tx.inputs| && tx.inputs[k] in m ==> tx.encodes(k, m[tx.inputs[k]])
  {
    var all := Prevouts(m, tx.inputs);
    if AllEncode(all, tx.encodes) {
      forall k: nat | k < |tx.inputs| && tx.inputs[k] in m ensures tx.encodes(k, m[tx.inputs[k]]) {
        assert all[k] == Some(m[tx.inputs[k]]);
      }
    }
  }

  /** What is spent of m: the inputs of any transaction but the first. */
  function Unspent(m: Coins, tx: Tx, coinbase: bool): Coins {
    if coinbase then m else m - (set at | at in tx.inputs)
  }

  /**
   A transaction of a block at this height completes exactly if, for any but the first, its
   inputs can be written, and, at any height but two, none of its outputs is there once its
   inputs are gone; then these are gone, its outputs are there, and nothing else has changed.
   */
  lemma TxEffect(m: Coins, tx: Tx, coinbase: bool, height: int, at: OutRef)
    ensures Apply(m, TxOps(tx, coinbase, Duplicates(height))).Some? <==>
      && (coinbase || (
           && ((forall k :: 0 <= k < |tx.inputs| ==> tx.inputs[k] in m) ==>
                 forall k :: 0 <= k < |tx.inputs| ==> m[tx.inputs[k]].value >= 0)
           && (forall k: nat :: k < |tx.inputs| && tx.inputs[k] in m ==> tx.encodes(k, m[tx.inputs[k]]))))
      && (height == 91842 || height == 91880
          || forall v: nat :: v < |tx.outputs| ==> OutRef(tx.txid, v) !in Unspent(m, tx, coinbase))
    ensures Apply(m, TxOps(tx, coinbase, Duplicates(height))).Some? ==>
      var after := Apply(m, TxOps(tx, coinbase, Duplicates(height))).value;
      if at.txid == tx.txid && at.index < |tx.outputs| then at in after && after[at] == tx.outputs[at.index]
      else SameAt(after, Unspent(m, tx, coinbase), at)
  {
    var ins, outs := InputOps(tx, coinbase), AddOps(tx, 0, Duplicates(height));
    ApplyAppend(m, ins, outs);
    SpendsEachOnce(m, tx.inputs);
    if !coinbase {
      assert ins[1..] == SpendOps(tx.inputs);
      ReadyExactly(m, tx);
    }
    AddsComplete(Unspent(m, tx, coinbase), tx, 0, Duplicates(height));
    if Apply(Unspent(m, tx, coinbase), outs).Some? {
      AddsEffect(Unspent(m, tx, coinbase), tx, 0, Duplicates(height), at);
    }
  }

  // ---------------------------------------------------------------------------
  // Spending inside a block
  // ---------------------------------------------------------------------------

  lemma AvoidsAppend(a: seq<Op>, b: seq<Op>, at: OutRef)
    requires Avoids(a, at) && Avoids(b, at)
    ensures Avoids(a + b, at)
  {
  }

  lemma {:induction false} SpendsAvoid(inputs: seq<OutRef>, at: OutRef)
    requires at !in inputs
    ensures Avoids(SpendOps(inputs), at)
  {
    if inputs != [] {
      SpendsAvoid(inputs[1..], at);
    }
  }

  lemma {:induction false} AddsAvoid(tx: Tx, k: nat, overwrite: bool, at: OutRef)
    requires at.txid != tx.txid || at.index < k
    ensures Avoids(AddOps(tx, k, overwrite), at)
    decreases |tx.outputs| - k
  {
    if k < |tx.outputs| {
      AddsAvoid(tx, k + 1, overwrite, at);
    }
  }

  lemma TxAvoids(tx: Tx, coinbase: bool, overwrite: bool, at: OutRef)
    requires at !in tx.inputs && at.txid != tx.txid
    ensures Avoids(TxOps(tx, coinbase, overwrite), at)
  {
    SpendsAvoid(tx.inputs, at);
    AddsAvoid(tx, 0, overwrite, at);
    AvoidsAppend(InputOps(tx, coinbase), AddOps(tx, 0, overwrite), at);
  }

  lemma AvoidsParts(ops: seq<Op>, here: seq<Op>, rest: seq<Op>, at: OutRef)
    requires ops == here + rest && Avoids(here, at) && Avoids(rest, at)
    ensures Avoids(ops, at)
  {
  }

  lemma {:induction false} BlockAvoids(block: Block, i: nat, height: int, at: OutRef)
    requires forall k :: i <= k < |block| ==> at !in block[k].inputs && at.txid != block[k].txid
    ensures Avoids(BlockOps(block, i, height), at)
    decreases |block| - i
  {
    if i < |block| {
      TxAvoids(block[i], i == 0, Duplicates(height), at);
      BlockAvoids(block, i + 1, height, at);
      AvoidsParts(BlockOps(block, i, height), TxOps(block[i], i == 0, Duplicates(height)),
                  BlockOps(block, i + 1, height), at);
    }
  }

  /** The operations before output v of a transaction is added, from output k on. */
  lemma {:induction false} AddsSplit(tx: Tx, k: nat, v: nat, overwrite: bool) returns (front: seq<Op>)
    requires k <= v < |tx.outputs|
    ensures AddOps(tx, k, overwrite)
      == front + ([Put(OutRef(tx.txid, v), tx.outputs[v], overwrite)] + AddOps(tx, v + 1, overwrite))
    decreases v - k
  {
    if k == v {
      front := [];
    } else {
      var first := [Put(OutRef(tx.txid, k), tx.outputs[k], overwrite)];
      front := AddsSplit(tx, k + 1, v, overwrite);
      Assoc(first, front, [Put(OutRef(tx.txid, v), tx.outputs[v], overwrite)] + AddOps(tx, v + 1, overwrite));
      front := first + front;
    }
  }

  lemma SplitFront(whole: seq<Op>, first: seq<Op>, rest: seq<Op>, front: seq<Op>, tail: seq<Op>)
    requires whole == first + rest && rest == front + tail
    ensures whole == (first + front) + tail
  {
  }

  lemma {:induction false} BlockSplit(block: Block, k: nat, i: nat, height: int) returns (front: seq<Op>)
    requires k <= i < |block|
    ensures BlockOps(block, k, height)
      == front + (TxOps(block[i], i == 0, Duplicates(height)) + BlockOps(block, i + 1, height))
    decreases i - k
  {
    if k == i {
      front := [];
    } else {
      var first := TxOps(block[k], k == 0, Duplicates(height));
      var more := BlockSplit(block, k + 1, i, height);
      front := first + more;
      SplitFront(BlockOps(block, k, height), first, BlockOps(block, k + 1, height), more,
                 TxOps(block[i], i == 0, Duplicates(height)) + BlockOps(block, i + 1, height));
    }
  }

  lemma PutSurvives(m: Coins, before: seq<Op>, put: Op, since: seq<Op>)
    requires put.Put? && Apply(m, before + ([put] + since)).Some? && Avoids(since, put.at)
    ensures var now := Apply(m, before + ([put] + since)).value; put.at in now && now[put.at] == put.coin
  {
    var ops := before + ([put] + since);
    assert ops[|before|] == put;
    assert forall j :: |before| < j < |ops| ==> ops[j] == since[j - |before| - 1];
    assert IsLast(ops, |before|, put.at);
    LastDecides(m, ops, |before|, put.at);
  }

  /**
   When transaction j looks up its inputs, output v of an earlier transaction i of the same
   block is there, unless one in between has spent it or has the same id.
   */
  lemma SameBlockSpend(m: Coins, block: Block, height: int, i: nat, v: nat, j: nat)
    requires i < j <= |block| && v < |block[i].outputs| && ApplyBlock(m, block[..j], height).Some?
    requires forall k :: i < k < j ==>
      OutRef(block[i].txid, v) !in block[k].inputs && block[i].txid != block[k].txid
    ensures var now := ApplyBlock(m, block[..j], height).value; var at := OutRef(block[i].txid, v);
      at in now && now[at] == block[i].outputs[v]
  {
    var b, overwrite, tx := block[..j], Duplicates(height), block[i];
    var put := Put(OutRef(tx.txid, v), tx.outputs[v], overwrite);
    var spends := InputOps(tx, i == 0);
    var later := BlockOps(b, i + 1, height);
    var x := BlockSplit(b, 0, i, height);
    var y := AddsSplit(tx, 0, v, overwrite);
    var tail := AddOps(tx, v + 1, overwrite);
    assert BlockOps(b, 0, height) == (x + spends + y) + ([put] + (tail + later)) by {
      Assoc(spends, y, [put] + tail);
      Assoc(spends + y, [put] + tail, later);
      Assoc([put], tail, later);
      Assoc(x, spends + y, [put] + (tail + later));
      Assoc(x, spends, y);
    }
    AddsAvoid(tx, v + 1, overwrite, put.at);
    BlockAvoids(b, i + 1, height, put.at);
    AvoidsAppend(tail, later, put.at);
    PutSurvives(m, x + spends + y, put, tail + later);
  }
}
