/**
 Block-by-block verification over the table of unspent outputs: what a run commits,
 exactly when that is the fold of the chain, and that crashes lose nothing.
 */
module ChainVerifier {
  import opened ByteStrings
  import opened Utxo
  import opened Ledger
  import opened ChainFiles
  import ChainIndex
  import Wire

  /** The outcome of the K semantics for input k of transaction t, given all prevouts of the transaction. */
  type Verdict = (Block, int, nat, nat, seq<Option<Coin>>) -> bool

  /** Error messages for the inputs of transaction t from input k on. */
  function InputErrors(all: seq<Option<Coin>>, block: Block, height: int, t: nat, k: nat, verdict: Verdict): nat
    decreases |all| - k
  {
    if k >= |all| then 0
    else
      (if all[k].Some? && verdict(block, height, t, k, all) then 0 else 1)
      + InputErrors(all, block, height, t, k + 1, verdict)
  }

  /** The inputs among the first n whose coin is there. */
  function Present(all: seq<Option<Coin>>, n: nat): (tasks: seq<nat>)
    requires n <= |all|
    ensures |tasks| <= n && forall i :: 0 <= i < |tasks| ==> tasks[i] < n
  {
    if n == 0 then [] else Present(all, n - 1) + if all[n - 1].Some? then [n - 1] else []
  }

  /** How many of these inputs fail their check. */
  function Failing(tasks: seq<nat>, all: seq<Option<Coin>>, block: Block, height: int, t: nat, verdict: Verdict): nat {
    if tasks == [] then 0
    else
      var last := |tasks| - 1;
      Failing(tasks[..last], all, block, height, t, verdict)
      + if verdict(block, height, t, tasks[last], all) then 0 else 1
  }

  lemma FailingOneMore(tasks: seq<nat>, k: nat, all: seq<Option<Coin>>, block: Block, height: int, t: nat,
                       verdict: Verdict)
    ensures Failing(tasks + [k], all, block, height, t, verdict)
      == Failing(tasks, all, block, height, t, verdict) + if verdict(block, height, t, k, all) then 0 else 1
  {
    assert (tasks + [k])[..|tasks|] == tasks;
  }

  /** Counting the inputs without a coin and those that fail is counting the messages. */
  lemma {:induction false} TasksCount(all: seq<Option<Coin>>, block: Block, height: int, t: nat, n: nat,
                                      verdict: Verdict)
    requires n <= |all|
    ensures n - |Present(all, n)| + Failing(Present(all, n), all, block, height, t, verdict)
      + InputErrors(all, block, height, t, n, verdict) == InputErrors(all, block, height, t, 0, verdict)
  {
    if n > 0 {
      TasksCount(all, block, height, t, n - 1, verdict);
      if all[n - 1].Some? {
        FailingOneMore(Present(all, n - 1), n - 1, all, block, height, t, verdict);
      } else {
        assert Present(all, n) == Present(all, n - 1);
      }
    }
  }

  /** Error messages for a block from transaction t on; an exception ends the count. */
  function BlockErrors(m: Coins, block: Block, height: int, t: nat, verdict: Verdict): nat
    decreases |block| - t
  {
    if t >= |block| then 0
    else
      var here := if t == 0 then 0 else InputErrors(Prevouts(m, block[t].inputs), block, height, t, 0, verdict);
      var next := Apply(m, TxOps(block[t], t == 0, Duplicates(height)));
      here + if next.Some? then BlockErrors(next.value, block, height, t + 1, verdict) else 0
  }

  /** How a run over consecutive blocks ends. */
  datatype Halt = Done | Failed(errors: nat) | Raised

  /** Both copies of the table. */
  datatype Tables = Tables(working: Db, committed: Db)

  /** One block: spends, additions, checkpoint and commit; or an exception half-way. */
  function RunBlock(s: Tables, block: Block, height: int): Tables {
    match ApplyBlock(s.working.coins, block, height)
    case Some(m) => Tables(Db(m, height), Db(m, height))
    case None => s.(working := s.working.(coins := Upto(s.working.coins, BlockOps(block, 0, height))))
  }

  /** Blocks from `height` to before `stop`, ending at the first with errors. */
  function Run(s: Tables, chain: seq<Block>, height: nat, stop: nat, verdict: Verdict): (Tables, Halt)
    requires stop <= |chain|
    decreases stop - height
  {
    if height >= stop then (s, Done)
    else
      var next := RunBlock(s, chain[height], height);
      if ApplyBlock(s.working.coins, chain[height], height).None? then (next, Raised)
      else
        var errors := BlockErrors(s.working.coins, chain[height], height, 0, verdict);
        if errors > 0 then (next, Failed(errors)) else Run(next, chain, height + 1, stop, verdict)
  }

  /** Where a run begins: after the checkpoint, if that is later. */
  function First(s: Tables, start: nat): nat {
    Max(start, s.working.height + 1)
  }

  /** `verify_chain`: the chain that is loaded depends on where the run begins. */
  ghost function Verify(s: Tables, files: Files, start: nat, end: Option<nat>, verdict: Verdict): (Tables, Halt)
    requires Loadable(files, First(s, start), end)
  {
    var chain := Blocks(files, First(s, start), end);
    Run(s, chain, First(s, start), |chain|, verdict)
  }

  // ---------------------------------------------------------------------------
  // The methods
  // ---------------------------------------------------------------------------

  class Verifier {
    const utxo: UTXOSet
    const verdict: Verdict

    constructor (utxo: UTXOSet, verdict: Verdict)
      ensures this.utxo == utxo && this.verdict == verdict
    {
      this.utxo, this.verdict := utxo, verdict;
    }

    function State(): Tables
      reads utxo
    {
      Tables(utxo.working, utxo.committed)
    }

    /** The coins of all inputs, looked up before any is checked. */
    method LookUp(inputs: seq<OutRef>) returns (all: seq<Option<Coin>>)
      ensures all == Prevouts(utxo.working.coins, inputs)
    {
      all := [];
      for k := 0 to |inputs|
        invariant all == Prevouts(utxo.working.coins, inputs)[..k]
      {
        var coin := utxo.Get(inputs[k]);
        all := all + [coin];
      }
    }

    /** Looks up every input again, and writes what its check will read; nothing stands for an exception. */
    method BuildTasks(tx: Tx, all: seq<Option<Coin>>) returns (tasks: Option<seq<nat>>)
      requires all == Prevouts(utxo.working.coins, tx.inputs)
      ensures tasks.Some? <==> AllEncode(all, tx.encodes)
      ensures tasks.Some? ==> tasks.value == Present(all, |all|)
    {
      var built: seq<nat> := [];
      for k := 0 to |tx.inputs|
        invariant built == Present(all, k)
        invariant AllEncode(all[..k], tx.encodes)
      {
        var coin := utxo.Get(tx.inputs[k]);
        if coin.Some? {
          if !tx.encodes(k, coin.value) {
            assert all[k] == coin;
            return None;
          }
          built := built + [k];
        }
      }
      assert all[..|all|] == all;
      return Some(built);
    }

    /** Then checks each: one message for every input without a coin or with a failing check. */
    method CheckInputs(block: Block, height: int, t: nat, all: seq<Option<Coin>>) returns (errors: Option<nat>)
      requires t < |block| && all == Prevouts(utxo.working.coins, block[t].inputs)
      ensures errors.Some? <==> AllEncode(all, block[t].encodes)
      ensures errors.Some? ==> errors.value == InputErrors(all, block, height, t, 0, verdict)
    {
      var tasks := BuildTasks(block[t], all);
      if tasks.None? {
        return None;
      }
      TasksCount(all, block, height, t, |all|, verdict);
      var found: nat := |all| - |tasks.value|;
      for k := 0 to |tasks.value|
        invariant found == |all| - |tasks.value| + Failing(tasks.value[..k], all, block, height, t, verdict)
      {
        assert tasks.value[..k + 1][..k] == tasks.value[..k];
        if !verdict(block, height, t, tasks.value[k], all) {
          found := found + 1;
        }
      }
      assert tasks.value[..|tasks.value|] == tasks.value;
      return Some(found);
    }

    /** Spends what is there; what is not was reported before. */
    method SpendInputs(inputs: seq<OutRef>)
      modifies utxo`working
      ensures utxo.working.height == old(utxo.working.height)
      ensures Apply(old(utxo.working.coins), SpendOps(inputs)) == Some(utxo.working.coins)
    {
      var k := 0;
      assert inputs[0..] == inputs;
      while k < |inputs|
        invariant k <= |inputs| && utxo.working.height == old(utxo.working.height)
        invariant Apply(utxo.working.coins, SpendOps(inputs[k..]))
          == Apply(old(utxo.working.coins), SpendOps(inputs))
      {
        assert SpendOps(inputs[k..])[1..] == SpendOps(inputs[k + 1..]) by {
          assert inputs[k..][1..] == inputs[k + 1..];
        }
        var _ := utxo.Spend(inputs[k]);
        k := k + 1;
      }
    }

    /** Adds outputs in order until one raises. */
    method AddOutputs(tx: Tx, overwrite: bool) returns (ok: bool)
      modifies utxo`working
      ensures utxo.working.height == old(utxo.working.height)
      ensures utxo.working.coins == Upto(old(utxo.working.coins), AddOps(tx, 0, overwrite))
      ensures ok <==> Apply(old(utxo.working.coins), AddOps(tx, 0, overwrite)).Some?
      ensures ok ==> Apply(old(utxo.working.coins), AddOps(tx, 0, overwrite)) == Some(utxo.working.coins)
    {
      ghost var before := utxo.working.coins;
      UptoIsApply(before, AddOps(tx, 0, overwrite));
      var k: nat := 0;
      while k < |tx.outputs|
        invariant k <= |tx.outputs| && utxo.working.height == old(utxo.working.height)
        invariant Upto(utxo.working.coins, AddOps(tx, k, overwrite)) == Upto(before, AddOps(tx, 0, overwrite))
        invariant Apply(utxo.working.coins, AddOps(tx, k, overwrite)) == Apply(before, AddOps(tx, 0, overwrite))
      {
        assert AddOps(tx, k, overwrite)[1..] == AddOps(tx, k + 1, overwrite);
        ok := utxo.Add(OutRef(tx.txid, k), tx.outputs[k], overwrite);
        if !ok {
          return;
        }
        k := k + 1;
      }
      ok := true;
    }

    /** Looks up, checks and spends the inputs of a transaction; nothing stands for an exception. */
    method ProcessInputs(block: Block, height: int, t: nat) returns (errors: Option<nat>)
      requires 0 < t < |block|
      modifies utxo`working
      ensures utxo.working.height == old(utxo.working.height)
      ensures var m, ops := old(utxo.working.coins), InputOps(block[t], false);
        && utxo.working.coins == Upto(m, ops)
        && (errors.Some? <==> Apply(m, ops).Some?)
        && (errors.Some? ==>
             && Apply(m, ops) == Some(utxo.working.coins)
             && errors.value == InputErrors(Prevouts(m, block[t].inputs), block, height, t, 0, verdict))
    {
      var inputs := block[t].inputs;
      ghost var m := utxo.working.coins;
      assert InputOps(block[t], false)[1..] == SpendOps(inputs);
      UptoIsApply(m, InputOps(block[t], false));
      var all := LookUp(inputs);
      var blob := Wire.PrevoutsBlob(all);
      if blob.None? {
        return None;
      }
      var found := CheckInputs(block, height, t, all);
      if found.None? {
        return None;
      }
      SpendInputs(inputs);
      return found;
    }

    /** One transaction; nothing stands for an exception. */
    method ProcessTx(block: Block, height: int, t: nat) returns (errors: Option<nat>)
      requires t < |block|
      modifies utxo`working
      ensures utxo.working.height == old(utxo.working.height)
      ensures var m, ops := old(utxo.working.coins), TxOps(block[t], t == 0, Duplicates(height));
        && utxo.working.coins == Upto(m, ops)
        && (errors.Some? <==> Apply(m, ops).Some?)
        && (errors.Some? ==>
             && Apply(m, ops) == Some(utxo.working.coins)
             && errors.value ==
                  if t == 0 then 0
                  else InputErrors(Prevouts(m, block[t].inputs), block, height, t, 0, verdict))
    {
      var tx, found := block[t], 0;
      ghost var m := utxo.working.coins;
      var bip30 := height == 91842 || height == 91880;
      ApplyAppend(m, InputOps(tx, t == 0), AddOps(tx, 0, bip30));
      UptoAppend(m, InputOps(tx, t == 0), AddOps(tx, 0, bip30));
      if t != 0 {
        var inputs := ProcessInputs(block, height, t);
        if inputs.None? {
          return None;
        }
        found := inputs.value;
      }
      var ok := AddOutputs(tx, bip30);
      errors := if ok then Some(found) else None;
    }

    /** One block. With errors or without, its changes are committed; an exception commits nothing. */
    method VerifyBlockInner(block: Block, height: int) returns (errors: Option<nat>)
      modifies utxo
      ensures State() == RunBlock(old(State()), block, height)
      ensures errors == if ApplyBlock(old(utxo.working.coins), block, height).None? then None
                        else Some(BlockErrors(old(utxo.working.coins), block, height, 0, verdict))
    {
      ghost var before := utxo.working;
      ghost var m := before.coins;
      var found: nat := 0;
      var t: nat := 0;
      while t < |block|
        invariant t <= |block| && utxo.committed == old(utxo.committed) && utxo.working.height == before.height
        invariant Apply(utxo.working.coins, BlockOps(block, t, height)) == ApplyBlock(m, block, height)
        invariant Upto(utxo.working.coins, BlockOps(block, t, height)) == Upto(m, BlockOps(block, 0, height))
        invariant found + BlockErrors(utxo.working.coins, block, height, t, verdict)
          == BlockErrors(m, block, height, 0, verdict)
      {
        ghost var ops, rest := TxOps(block[t], t == 0, Duplicates(height)), BlockOps(block, t + 1, height);
        ApplyAppend(utxo.working.coins, ops, rest);
        UptoAppend(utxo.working.coins, ops, rest);
        var here := ProcessTx(block, height, t);
        if here.None? {
          return None;
        }
        found := found + here.value;
        t := t + 1;
      }
      utxo.SetCheckpointHeight(height);
      utxo.Commit();
      return Some(found);
    }

    /** Verifies the blocks yielded, which are those of a chain from a height on. */
    method VerifyVisits(visits: seq<ChainIndex.Visit>, disk: ChainIndex.Place -> Block, end: Option<nat>,
                        ghost chain: seq<Block>, ghost start: nat)
      returns (halt: Halt)
      requires |visits| == if start < |chain| then |chain| - start else 0
      requires forall k :: 0 <= k < |visits| ==>
        && visits[k].height == start + k && (end.Some? ==> visits[k].height <= end.value)
        && disk(visits[k].place) == chain[start + k]
      modifies utxo
      ensures (State(), halt) == Run(old(State()), chain, start, |chain|, verdict)
    {
      ghost var whole := Run(State(), chain, start, |chain|, verdict);
      for k := 0 to |visits|
        invariant Run(State(), chain, start + k, |chain|, verdict) == whole
      {
        var height, block := visits[k].height, disk(visits[k].place);
        if end.Some? && height > end.value {
          break;
        }
        var errors := VerifyBlockInner(block, height);
        if errors.None? {
          return Raised;
        }
        if errors.value > 0 {
          return Failed(errors.value);
        }
      }
      return Done;
    }

    /** Loads the chain from after the checkpoint and verifies it block by block. */
    method VerifyChain(files: Files, start: nat, end: Option<nat>) returns (halt: Halt)
      requires Loadable(files, First(State(), start), end)
      modifies utxo
      ensures (State(), halt) == Verify(old(State()), files, start, end, verdict)
    {
      var checkpoint := utxo.CheckpointHeight();
      var effectiveStart: nat := Max(start, checkpoint + 1);
      var visits, _ := ChainIndex.LoadChain(files.headers, effectiveStart, end, files.interval);
      YieldsBlocks(files, effectiveStart, end, visits);
      halt := VerifyVisits(visits, files.disk, end, Blocks(files, effectiveStart, end), effectiveStart);
    }
  }

  // ---------------------------------------------------------------------------
  // A run commits the fold of the chain
  // ---------------------------------------------------------------------------

  /** A database whose coins are the fold of blocks 0 to its height. */
  predicate IsFold(db: Db, chain: seq<Block>) {
    && -1 <= db.height < |chain|
    && Fold(chain, db.height + 1) == Some(db.coins)
  }

  /** One more block in order. */
  lemma BlockCommitsFold(s: Tables, chain: seq<Block>, height: nat)
    requires IsFold(s.committed, chain) && s.working == s.committed && height == s.committed.height + 1 < |chain|
    requires ApplyBlock(s.working.coins, chain[height], height).Some?
    ensures var next := RunBlock(s, chain[height], height);
      IsFold(next.committed, chain) && next.working == next.committed && next.committed.height == height
  {
  }

  /** Blocks committed in order keep the committed table at the fold, however the run ends. */
  lemma {:induction false} RunCommitsFold(s: Tables, chain: seq<Block>, height: nat, stop: nat, verdict: Verdict)
    requires stop <= |chain| && IsFold(s.committed, chain)
    requires s.working == s.committed && height == s.committed.height + 1
    ensures var (s', halt) := Run(s, chain, height, stop, verdict);
      && IsFold(s'.committed, chain)
      && (halt != Raised ==> s'.working == s'.committed)
      && (halt == Done ==> s'.committed.height == Max(height, stop) - 1)
    decreases stop - height
  {
    if height < stop && ApplyBlock(s.working.coins, chain[height], height).Some? {
      BlockCommitsFold(s, chain, height);
      RunCommitsFold(RunBlock(s, chain[height], height), chain, height + 1, stop, verdict);
    }
  }

  // ---------------------------------------------------------------------------
  // A run that starts beyond the checkpoint
  // ---------------------------------------------------------------------------

  /** Nothing, or what the blocks from `height` to before some later height do to a table. */
  predicate Applied(before: Db, chain: seq<Block>, height: nat, stop: nat, db: Db)
    requires stop <= |chain|
  {
    db == before || (height <= db.height < stop
                     && Apply(before.coins, SpanOps(chain, height, db.height + 1)) == Some(db.coins))
  }

  lemma AppliedOneMore(before: Db, chain: seq<Block>, height: nat, stop: nat, db: Db)
    requires height < stop <= |chain| && ApplyBlock(before.coins, chain[height], height).Some?
    requires Applied(Db(ApplyBlock(before.coins, chain[height], height).value, height), chain, height + 1, stop, db)
    ensures Applied(before, chain, height, stop, db)
  {
    var n := db.height + 1;
    SpanFront(chain, height, n);
    ApplyAppend(before.coins, BlockOps(chain[height], 0, height), SpanOps(chain, height + 1, n));
  }

  /** A run commits what the blocks it gets through do to the table it found. */
  lemma {:induction false} RunIsApply(s: Tables, chain: seq<Block>, height: nat, stop: nat, verdict: Verdict)
    requires height <= stop <= |chain| && s.working == s.committed
    ensures Applied(s.committed, chain, height, stop, Run(s, chain, height, stop, verdict).0.committed)
    decreases stop - height
  {
    if height < stop && ApplyBlock(s.working.coins, chain[height], height).Some? {
      RunIsApply(RunBlock(s, chain[height], height), chain, height + 1, stop, verdict);
      AppliedOneMore(s.committed, chain, height, stop, Run(s, chain, height, stop, verdict).0.committed);
    }
  }

  /** The skipped blocks changed nothing that the blocks from `start` to before n leave alone. */
  ghost predicate SkipsNothing(m: Coins, chain: seq<Block>, start: nat, n: nat)
    requires start <= n <= |chain|
  {
    && Fold(chain, start).Some? && Fold(chain, n).Some?
    && forall at :: Avoids(SpanOps(chain, start, n), at) ==> SameAt(m, Fold(chain, start).value, at)
  }

  /** A run beyond the checkpoint, however it ends, leaves the fold exactly if it commits nothing or skips nothing. */
  lemma SkippingExactly(s: Tables, chain: seq<Block>, start: nat, stop: nat, verdict: Verdict)
    requires IsFold(s.committed, chain) && s.working == s.committed
    requires s.committed.height + 1 <= start <= stop <= |chain|
    ensures var db := Run(s, chain, start, stop, verdict).0.committed;
      && (db == s.committed || start <= db.height < stop)
      && (IsFold(db, chain) <==> db == s.committed || SkipsNothing(s.committed.coins, chain, start, db.height + 1))
  {
    RunIsApply(s, chain, start, stop, verdict);
    var db := Run(s, chain, start, stop, verdict).0.committed;
    if db != s.committed {
      FoldGoesOn(chain, start, db.height + 1);
      if Fold(chain, db.height + 1).Some? {
        ApplyMerges(s.committed.coins, Fold(chain, start).value, SpanOps(chain, start, db.height + 1));
      }
    }
  }

  /** An instance: the coin of the first block is missing for good. */
  lemma SkippingBreaksFold(a: Bytes, b: Bytes, coin: Coin, encodes: Encodes, verdict: Verdict)
    ensures var chain := [[Tx(a, [], [coin], encodes)], [Tx(b, [], [], encodes)]];
      var db := Run(Tables(EMPTY, EMPTY), chain, 1, 2, verdict).0.committed;
      db.height == 1 && !IsFold(db, chain)
  {
    var first, second := [Tx(a, [], [coin], encodes)], [Tx(b, [], [], encodes)];
    var chain := [first, second];
    var s := Tables(EMPTY, EMPTY);
    FirstCoin(a, coin, encodes);
    assert BlockOps(second, 1, 1) == [] && BlockOps(second, 0, 1) == [];
    var m := Fold(chain, 1);
    assert m == ApplyBlock(Fold(chain, 0).value, first, 0);
    assert Fold(chain, 2) == ApplyBlock(m.value, second, 1) == m;
    var next := RunBlock(s, second, 1);
    assert next.committed == Db(map[], 1);
    assert Run(next, chain, 2, 2, verdict) == (next, Done);
    assert OutRef(a, 0) in m.value && OutRef(a, 0) !in next.committed.coins;
  }

  lemma FirstCoin(a: Bytes, coin: Coin, encodes: Encodes)
    ensures ApplyBlock(map[], [Tx(a, [], [coin], encodes)], 0) == Some(map[][OutRef(a, 0) := coin])
  {
    var block, put := [Tx(a, [], [coin], encodes)], Put(OutRef(a, 0), coin, false);
    assert AddOps(block[0], 1, false) == [] && AddOps(block[0], 0, false) == [put] + [] == [put];
    assert BlockOps(block, 1, 0) == [];
    assert TxOps(block[0], true, false) == [] + [put] == [put];
    assert BlockOps(block, 0, 0) == [put] + [] == [put];
    assert [put][1..] == [];
    var none: Coins := map[];
    assert Apply(none, [put]) == Apply(none[OutRef(a, 0) := coin], []);
  }

  // ---------------------------------------------------------------------------
  // Crashes at any operation
  // ---------------------------------------------------------------------------

  datatype Phase =
    | Idle
    | Working(height: nat, todo: seq<Op>)
    | Sealed(height: nat)
    | Stuck

  datatype Machine = Machine(working: Db, committed: Db, phase: Phase)

  /** A run takes up the next block, does one operation, or the process dies and is restarted. */
  datatype Event = Begin | Step | Crash

  const FRESH: Machine := Machine(EMPTY, EMPTY, Idle)

  function Next(chain: seq<Block>, m: Machine, e: Event): Machine {
    match e
    case Crash => Machine(m.committed, m.committed, Idle)
    case Begin =>
      var h := m.working.height + 1;
      if m.phase.Idle? && 0 <= h < |chain| then m.(phase := Working(h, BlockOps(chain[h], 0, h))) else m
    case Step =>
      match m.phase
      case Idle => m
      case Stuck => m
      case Sealed(_) => Machine(m.working, m.working, Idle)
      case Working(h, todo) =>
        if todo == [] then Machine(m.working.(height := h), m.committed, Sealed(h))
        else
          match Apply1(m.working.coins, todo[0])
          case None => m.(phase := Stuck)
          case Some(coins) => Machine(m.working.(coins := coins), m.committed, Working(h, todo[1..]))
  }

  /** The table object does what the machine says; a crash is a reopened database. */
  method Perform(utxo: UTXOSet, chain: seq<Block>, phase: Phase, e: Event) returns (next: Phase)
    modifies utxo
    ensures Machine(utxo.working, utxo.committed, next)
      == Next(chain, Machine(old(utxo.working), old(utxo.committed), phase), e)
  {
    next := phase;
    match e {
      case Crash =>
        utxo.Reopen();
        next := Idle;
      case Begin =>
        var h := utxo.CheckpointHeight() + 1;
        if phase.Idle? && 0 <= h < |chain| {
          next := Working(h, BlockOps(chain[h], 0, h));
        }
      case Step =>
        match phase {
          case Idle =>
          case Stuck =>
          case Sealed(_) =>
            utxo.Commit();
            next := Idle;
          case Working(h, todo) =>
            if todo == [] {
              utxo.SetCheckpointHeight(h);
              next := Sealed(h);
            } else {
              var ok := PerformOp(utxo, todo[0]);
              next := if ok then Working(h, todo[1..]) else Stuck;
            }
        }
    }
  }

  method PerformOp(utxo: UTXOSet, op: Op) returns (ok: bool)
    modifies utxo`working
    ensures ok <==> Apply1(old(utxo.working).coins, op).Some?
    ensures utxo.working ==
      if ok then old(utxo.working).(coins := Apply1(old(utxo.working).coins, op).value) else old(utxo.working)
  {
    match op {
      case Fetch(inputs, encodes) =>
        ok := Ready(Prevouts(utxo.working.coins, inputs), encodes);
      case Remove(at) =>
        var _ := utxo.Spend(at);
        ok := true;
      case Put(at, coin, overwrite) =>
        ok := utxo.Add(at, coin, overwrite);
    }
  }

  function After(chain: seq<Block>, m: Machine, events: seq<Event>): Machine
    decreases |events|
  {
    if events == [] then m else After(chain, Next(chain, m, events[0]), events[1..])
  }

  /** What every operation keeps. */
  predicate Sound(chain: seq<Block>, m: Machine) {
    && IsFold(m.committed, chain)
    && match m.phase
       case Idle => m.working == m.committed
       case Stuck => true
       case Working(h, todo) =>
         && h == m.committed.height + 1 < |chain| && m.working.height == m.committed.height
         && Apply(m.working.coins, todo) == ApplyBlock(m.committed.coins, chain[h], h)
       case Sealed(h) =>
         && h == m.committed.height + 1 < |chain| && m.working.height == h
         && ApplyBlock(m.committed.coins, chain[h], h) == Some(m.working.coins)
  }

  lemma StepKeeps(chain: seq<Block>, m: Machine, e: Event)
    requires Sound(chain, m)
    ensures Sound(chain, Next(chain, m, e))
  {
  }

  /** In every interleaving of operations and crashes, the committed coins are the fold up to the checkpoint. */
  lemma {:induction false} CommittedIsFold(chain: seq<Block>, m: Machine, events: seq<Event>)
    requires Sound(chain, m)
    ensures Sound(chain, After(chain, m, events))
    decreases |events|
  {
    if events != [] {
      StepKeeps(chain, m, events[0]);
      CommittedIsFold(chain, Next(chain, m, events[0]), events[1..]);
    }
  }

  lemma FreshIsSound(chain: seq<Block>, events: seq<Event>)
    ensures IsFold(After(chain, FRESH, events).committed, chain)
  {
    CommittedIsFold(chain, FRESH, events);
  }

  /** Steps without a crash do what `RunBlock` does. */
  lemma {:induction false} StepsFinish(chain: seq<Block>, m: Machine, h: nat, todo: seq<Op>)
    returns (events: seq<Event>)
    requires m.phase == Working(h, todo) && Apply(m.working.coins, todo).Some?
    ensures Crash !in events
    ensures var db := Db(Apply(m.working.coins, todo).value, h); After(chain, m, events) == Machine(db, db, Idle)
    decreases |todo|
  {
    if todo == [] {
      events := [Step, Step];
      var sealed := Next(chain, m, Step);
      assert [Step, Step][1..] == [Step] && [Step][1..] == [];
      assert After(chain, m, events) == After(chain, sealed, [Step]) == After(chain, Next(chain, sealed, Step), []);
    } else {
      var next := Next(chain, m, Step);
      var rest := StepsFinish(chain, next, h, todo[1..]);
      events := [Step] + rest;
      assert events[1..] == rest;
    }
  }

  lemma BlockCompletes(chain: seq<Block>, m: Machine) returns (events: seq<Event>)
    requires Sound(chain, m) && m.phase.Idle? && m.committed.height + 1 < |chain|
    requires var h := m.committed.height + 1; ApplyBlock(m.committed.coins, chain[h], h).Some?
    ensures Crash !in events
    ensures var h := m.committed.height + 1;
      After(chain, m, events).committed == RunBlock(Tables(m.working, m.committed), chain[h], h).committed
  {
    var h := m.committed.height + 1;
    var begun := Next(chain, m, Begin);
    var rest := StepsFinish(chain, begun, h, BlockOps(chain[h], 0, h));
    events := [Begin] + rest;
    assert events[1..] == rest;
  }
}
