/**
 What a run reports: the errors of a block are the input checks that do not hold, one for
 one, and a run ends where the first of them is.
 */
module Checks {
  import opened ByteStrings
  import opened Utxo
  import opened Ledger
  import opened ChainFiles
  import opened ChainVerifier
  import opened Restarts

  // ---------------------------------------------------------------------------
  // The transactions before one
  // ---------------------------------------------------------------------------

  lemma {:induction false} OpsSplit(block: Block, i: nat, t: nat, height: int)
    requires i <= t <= |block|
    ensures BlockOps(block, i, height) == BlockOps(block[..t], i, height) + BlockOps(block, t, height)
    decreases t - i
  {
    if i < t {
      OpsSplit(block, i + 1, t, height);
      Assoc(TxOps(block[i], i == 0, Duplicates(height)), BlockOps(block[..t], i + 1, height),
            BlockOps(block, t, height));
    }
  }

  /** What is there when transaction t of a block that completes is looked at. */
  lemma CoinsBefore(m: Coins, block: Block, height: int, t: nat)
    requires t <= |block| && ApplyBlock(m, block, height).Some?
    ensures ApplyBlock(m, block[..t], height).Some?
    ensures Apply(ApplyBlock(m, block[..t], height).value, BlockOps(block, t, height)) == ApplyBlock(m, block, height)
  {
    OpsSplit(block, 0, t, height);
    ApplyAppend(m, BlockOps(block[..t], 0, height), BlockOps(block, t, height));
  }

  lemma CoinsAfter(m: Coins, block: Block, height: int, t: nat)
    requires t < |block| && ApplyBlock(m, block[..t], height).Some?
    ensures ApplyBlock(m, block[..t + 1], height)
      == Apply(ApplyBlock(m, block[..t], height).value, TxOps(block[t], t == 0, Duplicates(height)))
  {
    var part := block[..t + 1];
    assert part[..t] == block[..t];
    OpsSplit(part, 0, t, height);
    assert BlockOps(part, t + 1, height) == [];
    assert TxOps(block[t], t == 0, Duplicates(height)) + [] == TxOps(block[t], t == 0, Duplicates(height));
    ApplyAppend(m, BlockOps(block[..t], 0, height), TxOps(block[t], t == 0, Duplicates(height)));
  }

  // ---------------------------------------------------------------------------
  // The checks of a block
  // ---------------------------------------------------------------------------

  /**
   Input k of transaction t: its coin is there once the transactions before are done, and the
   check passes, given all coins of the transaction.
   */
  predicate Holds(m: Coins, block: Block, height: int, verdict: Verdict, t: nat, k: nat)
    requires t < |block| && k < |block[t].inputs|
  {
    var before := ApplyBlock(m, block[..t], height);
    && before.Some?
    && var all := Prevouts(before.value, block[t].inputs);
       all[k].Some? && verdict(block, height, t, k, all)
  }

  /** The checks that do not hold; the coinbase has none. */
  function FailedChecks(m: Coins, block: Block, height: int, verdict: Verdict): set<(nat, nat)> {
    set t: nat, k: nat | 1 <= t < |block| && k < |block[t].inputs| && !Holds(m, block, height, verdict, t, k) :: (t, k)
  }

  function FailedFrom(m: Coins, block: Block, height: int, verdict: Verdict, first: nat): set<(nat, nat)> {
    set c | c in FailedChecks(m, block, height, verdict) && c.0 >= first
  }

  /** Those of one transaction, from input k on. */
  function FailedInputs(all: seq<Option<Coin>>, block: Block, height: int, t: nat, k: nat, verdict: Verdict)
    : set<(nat, nat)>
  {
    set i: nat | k <= i < |all| && !(all[i].Some? && verdict(block, height, t, i, all)) :: (t, i)
  }

  lemma {:induction false} InputErrorsCount(all: seq<Option<Coin>>, block: Block, height: int, t: nat, k: nat,
                                            verdict: Verdict)
    ensures InputErrors(all, block, height, t, k, verdict) == |FailedInputs(all, block, height, t, k, verdict)|
    decreases |all| - k
  {
    if k < |all| {
      InputErrorsCount(all, block, height, t, k + 1, verdict);
      var rest := FailedInputs(all, block, height, t, k + 1, verdict);
      assert FailedInputs(all, block, height, t, k, verdict) ==
        if all[k].Some? && verdict(block, height, t, k, all) then rest else rest + {(t, k)};
    } else {
      assert FailedInputs(all, block, height, t, k, verdict) == {};
    }
  }

  lemma FailedSplits(m: Coins, block: Block, height: int, verdict: Verdict, t: nat)
    requires 1 <= t < |block| && ApplyBlock(m, block[..t], height).Some?
    ensures var all := Prevouts(ApplyBlock(m, block[..t], height).value, block[t].inputs);
      var here, rest := FailedInputs(all, block, height, t, 0, verdict),
                        FailedFrom(m, block, height, verdict, t + 1);
      FailedFrom(m, block, height, verdict, t) == here + rest && here !! rest
  {
    var all := Prevouts(ApplyBlock(m, block[..t], height).value, block[t].inputs);
    var here, rest := FailedInputs(all, block, height, t, 0, verdict), FailedFrom(m, block, height, verdict, t + 1);
    forall c | c in FailedFrom(m, block, height, verdict, t) ensures c in here + rest {
      if c.0 == t {
        assert !Holds(m, block, height, verdict, t, c.1);
      }
    }
    forall c | c in here ensures c in FailedFrom(m, block, height, verdict, t) {
      assert !Holds(m, block, height, verdict, t, c.1);
    }
  }

  lemma {:induction false} ErrorsFrom(m: Coins, block: Block, height: int, verdict: Verdict, t: nat)
    requires t <= |block| && ApplyBlock(m, block, height).Some? && ApplyBlock(m, block[..t], height).Some?
    ensures BlockErrors(ApplyBlock(m, block[..t], height).value, block, height, t, verdict)
      == |FailedFrom(m, block, height, verdict, t)|
    decreases |block| - t
  {
    if t < |block| {
      CoinsBefore(m, block, height, t + 1);
      CoinsAfter(m, block, height, t);
      ErrorsFrom(m, block, height, verdict, t + 1);
      if t == 0 {
        assert FailedFrom(m, block, height, verdict, 0) == FailedFrom(m, block, height, verdict, 1);
      } else {
        FailedSplits(m, block, height, verdict, t);
        InputErrorsCount(Prevouts(ApplyBlock(m, block[..t], height).value, block[t].inputs), block, height, t, 0,
                         verdict);
      }
    } else {
      assert FailedFrom(m, block, height, verdict, t) == {};
    }
  }

  /** A block that completes has one error for every check that does not hold. */
  lemma ErrorsAreFailedChecks(m: Coins, block: Block, height: int, verdict: Verdict)
    requires ApplyBlock(m, block, height).Some?
    ensures BlockErrors(m, block, height, 0, verdict) == |FailedChecks(m, block, height, verdict)|
    ensures BlockErrors(m, block, height, 0, verdict) == 0 <==>
      forall t: nat, k: nat :: 1 <= t < |block| && k < |block[t].inputs| ==> Holds(m, block, height, verdict, t, k)
  {
    CoinsBefore(m, block, height, 0);
    assert BlockOps(block[..0], 0, height) == [];
    ErrorsFrom(m, block, height, verdict, 0);
    assert FailedFrom(m, block, height, verdict, 0) == FailedChecks(m, block, height, verdict);
    if FailedChecks(m, block, height, verdict) == {} {
      forall t: nat, k: nat | 1 <= t < |block| && k < |block[t].inputs|
        ensures Holds(m, block, height, verdict, t, k)
      {
        assert (t, k) !in FailedChecks(m, block, height, verdict);
      }
    }
  }

  // ---------------------------------------------------------------------------
  // How a run ends
  // ---------------------------------------------------------------------------

  /** The block at height h completes on the blocks from `first` on, and all its checks hold. */
  predicate Passes(m: Coins, chain: seq<Block>, first: nat, h: nat, verdict: Verdict)
    requires h < |chain|
  {
    var before := Apply(m, SpanOps(chain, first, h));
    && before.Some?
    && ApplyBlock(before.value, chain[h], h).Some?
    && FailedChecks(before.value, chain[h], h, verdict) == {}
  }

  /** It completes there with so many checks that do not hold. */
  predicate FailsWith(m: Coins, chain: seq<Block>, first: nat, h: nat, n: nat, verdict: Verdict)
    requires h < |chain|
  {
    var before := Apply(m, SpanOps(chain, first, h));
    && before.Some?
    && ApplyBlock(before.value, chain[h], h).Some?
    && n == |FailedChecks(before.value, chain[h], h, verdict)| > 0
  }

  predicate PassesUpTo(m: Coins, chain: seq<Block>, first: nat, h: nat, verdict: Verdict)
    requires h <= |chain|
  {
    forall g :: first <= g < h ==> Passes(m, chain, first, g, verdict)
  }

  /** Both copies after the blocks from `first` to before h. */
  function TablesAt(s: Tables, chain: seq<Block>, first: nat, h: nat): Tables
    requires h <= |chain| && Apply(s.working.coins, SpanOps(chain, first, h)).Some?
  {
    if h <= first then s
    else
      var db := Db(Apply(s.working.coins, SpanOps(chain, first, h)).value, h - 1);
      Tables(db, db)
  }

  lemma GoesThroughOne(s: Tables, chain: seq<Block>, h: nat, stop: nat, after: Coins, verdict: Verdict)
    requires h < stop <= |chain| && ApplyBlock(s.working.coins, chain[h], h) == Some(after)
    requires FailedChecks(s.working.coins, chain[h], h, verdict) == {}
    ensures Run(s, chain, h, stop, verdict) == Run(Tables(Db(after, h), Db(after, h)), chain, h + 1, stop, verdict)
  {
    ErrorsAreFailedChecks(s.working.coins, chain[h], h, verdict);
  }

  /** A run goes through the blocks that pass. */
  lemma {:induction false} RunGoesThrough(s: Tables, chain: seq<Block>, first: nat, h: nat, stop: nat, verdict: Verdict)
    requires first <= h <= stop <= |chain| && PassesUpTo(s.working.coins, chain, first, h, verdict)
    ensures Apply(s.working.coins, SpanOps(chain, first, h)).Some?
    ensures Run(s, chain, first, stop, verdict) == Run(TablesAt(s, chain, first, h), chain, h, stop, verdict)
    decreases h
  {
    if first < h {
      RunGoesThrough(s, chain, first, h - 1, stop, verdict);
      assert Passes(s.working.coins, chain, first, h - 1, verdict);
      var before := Apply(s.working.coins, SpanOps(chain, first, h - 1)).value;
      ApplyAppend(s.working.coins, SpanOps(chain, first, h - 1), BlockOps(chain[h - 1], 0, h - 1));
      GoesThroughOne(TablesAt(s, chain, first, h - 1), chain, h - 1, stop,
                     ApplyBlock(before, chain[h - 1], h - 1).value, verdict);
    }
  }

  /** And ends at the first that does not, with the number of its errors if it completes. */
  lemma RunStops(s: Tables, chain: seq<Block>, first: nat, h: nat, stop: nat, verdict: Verdict)
    requires first <= h < stop <= |chain|
    requires PassesUpTo(s.working.coins, chain, first, h, verdict) && !Passes(s.working.coins, chain, first, h, verdict)
    ensures Apply(s.working.coins, SpanOps(chain, first, h)).Some?
    ensures var before := Apply(s.working.coins, SpanOps(chain, first, h)).value;
      var after := ApplyBlock(before, chain[h], h);
      && (after.None? ==> Run(s, chain, first, stop, verdict).1 == Raised)
      && (after.Some? ==>
           var db, n := Db(after.value, h), |FailedChecks(before, chain[h], h, verdict)|;
           Run(s, chain, first, stop, verdict) == (Tables(db, db), Failed(n)))
  {
    RunGoesThrough(s, chain, first, h, stop, verdict);
    var before := Apply(s.working.coins, SpanOps(chain, first, h)).value;
    if ApplyBlock(before, chain[h], h).Some? {
      ErrorsAreFailedChecks(before, chain[h], h, verdict);
    }
  }

  /** Either all blocks pass or there is a first that does not. */
  lemma {:induction false} FirstToFail(m: Coins, chain: seq<Block>, first: nat, stop: nat, verdict: Verdict)
    returns (h: nat)
    requires first <= stop <= |chain|
    ensures first <= h <= stop && PassesUpTo(m, chain, first, h, verdict)
    ensures h < stop ==> !Passes(m, chain, first, h, verdict)
    decreases stop - first
  {
    h := first;
    while h < stop && Passes(m, chain, first, h, verdict)
      invariant first <= h <= stop && PassesUpTo(m, chain, first, h, verdict)
    {
      h := h + 1;
    }
  }

  /** A run ends without errors exactly if every block completes and all its checks hold. */
  lemma DoneExactly(s: Tables, chain: seq<Block>, first: nat, stop: nat, verdict: Verdict)
    requires stop <= |chain|
    ensures Run(s, chain, first, stop, verdict).1 == Done <==> PassesUpTo(s.working.coins, chain, first, stop, verdict)
  {
    if first <= stop {
      var h := FirstToFail(s.working.coins, chain, first, stop, verdict);
      if h < stop {
        RunStops(s, chain, first, h, stop, verdict);
      } else {
        RunGoesThrough(s, chain, first, stop, stop, verdict);
      }
    }
  }

  /** It reports n errors exactly if the first block that does not pass completes with n failed checks. */
  lemma FailedExactly(s: Tables, chain: seq<Block>, first: nat, stop: nat, n: nat, verdict: Verdict)
    requires first <= stop <= |chain|
    ensures Run(s, chain, first, stop, verdict).1 == Failed(n) <==>
      exists h :: first <= h < stop && PassesUpTo(s.working.coins, chain, first, h, verdict)
                  && FailsWith(s.working.coins, chain, first, h, n, verdict)
  {
    if h :| first <= h < stop && PassesUpTo(s.working.coins, chain, first, h, verdict)
            && FailsWith(s.working.coins, chain, first, h, n, verdict) {
      RunStops(s, chain, first, h, stop, verdict);
    }
    var h := FirstToFail(s.working.coins, chain, first, stop, verdict);
    if h < stop {
      RunStops(s, chain, first, h, stop, verdict);
    } else {
      RunGoesThrough(s, chain, first, stop, stop, verdict);
    }
  }

  lemma PassesBetween(m: Coins, chain: seq<Block>, checkpoint: int, start: nat, end: nat, first: nat, n: nat,
                      verdict: Verdict)
    requires first == Max(start, checkpoint + 1) && n == if end < |chain| then end + 1 else |chain|
    ensures PassesUpTo(m, chain, first, n, verdict) <==>
      forall h :: checkpoint < h < |chain| && start <= h <= end ==> Passes(m, chain, first, h, verdict)
  {
  }

  /**
   A call with an end ends without errors exactly if every block after the checkpoint, not
   before the start and not after the end, completes and has no failed check.
   */
  lemma CallDoneExactly(s: Tables, files: Files, start: nat, end: nat, verdict: Verdict)
    requires Proper(files)
    ensures var first, chain := First(s, start), AllBlocks(files);
      Outcome(s, files, start, Some(end), verdict).1 == Done <==>
        forall h :: s.working.height < h < |chain| && start <= h <= end ==>
          Passes(s.working.coins, chain, first, h, verdict)
  {
    var first, chain := First(s, start), AllBlocks(files);
    OutcomeIsRun(s, files, start, Some(end), verdict);
    ReachWithEnd(files, first, end);
    DoneExactly(s, chain, first, Reach(files, first, Some(end)), verdict);
    PassesBetween(s.working.coins, chain, s.working.height, start, end, first, Reach(files, first, Some(end)), verdict);
  }
}
