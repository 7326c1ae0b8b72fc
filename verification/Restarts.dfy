/**
 Runs over block files that are stopped and resumed: what they commit together, and
 exactly when they do what one uninterrupted run does.
 */
module Restarts {
  import opened ByteStrings
  import opened Utxo
  import opened Ledger
  import opened ChainFiles
  import opened ChainVerifier

  /** The outcome of one call of `verify_chain`. */
  ghost function Outcome(s: Tables, files: Files, start: nat, end: Option<nat>, verdict: Verdict): (Tables, Halt)
    requires Proper(files)
  {
    ProperLoads(files, First(s, start), end);
    Verify(s, files, start, end, verdict)
  }

  lemma {:induction false} RunOfPrefix(s: Tables, chain: seq<Block>, longer: seq<Block>, height: nat, stop: nat,
                                       verdict: Verdict)
    requires chain <= longer && stop <= |chain|
    ensures Run(s, chain, height, stop, verdict) == Run(s, longer, height, stop, verdict)
    decreases stop - height
  {
    if height < stop {
      RunOfPrefix(RunBlock(s, chain[height], height), chain, longer, height + 1, stop, verdict);
    }
  }

  /** A call is a run over the chain of all headers, up to where it happens to have loaded it. */
  lemma OutcomeIsRun(s: Tables, files: Files, start: nat, end: Option<nat>, verdict: Verdict)
    requires Proper(files)
    ensures var n := Reach(files, First(s, start), end);
      n <= |AllBlocks(files)|
      && Outcome(s, files, start, end, verdict) == Run(s, AllBlocks(files), First(s, start), n, verdict)
  {
    BlocksArePrefix(files, First(s, start), end);
    RunOfPrefix(s, Blocks(files, First(s, start), end), AllBlocks(files), First(s, start),
                Reach(files, First(s, start), end), verdict);
  }

  /** Also a call on files that held fewer headers. */
  lemma EarlierOutcomeIsRun(s: Tables, part: Files, files: Files, start: nat, end: Option<nat>, verdict: Verdict)
    requires Proper(part) && Proper(files) && part.headers <= files.headers && part.disk == files.disk
    ensures var n := Reach(part, First(s, start), end);
      n <= |AllBlocks(files)|
      && Outcome(s, part, start, end, verdict) == Run(s, AllBlocks(files), First(s, start), n, verdict)
  {
    OutcomeIsRun(s, part, start, end, verdict);
    PartBlocks(part, files);
    RunOfPrefix(s, AllBlocks(part), AllBlocks(files), First(s, start), Reach(part, First(s, start), end), verdict);
  }

  // ---------------------------------------------------------------------------
  // Any number of runs
  // ---------------------------------------------------------------------------

  /** A call, and how many headers the files held at the time. */
  datatype Call = Call(known: nat, start: nat, end: Option<nat>)

  /** What is committed after these calls, each on a database opened afresh. */
  ghost function AfterCalls(db: Db, files: Files, calls: seq<Call>, verdict: Verdict): Db
    requires Proper(files) && forall c :: c in calls ==> c.known <= |files.headers|
    decreases |calls|
  {
    if calls == [] then db
    else
      var c := calls[0];
      EarlierIsProper(files, c.known);
      var next := Outcome(Tables(db, db), Earlier(files, c.known), c.start, c.end, verdict).0.committed;
      AfterCalls(next, files, calls[1..], verdict)
  }

  lemma OutcomeCommitsFold(db: Db, part: Files, files: Files, start: nat, end: Option<nat>, verdict: Verdict)
    requires Proper(part) && Proper(files) && part.headers <= files.headers && part.disk == files.disk
    requires IsFold(db, AllBlocks(files)) && start <= db.height + 1
    ensures var next := Outcome(Tables(db, db), part, start, end, verdict).0.committed;
      IsFold(next, AllBlocks(files)) && next.height >= db.height
  {
    var s := Tables(db, db);
    EarlierOutcomeIsRun(s, part, files, start, end, verdict);
    RunKeepsFold(s, AllBlocks(files), First(s, start), Reach(part, First(s, start), end), verdict);
  }

  lemma RunKeepsFold(s: Tables, chain: seq<Block>, height: nat, stop: nat, verdict: Verdict)
    requires s.working == s.committed && IsFold(s.committed, chain) && stop <= |chain|
    requires height == s.committed.height + 1
    ensures var db := Run(s, chain, height, stop, verdict).0.committed;
      IsFold(db, chain) && db.height >= s.committed.height
  {
    RunCommitsFold(s, chain, height, stop, verdict);
    if height <= stop {
      RunIsApply(s, chain, height, stop, verdict);
    }
  }

  /**
   Runs over files that may have grown in between, stopped in any way and resumed: what is
   committed is always the fold of the one chain over all headers.
   */
  lemma {:induction false} RestartsCommitFold(db: Db, files: Files, calls: seq<Call>, verdict: Verdict)
    requires Proper(files) && IsFold(db, AllBlocks(files))
    requires forall c :: c in calls ==> c.known <= |files.headers| && c.start <= db.height + 1
    ensures IsFold(AfterCalls(db, files, calls, verdict), AllBlocks(files))
    decreases |calls|
  {
    if calls != [] {
      var c := calls[0];
      EarlierIsProper(files, c.known);
      OutcomeCommitsFold(db, Earlier(files, c.known), files, c.start, c.end, verdict);
      var next := Outcome(Tables(db, db), Earlier(files, c.known), c.start, c.end, verdict).0.committed;
      RestartsCommitFold(next, files, calls[1..], verdict);
    }
  }

  // ---------------------------------------------------------------------------
  // One run in two
  // ---------------------------------------------------------------------------

  lemma {:induction false} RunSplits(s: Tables, chain: seq<Block>, height: nat, mid: nat, stop: nat, verdict: Verdict)
    requires mid <= stop <= |chain|
    ensures var (s', halt) := Run(s, chain, height, mid, verdict);
      halt == Done ==> Run(s, chain, height, stop, verdict) == Run(s', chain, Max(height, mid), stop, verdict)
    decreases mid - height
  {
    if height < mid && ApplyBlock(s.working.coins, chain[height], height).Some? {
      RunSplits(RunBlock(s, chain[height], height), chain, height + 1, mid, stop, verdict);
    }
  }

  /** A run that ends early does not notice how much further it might have gone. */
  lemma {:induction false} HaltsBefore(s: Tables, chain: seq<Block>, height: nat, stop: nat, later: nat,
                                       verdict: Verdict)
    requires stop <= later <= |chain| && Run(s, chain, height, stop, verdict).1 != Done
    ensures Run(s, chain, height, later, verdict) == Run(s, chain, height, stop, verdict)
    decreases stop - height
  {
    if height < stop && ApplyBlock(s.working.coins, chain[height], height).Some?
       && BlockErrors(s.working.coins, chain[height], height, 0, verdict) == 0 {
      HaltsBefore(RunBlock(s, chain[height], height), chain, height + 1, stop, later, verdict);
    }
  }

  /** A table that a run over the chain may go on from. */
  predicate Resumable(s: Tables, chain: seq<Block>) {
    s.working == s.committed && IsFold(s.committed, chain)
  }

  /** Runs that stop at different heights agree only if an error keeps both from getting there. */
  lemma StopsApart(s: Tables, chain: seq<Block>, height: nat, stop: nat, later: nat, verdict: Verdict)
    requires Resumable(s, chain) && height == s.committed.height + 1 && height <= stop <= later <= |chain|
    ensures Run(s, chain, height, later, verdict) == Run(s, chain, height, stop, verdict) <==>
      stop == later || Run(s, chain, height, stop, verdict).1 != Done
  {
    if Run(s, chain, height, stop, verdict).1 != Done {
      HaltsBefore(s, chain, height, stop, later, verdict);
    } else {
      RunCommitsFold(s, chain, height, stop, verdict);
      RunCommitsFold(s, chain, height, later, verdict);
    }
  }

  /** A run to `mid` and one from there on is one run. */
  lemma Continues(s: Tables, chain: seq<Block>, height: nat, mid: nat, stop: nat, verdict: Verdict)
    requires Resumable(s, chain) && height == s.committed.height + 1
    requires mid <= stop <= |chain| && height <= stop && Run(s, chain, height, mid, verdict).1 == Done
    ensures var s' := Run(s, chain, height, mid, verdict).0;
      && Resumable(s', chain) && s'.committed.height + 1 == Max(height, mid)
      && Run(s', chain, Max(height, mid), stop, verdict) == Run(s, chain, height, stop, verdict)
  {
    RunCommitsFold(s, chain, height, mid, verdict);
    RunSplits(s, chain, height, mid, stop, verdict);
  }

  /** Two runs in place of one do the same exactly if they stop at its height, or it does not get there. */
  lemma SplitAtHeight(s: Tables, chain: seq<Block>, height: nat, mid: nat, stop: nat, later: nat, verdict: Verdict)
    requires Resumable(s, chain) && height == s.committed.height + 1
    requires mid <= later && stop <= later <= |chain| && (height <= stop || stop == later)
    requires Run(s, chain, height, mid, verdict).1 == Done
    ensures var s' := Run(s, chain, height, mid, verdict).0;
      && s'.working == s'.committed && s'.committed.height + 1 == Max(height, mid)
      && (Run(s', chain, Max(height, mid), later, verdict) == Run(s, chain, height, stop, verdict) <==>
            stop == later || Run(s, chain, height, stop, verdict).1 != Done)
  {
    if height <= stop {
      Continues(s, chain, height, mid, later, verdict);
      StopsApart(s, chain, height, stop, later, verdict);
    }
  }

  /** How far the three runs get: to mid, from there on, and from the start. */
  lemma ReachesInOrder(files: Files, from: nat, mid: nat, end: Option<nat>)
    requires Proper(files) && from <= |AllBlocks(files)| && (end.Some? ==> mid <= end.value)
    ensures var m, n := Reach(files, from, Some(mid)), Reach(files, from, end);
      var n' := Reach(files, Max(from, m), end);
      && m <= n' && n <= n' <= |AllBlocks(files)|
      && (from <= n || n == n') && (end.Some? ==> n == n')
  {
    ReachWithEnd(files, from, mid);
    var from' := Max(from, Reach(files, from, Some(mid)));
    if end.Some? {
      ReachWithEnd(files, from, end.value);
      ReachWithEnd(files, from', end.value);
    } else {
      ReachWithoutEnd(files, from, from');
      ReachWithoutEnd(files, from', from');
    }
  }

  /** A call that takes up at the checkpoint. */
  lemma FromCheckpoint(s: Tables, files: Files, from: nat, resume: nat, end: Option<nat>, verdict: Verdict)
    requires Proper(files) && from == s.working.height + 1 && resume <= from
    ensures First(s, resume) == from && Reach(files, from, end) <= |AllBlocks(files)|
    ensures Outcome(s, files, resume, end, verdict)
      == Run(s, AllBlocks(files), from, Reach(files, from, end), verdict)
  {
    OutcomeIsRun(s, files, resume, end, verdict);
  }

  lemma DoneAt(s: Tables, chain: seq<Block>, height: nat, stop: nat, verdict: Verdict, s': Tables)
    requires Resumable(s, chain) && height == s.committed.height + 1 && stop <= |chain|
    requires Run(s, chain, height, stop, verdict) == (s', Done)
    ensures s'.working.height + 1 == s'.committed.height + 1 == Max(height, stop)
  {
    RunCommitsFold(s, chain, height, stop, verdict);
  }

  /** The first of the two runs, on the chain of all headers. */
  lemma FirstHalf(s: Tables, files: Files, start: nat, mid: nat, verdict: Verdict, s': Tables)
    requires Proper(files) && Resumable(s, AllBlocks(files)) && start <= s.committed.height + 1
    requires Outcome(s, files, start, Some(mid), verdict) == (s', Done)
    ensures var from := s.committed.height + 1;
      var m := Reach(files, from, Some(mid));
      && m <= |AllBlocks(files)| && Run(s, AllBlocks(files), from, m, verdict) == (s', Done)
      && s'.working.height + 1 == s'.committed.height + 1 == Max(from, m)
  {
    var from := s.committed.height + 1;
    FromCheckpoint(s, files, from, start, Some(mid), verdict);
    DoneAt(s, AllBlocks(files), from, Reach(files, from, Some(mid)), verdict, s');
  }

  /**
   A run to `mid` without errors and a resumed one do what one uninterrupted run does, if and
   only if the resumed one loads no more of the chain or an error ends them both.
   */
  lemma SplitRunExactly(s: Tables, files: Files, start: nat, mid: nat, resume: nat, end: Option<nat>, verdict: Verdict)
    requires Proper(files) && Resumable(s, AllBlocks(files)) && start <= s.committed.height + 1
    requires end.Some? ==> mid <= end.value
    requires Outcome(s, files, start, Some(mid), verdict).1 == Done
    ensures var s' := Outcome(s, files, start, Some(mid), verdict).0;
      resume <= s'.committed.height + 1 ==>
        (Outcome(s', files, resume, end, verdict) == Outcome(s, files, start, end, verdict) <==>
           || Reach(files, First(s', resume), end) == Reach(files, First(s, start), end)
           || Outcome(s, files, start, end, verdict).1 != Done)
  {
    var s' := Outcome(s, files, start, Some(mid), verdict).0;
    if resume <= s'.committed.height + 1 {
      var from := s.committed.height + 1;
      var from' := Max(from, Reach(files, from, Some(mid)));
      FirstHalf(s, files, start, mid, verdict, s');
      FromCheckpoint(s, files, from, start, end, verdict);
      FromCheckpoint(s', files, from', resume, end, verdict);
      ReachesInOrder(files, from, mid, end);
      SplitAtHeight(s, AllBlocks(files), from, Reach(files, from, Some(mid)), Reach(files, from, end),
                    Reach(files, from', end), verdict);
    }
  }

  /** With an end both load the same, so a run that is split loses nothing. */
  lemma SplitRun(s: Tables, files: Files, start: nat, mid: nat, resume: nat, end: nat, verdict: Verdict)
    requires Proper(files) && Resumable(s, AllBlocks(files)) && start <= s.committed.height + 1
    requires mid <= end && Outcome(s, files, start, Some(mid), verdict).1 == Done
    ensures var s' := Outcome(s, files, start, Some(mid), verdict).0;
      resume <= s'.committed.height + 1 ==>
        Outcome(s', files, resume, Some(end), verdict) == Outcome(s, files, start, Some(end), verdict)
  {
    var s' := Outcome(s, files, start, Some(mid), verdict).0;
    SplitRunExactly(s, files, start, mid, resume, Some(end), verdict);
    ReachWithEnd(files, First(s, start), end);
    ReachWithEnd(files, First(s', resume), end);
  }

  /** Without one, the resumed run loads the same blocks, and perhaps more. */
  lemma ResumedLoadsMore(s: Tables, s': Tables, files: Files, start: nat, resume: nat)
    requires Proper(files) && First(s, start) <= First(s', resume)
    ensures Loadable(files, First(s, start), None) && Loadable(files, First(s', resume), None)
    ensures Blocks(files, First(s, start), None) <= Blocks(files, First(s', resume), None)
  {
    BlocksArePrefix(files, First(s, start), None);
    BlocksArePrefix(files, First(s', resume), None);
    ReachWithoutEnd(files, First(s, start), First(s', resume));
  }
}
