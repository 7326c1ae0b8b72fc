/**
 Block files on which a run that is stopped and resumed gets further than one uninterrupted
 run: headers in order, more of them than lie between two looks at the chain.
 */
module RestartInstance {
  import opened ByteStrings
  import opened Wire
  import opened Utxo
  import opened Ledger
  import opened ChainIndex
  import opened ChainFiles
  import opened ChainVerifier
  import opened Restarts

  /** More headers than this are never needed here. */
  const MANY: nat := 0x1_0000_0000

  function Numbered(i: nat): Hash {
    [1] + LeBytes(i, 4) + Repeat(0, 27)
  }

  lemma NumbersDiffer(i: nat, j: nat)
    requires i < MANY && j < MANY && Numbered(i) == Numbered(j)
    ensures i == j
  {
    Pow256Small();
    LeValueOfBytes(i, 4);
    LeValueOfBytes(j, 4);
    assert Numbered(i)[1..5] == LeBytes(i, 4) && Numbered(j)[1..5] == LeBytes(j, 4);
  }

  lemma NumberIsNotZero(i: nat)
    ensures Numbered(i) != ZERO && Numbered(i) != []
  {
    assert Numbered(i)[0] == 1 && ZERO[0] == 0;
  }

  /** The header of block i names the block before. */
  function Numbers(i: nat): Header {
    Header(Numbered(i), if i == 0 then ZERO else Numbered(i - 1), Place(0, i, 0))
  }

  /** The headers of n blocks, in order. */
  function Line(n: nat): seq<Header> {
    seq(n, i requires 0 <= i < n => Numbers(i))
  }

  function Hashes(n: nat): seq<Bytes> {
    seq(n, i requires 0 <= i < n => Numbered(i))
  }

  lemma LineIsConsistent(n: nat)
    requires n <= MANY
    ensures Consistent(Line(n))
  {
    forall i, j | 0 <= i < n && 0 <= j < n && Line(n)[i].hash == Line(n)[j].hash
      ensures Line(n)[i].prev == Line(n)[j].prev
    {
      NumbersDiffer(i, j);
    }
    forall i | 0 <= i < n ensures Line(n)[i].hash != ZERO {
      NumberIsNotZero(i);
    }
  }

  lemma FirstToName(i: nat, j: nat)
    requires j < i < MANY
    ensures Numbers(j).prev != Numbers(i).prev
  {
    NumberIsNotZero(i - 1);
    if j > 0 && Numbered(j - 1) == Numbered(i - 1) {
      NumbersDiffer(j - 1, i - 1);
    }
  }

  /** Every header is found under the one before. */
  lemma LineLinks(n: nat, i: nat)
    requires i < n <= MANY
    ensures var ix := Scan(Line(n)); Numbers(i).prev in ix.child && ix.child[Numbers(i).prev] == Numbered(i)
  {
    forall j | 0 <= j < i ensures Line(n)[j].prev != Line(n)[i].prev {
      FirstToName(i, j);
    }
    FirstSeen(Line(n), i);
  }

  lemma LinePlaces(n: nat, i: nat)
    requires i < n <= MANY
    ensures Numbered(i) in Scan(Line(n)).places
  {
    forall j | i < j < n ensures Line(n)[j].hash != Line(n)[i].hash {
      if Numbered(j) == Numbered(i) {
        NumbersDiffer(j, i);
      }
    }
    LastPlace(Line(n), i);
  }

  /** The last one is under no other's name. */
  lemma LastIsNoParent(n: nat, j: nat)
    requires j < n <= MANY
    ensures Numbers(j).prev != Numbered(n - 1)
  {
    NumberIsNotZero(n - 1);
    if j > 0 && Numbered(j - 1) == Numbered(n - 1) {
      NumbersDiffer(j - 1, n - 1);
    }
  }

  lemma LineEnds(n: nat)
    requires 0 < n <= MANY
    ensures Numbered(n - 1) !in Scan(Line(n)).child && [] !in Scan(Line(n)).places
  {
    EmptyIsNoBlock(Line(n));
    ScanBacked(Line(n));
    forall j | 0 <= j < n ensures Line(n)[j].prev != Numbered(n - 1) {
      LastIsNoParent(n, j);
    }
  }

  lemma HashesSnoc(k: nat)
    ensures Hashes(k + 1) == Hashes(k) + [Numbered(k)]
  {
  }

  lemma LastHash(k: nat)
    ensures Last(Hashes(k)) == Numbers(k).prev
  {
  }

  lemma ChainStep(ix: Index, k: nat)
    requires Chain(ix, k) == Hashes(k)
    requires ChainIndex.Next(ix, Numbers(k).prev) == Numbered(k) && Numbered(k) in ix.places
    ensures Chain(ix, k + 1) == Hashes(k + 1)
  {
    HashesSnoc(k);
    LastHash(k);
  }

  lemma {:induction false} LineChain(n: nat, k: nat)
    requires k <= n <= MANY
    ensures Chain(Scan(Line(n)), k) == Hashes(k)
  {
    if k > 0 {
      LineChain(n, k - 1);
      LineLinks(n, k - 1);
      LinePlaces(n, k - 1);
      ChainStep(Scan(Line(n)), k - 1);
    }
  }

  lemma LineWhole(n: nat)
    requires 0 < n <= MANY
    ensures Ends(Scan(Line(n))) && Whole(Scan(Line(n))) == Hashes(n)
  {
    LineChain(n, n);
    LineEnds(n);
    EndOfWalk(Scan(Line(n)), Hashes(n), []);
  }

  lemma LinePart(n: nat, m: nat)
    requires 0 < m <= n <= MANY
    ensures Ends(Scan(Line(n)[..m])) && |Whole(Scan(Line(n)[..m]))| == m
  {
    assert Line(n)[..m] == Line(m);
    LineWhole(m);
  }

  lemma NoLookBefore(i: nat, interval: nat)
    requires 0 < i <= interval && i % interval == 0
    ensures i == interval
  {
  }

  /** The first look stops the scan if it is past the target, and none does if the chain never is. */
  lemma LineStops(n: nat, target: nat, interval: nat)
    requires 0 < interval <= n <= MANY
    ensures var stop := ScanStop(Line(n), target, interval, 0);
      (target < interval ==> stop == interval) && (n <= target ==> stop == n)
  {
    var stop := ScanStop(Line(n), target, interval, 0);
    StopIsEnough(Line(n), target, interval, 0);
    LinePart(n, interval);
    if target < interval {
      StopsBy(Line(n), target, interval, 0, interval);
      if stop < n {
        NoLookBefore(stop, interval);
      }
    } else if n <= target && stop < n {
      LinePart(n, stop);
    }
  }

  /** Blocks without transactions. */
  function Empties(n: nat, interval: nat): Files {
    Files(Line(n), _ => [], interval)
  }

  lemma EmptiesAreProper(n: nat, interval: nat)
    requires n <= MANY && interval > 0
    ensures Proper(Empties(n, interval))
  {
    LineIsConsistent(n);
  }

  lemma EmptiesReach(n: nat, interval: nat, start: nat)
    requires 0 < interval <= n <= MANY
    ensures Proper(Empties(n, interval))
    ensures start + 10000 < interval ==> Reach(Empties(n, interval), start, None) == interval
    ensures n <= start + 10000 ==> Reach(Empties(n, interval), start, None) == n
  {
    EmptiesAreProper(n, interval);
    ReachIsWhole(Empties(n, interval), start);
    LineStops(n, start + 10000, interval);
    LinePart(n, interval);
    LinePart(n, n);
  }

  lemma EmptiesAll(n: nat, interval: nat)
    requires 0 < interval && 0 < n <= MANY
    ensures Proper(Empties(n, interval))
    ensures |AllBlocks(Empties(n, interval))| == n && AllEmpty(AllBlocks(Empties(n, interval)))
  {
    EmptiesAreProper(n, interval);
    LineWhole(n);
  }

  predicate AllEmpty(chain: seq<Block>) {
    forall i :: 0 <= i < |chain| ==> chain[i] == []
  }

  /** Blocks without transactions change nothing but the height. */
  lemma {:induction false} EmptyRun(db: Db, chain: seq<Block>, height: nat, stop: nat, verdict: Verdict)
    requires stop <= |chain| && AllEmpty(chain)
    requires height == db.height + 1
    ensures var end := Db(db.coins, Max(height, stop) - 1);
      Run(Tables(db, db), chain, height, stop, verdict) == (Tables(end, end), Done)
    decreases stop - height
  {
    if height < stop {
      assert chain[height] == [];
      EmptyRun(Db(db.coins, height), chain, height + 1, stop, verdict);
    }
  }

  /** No coins, and so many blocks behind. */
  function At(height: int): Tables {
    Tables(Db(EMPTY.coins, height), Db(EMPTY.coins, height))
  }

  /** From one checkpoint, a call verifies all up to another, and no more. */
  ghost predicate Gets(files: Files, height: int, end: Option<nat>, last: int, verdict: Verdict) {
    Proper(files) && Outcome(At(height), files, 0, end, verdict) == (At(last), Done)
  }

  lemma EmptyRunAt(chain: seq<Block>, height: int, from: nat, to: nat, last: int, verdict: Verdict)
    requires AllEmpty(chain) && from == height + 1 < to <= |chain| && to == last + 1
    ensures Run(At(height), chain, from, to, verdict) == (At(last), Done)
  {
    EmptyRun(Db(EMPTY.coins, height), chain, from, to, verdict);
  }

  lemma EmptyOutcome(files: Files, height: int, from: nat, end: Option<nat>, to: nat, last: int, verdict: Verdict)
    requires Proper(files) && AllEmpty(AllBlocks(files)) && from == height + 1 < to == last + 1
    requires Reach(files, from, end) == to
    ensures Gets(files, height, end, last, verdict)
  {
    FromCheckpoint(At(height), files, from, 0, end, verdict);
    EmptyRunAt(AllBlocks(files), height, from, to, last, verdict);
  }

  lemma EmptiesReachEnd(n: nat, interval: nat, mid: nat, to: nat)
    requires 0 < interval && mid < n <= MANY && to == mid + 1
    ensures Proper(Empties(n, interval)) && Reach(Empties(n, interval), 0, Some(mid)) == to
  {
    EmptiesAll(n, interval);
    ReachWithEnd(Empties(n, interval), 0, mid);
  }

  lemma UninterruptedRun(n: nat, interval: nat, verdict: Verdict)
    requires 10000 < interval <= n <= MANY
    ensures Gets(Empties(n, interval), -1, None, interval - 1, verdict)
  {
    EmptiesReach(n, interval, 0);
    EmptiesAll(n, interval);
    EmptyOutcome(Empties(n, interval), -1, 0, None, interval, interval - 1, verdict);
  }

  lemma FirstRun(n: nat, interval: nat, mid: nat, verdict: Verdict)
    requires 0 < interval && mid < n <= MANY
    ensures Gets(Empties(n, interval), -1, Some(mid), mid, verdict)
  {
    var to := mid + 1;
    EmptiesReachEnd(n, interval, mid, to);
    EmptiesAll(n, interval);
    EmptyOutcome(Empties(n, interval), -1, 0, Some(mid), to, mid, verdict);
  }

  lemma ResumedRun(n: nat, interval: nat, mid: nat, verdict: Verdict)
    requires 0 < interval <= n <= MANY && mid + 1 < n <= mid + 10001
    ensures Gets(Empties(n, interval), mid, None, n - 1, verdict)
  {
    var from := mid + 1;
    EmptiesReach(n, interval, from);
    EmptiesAll(n, interval);
    EmptyOutcome(Empties(n, interval), mid, from, None, n, n - 1, verdict);
  }

  /**
   With more headers than lie between two looks, a run from genesis without an end stops
   at the first look, and one that is resumed nearer to it verifies all: 55,000 headers,
   looks at every 50,000 and a first run to height 45,000, say.
   */
  lemma ResumedGetsFurther(n: nat, interval: nat, mid: nat, verdict: Verdict)
    requires 10000 < interval < n <= MANY && mid < interval && n <= mid + 10001
    ensures Gets(Empties(n, interval), -1, None, interval - 1, verdict)
    ensures Gets(Empties(n, interval), -1, Some(mid), mid, verdict)
    ensures Gets(Empties(n, interval), mid, None, n - 1, verdict)
  {
    UninterruptedRun(n, interval, verdict);
    FirstRun(n, interval, mid, verdict);
    ResumedRun(n, interval, mid, verdict);
  }
}
