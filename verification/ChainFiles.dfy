/**
 The blocks a run finds in the block files: those of the walk over the headers it scans,
 each read from where the scan last saw it.
 */
module ChainFiles {
  import opened ByteStrings
  import opened ChainIndex
  import opened Ledger

  /** The headers in file order, what stands at a place, and how many headers lie between two looks. */
  datatype Files = Files(headers: seq<Header>, disk: Place -> Block, interval: nat)

  /** The blocks with these hashes. */
  function Contents(disk: Place -> Block, places: map<Bytes, Place>, hashes: seq<Bytes>): (blocks: seq<Block>)
    requires forall h :: h in hashes ==> h in places
    ensures |blocks| == |hashes|
  {
    seq(|hashes|, i requires 0 <= i < |hashes| => disk(places[hashes[i]]))
  }

  /** A run from `start` to `end` comes to an end of its scan and of its walk. */
  ghost predicate Loadable(files: Files, start: nat, end: Option<nat>) {
    Loads(files.headers, start, end, files.interval)
  }

  /** The blocks by height that `_load_chain` walks, those before `start` included. */
  ghost function Blocks(files: Files, start: nat, end: Option<nat>): seq<Block>
    requires Loadable(files, start, end)
  {
    var ix := Seen(files.headers, start, end, files.interval);
    Contents(files.disk, ix.places, Reached(ix, end))
  }

  /** What the loader yields for the run. */
  ghost predicate Yields(files: Files, start: nat, end: Option<nat>, vs: seq<Visit>)
    requires Loadable(files, start, end)
  {
    var ix := Seen(files.headers, start, end, files.interval);
    Visits(vs, Reached(ix, end), ix.places, start)
  }

  /** It is one visit for every height from `start` on, each with the block of that height. */
  lemma YieldsBlocks(files: Files, start: nat, end: Option<nat>, vs: seq<Visit>)
    requires Loadable(files, start, end) && Yields(files, start, end, vs)
    ensures |vs| == var n := |Blocks(files, start, end)|; if start < n then n - start else 0
    ensures forall k :: 0 <= k < |vs| ==>
      && vs[k].height == start + k && (end.Some? ==> vs[k].height <= end.value)
      && files.disk(vs[k].place) == Blocks(files, start, end)[start + k]
  {
  }

  // ---------------------------------------------------------------------------
  // Files whose hashes do not collide
  // ---------------------------------------------------------------------------

  /** The same hash is the same header and the same block, and zero is no hash. */
  ghost predicate Proper(files: Files) {
    && files.interval > 0
    && Consistent(files.headers)
    && (forall i, j :: 0 <= i < |files.headers| && 0 <= j < |files.headers| ==>
         (files.headers[i].hash == files.headers[j].hash ==>
            files.disk(files.headers[i].place) == files.disk(files.headers[j].place)))
  }

  /** The files as they were when they held only so many headers. */
  function Earlier(files: Files, known: nat): Files
    requires known <= |files.headers|
  {
    files.(headers := files.headers[..known])
  }

  lemma EarlierIsProper(files: Files, known: nat)
    requires Proper(files) && known <= |files.headers|
    ensures Proper(Earlier(files, known))
  {
  }

  lemma ProperLoads(files: Files, start: nat, end: Option<nat>)
    requires Proper(files)
    ensures Ends(Scan(files.headers)) && Loadable(files, start, end)
  {
    ConsistentEnds(files.headers);
    AlwaysLoads(files.headers, start, end, files.interval);
  }

  /** Every block of the chain over all headers. */
  ghost function AllBlocks(files: Files): seq<Block>
    requires Proper(files)
  {
    ConsistentEnds(files.headers);
    var ix := Scan(files.headers);
    Contents(files.disk, ix.places, Whole(ix))
  }

  /** Wherever a scan stops, a hash stands for the same block. */
  lemma SameBlock(files: Files, part: seq<Header>, hash: Bytes)
    requires Proper(files) && part <= files.headers && hash in Scan(part).places
    ensures hash in Scan(files.headers).places
    ensures files.disk(Scan(part).places[hash]) == files.disk(Scan(files.headers).places[hash])
  {
    assert part == files.headers[..|part|];
    ScanGrows(files.headers, |part|);
    var i := PlaceBacked(part, hash);
    var j := PlaceBacked(files.headers, hash);
    assert files.headers[i] == part[i] && files.headers[i].hash == files.headers[j].hash;
  }

  /** So the hashes of a shorter walk give the first blocks of a longer one. */
  lemma ContentsPrefix(files: Files, part: seq<Header>, c: seq<Bytes>, whole: seq<Bytes>)
    requires Proper(files) && part <= files.headers && c <= whole
    requires forall h :: h in c ==> h in Scan(part).places
    requires forall h :: h in whole ==> h in Scan(files.headers).places
    ensures Contents(files.disk, Scan(part).places, c)
      == Contents(files.disk, Scan(files.headers).places, whole)[..|c|]
  {
    forall i | 0 <= i < |c|
      ensures Contents(files.disk, Scan(part).places, c)[i]
        == Contents(files.disk, Scan(files.headers).places, whole)[i]
    {
      assert c[i] in c && c[i] == whole[i];
      SameBlock(files, part, c[i]);
    }
  }

  /** How many heights a run walks. */
  ghost function Reach(files: Files, start: nat, end: Option<nat>): nat
    requires Proper(files)
  {
    ProperLoads(files, start, end);
    |Blocks(files, start, end)|
  }

  /** Without an end, all that the walk over the headers scanned reaches. */
  lemma ReachIsWhole(files: Files, start: nat)
    requires Proper(files)
    ensures var part := files.headers[..ScanStop(files.headers, start + 10000, files.interval, 0)];
      Ends(Scan(part)) && Reach(files, start, None) == |Whole(Scan(part))|
  {
    ProperLoads(files, start, None);
  }

  /** Every run walks a prefix of the chain over all headers. */
  lemma BlocksArePrefix(files: Files, start: nat, end: Option<nat>)
    requires Proper(files)
    ensures Loadable(files, start, end)
    ensures var n := Reach(files, start, end);
      n <= |AllBlocks(files)| && Blocks(files, start, end) == AllBlocks(files)[..n]
  {
    ProperLoads(files, start, end);
    LoadedIsPrefix(files.headers, start, end, files.interval);
    ContentsPrefix(files, files.headers[..ScanStop(files.headers, Target(start, end), files.interval, 0)],
                   Loaded(files.headers, start, end, files.interval), Whole(Scan(files.headers)));
  }

  /** Files that grow keep the blocks they had. */
  lemma PartBlocks(part: Files, files: Files)
    requires Proper(part) && Proper(files) && part.headers <= files.headers && part.disk == files.disk
    ensures AllBlocks(part) <= AllBlocks(files)
  {
    ConsistentEnds(files.headers);
    PartsNest(part.headers, files.headers);
    ContentsPrefix(files, part.headers, Whole(Scan(part.headers)), Whole(Scan(files.headers)));
  }

  /** With an end, a run reaches the same height wherever it starts. */
  lemma ReachWithEnd(files: Files, start: nat, end: nat)
    requires Proper(files)
    ensures Reach(files, start, Some(end)) ==
      if end < |AllBlocks(files)| then end + 1 else |AllBlocks(files)|
  {
    ProperLoads(files, start, Some(end));
    LoadedWithEnd(files.headers, start, end, files.interval);
    WholeIsAll(Scan(files.headers), end + 1);
  }

  /** Without one, it passes its target or takes all, and a later start reaches no less. */
  lemma ReachWithoutEnd(files: Files, start: nat, later: nat)
    requires Proper(files) && start <= later
    ensures Reach(files, start, None) <= Reach(files, later, None) <= |AllBlocks(files)|
    ensures Reach(files, start, None) > start + 10000 || Reach(files, start, None) == |AllBlocks(files)|
  {
    ProperLoads(files, start, None);
    ProperLoads(files, later, None);
    LoadedWithoutEnd(files.headers, start, files.interval);
    LoadedWithoutEnd(files.headers, later, files.interval);
    LoadedLater(files.headers, start, later, files.interval);
  }
}
