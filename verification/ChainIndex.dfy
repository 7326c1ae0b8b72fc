/**
 The header scan and the walk from genesis: which block hash every height gets, why the
 walk ends, and why stopping the scan early changes nothing up to the height asked for.
 */
module ChainIndex {
  import opened ByteStrings
  import opened Wire

  /** File, offset and size of a block. */
  datatype Place = Place(file: nat, offset: nat, size: nat)

  /** What the scan yields for a block. */
  datatype Header = Header(hash: Hash, prev: Hash, place: Place)

  /** The predecessor that the genesis block names. */
  const ZERO: Hash := Repeat(0, 32)

  /** The two dictionaries: the child first seen for a hash, and where each block is. */
  datatype Index = Index(child: map<Bytes, Bytes>, places: map<Bytes, Place>)

  const NOTHING: Index := Index(map[], map[])

  function Add(ix: Index, h: Header): Index {
    Index(if h.prev in ix.child then ix.child else ix.child[h.prev := h.hash], ix.places[h.hash := h.place])
  }

  /** The dictionaries after scanning these headers. */
  function Scan(headers: seq<Header>): Index {
    if headers == [] then NOTHING
    else Add(Scan(headers[..|headers| - 1]), headers[|headers| - 1])
  }

  /** The first-seen child, or the empty byte string, which is no hash. */
  function Next(ix: Index, current: Bytes): Bytes {
    if current in ix.child then ix.child[current] else []
  }

  /** The first n hashes of the walk, or all of them if it is shorter. */
  function Chain(ix: Index, n: nat): (c: seq<Bytes>)
    ensures |c| <= n && forall h :: h in c ==> h in ix.places
  {
    if n == 0 then []
    else
      var c := Chain(ix, n - 1);
      var next := Next(ix, Last(c));
      if |c| == n - 1 && next in ix.places then c + [next] else c
  }

  function Last(c: seq<Bytes>): Bytes {
    if c == [] then ZERO else c[|c| - 1]
  }

  // ---------------------------------------------------------------------------
  // What is needed of the hashes
  // ---------------------------------------------------------------------------

  /** A hash determines its header, and no block hashes to zero. */
  predicate Consistent(headers: seq<Header>) {
    && (forall i, j :: 0 <= i < |headers| && 0 <= j < |headers| && headers[i].hash == headers[j].hash ==>
         headers[i].prev == headers[j].prev)
    && (forall i :: 0 <= i < |headers| ==> headers[i].hash != ZERO)
  }

  /** No two blocks share a child, and neither zero nor the empty string is a block. */
  predicate Sound(ix: Index) {
    && (forall p :: p in ix.child ==> ix.child[p] in ix.places)
    && (forall p, q :: p in ix.child && q in ix.child && ix.child[p] == ix.child[q] ==> p == q)
    && ZERO !in ix.places && [] !in ix.places
  }

  predicate Names(h: Header, prev: Bytes, hash: Bytes) {
    h.prev == prev && h.hash == hash
  }

  lemma {:induction false} ScanBacked(headers: seq<Header>)
    ensures forall p :: p in Scan(headers).child ==>
      Scan(headers).child[p] in Scan(headers).places
      && exists i :: 0 <= i < |headers| && Names(headers[i], p, Scan(headers).child[p])
    ensures forall k :: k in Scan(headers).places ==> exists i :: 0 <= i < |headers| && headers[i].hash == k
  {
    if headers != [] {
      var n := |headers| - 1;
      var init, ix := headers[..n], Scan(headers);
      ScanBacked(init);
      forall p | p in ix.child
        ensures exists i :: 0 <= i < |headers| && Names(headers[i], p, ix.child[p])
      {
        if p in Scan(init).child {
          var i :| 0 <= i < n && Names(init[i], p, Scan(init).child[p]);
          assert Names(headers[i], p, ix.child[p]);
        } else {
          assert Names(headers[n], p, ix.child[p]);
        }
      }
      forall k | k in ix.places ensures exists i :: 0 <= i < |headers| && headers[i].hash == k {
        if k in Scan(init).places {
          var i :| 0 <= i < n && init[i].hash == k;
          assert headers[i].hash == k;
        } else {
          assert headers[n].hash == k;
        }
      }
    }
  }

  lemma ScanSound(headers: seq<Header>)
    requires Consistent(headers)
    ensures Sound(Scan(headers))
  {
    ScanBacked(headers);
    var ix := Scan(headers);
    forall p, q | p in ix.child && q in ix.child && ix.child[p] == ix.child[q] ensures p == q {
      var i :| 0 <= i < |headers| && Names(headers[i], p, ix.child[p]);
      var j :| 0 <= j < |headers| && Names(headers[j], q, ix.child[q]);
    }
  }

  /** The child of a hash is the first header that names it. */
  lemma {:induction false} FirstSeen(headers: seq<Header>, i: nat)
    requires i < |headers| && forall j :: 0 <= j < i ==> headers[j].prev != headers[i].prev
    ensures headers[i].prev in Scan(headers).child && Scan(headers).child[headers[i].prev] == headers[i].hash
    decreases |headers|
  {
    var n := |headers| - 1;
    if i < n {
      FirstSeen(headers[..n], i);
    } else {
      ScanBacked(headers[..n]);
    }
  }

  /** A block is read from where its last header was seen. */
  lemma {:induction false} LastPlace(headers: seq<Header>, i: nat)
    requires i < |headers| && forall j :: i < j < |headers| ==> headers[j].hash != headers[i].hash
    ensures headers[i].hash in Scan(headers).places && Scan(headers).places[headers[i].hash] == headers[i].place
    decreases |headers|
  {
    var n := |headers| - 1;
    if i < n {
      assert headers[n].hash != headers[i].hash;
      LastPlace(headers[..n], i);
    }
  }

  /** Every place is that of a header scanned. */
  lemma {:induction false} PlaceBacked(headers: seq<Header>, hash: Bytes) returns (i: nat)
    requires hash in Scan(headers).places
    ensures i < |headers| && headers[i].hash == hash && headers[i].place == Scan(headers).places[hash]
  {
    var n := |headers| - 1;
    if headers[n].hash == hash {
      i := n;
    } else {
      i := PlaceBacked(headers[..n], hash);
    }
  }

  /** The empty byte string is too short for a block hash. */
  lemma EmptyIsNoBlock(headers: seq<Header>)
    ensures [] !in Scan(headers).places
  {
    ScanBacked(headers);
  }

  // ---------------------------------------------------------------------------
  // The walk never revisits a block
  // ---------------------------------------------------------------------------

  /** Each hash is the child of the one before. */
  lemma {:induction false} ChainLinks(ix: Index, n: nat, i: nat)
    requires i < |Chain(ix, n)|
    ensures var c := Chain(ix, n); var p := if i == 0 then ZERO else c[i - 1];
      c[i] in ix.places && c[i] == Next(ix, p)
  {
    if n > 0 && i < |Chain(ix, n - 1)| {
      ChainLinks(ix, n - 1, i);
    }
  }

  lemma {:induction false} NoRevisit(ix: Index, n: nat, i: nat, j: nat)
    requires Sound(ix) && i < j < |Chain(ix, n)|
    ensures Chain(ix, n)[i] != Chain(ix, n)[j]
  {
    var c := Chain(ix, n);
    ChainLinks(ix, n, i);
    ChainLinks(ix, n, j);
    ChainLinks(ix, n, j - 1);
    if i > 0 {
      NoRevisit(ix, n, i - 1, j - 1);
    }
  }

  lemma {:induction false} DistinctFit(c: seq<Bytes>, s: set<Bytes>)
    requires forall i, j :: 0 <= i < j < |c| ==> c[i] != c[j]
    requires forall i :: 0 <= i < |c| ==> c[i] in s
    ensures |c| <= |s|
  {
    if c != [] {
      var n := |c| - 1;
      DistinctFit(c[..n], s - {c[n]});
    }
  }

  /** So it has no more steps than there are blocks. */
  lemma WalkEnds(ix: Index, n: nat)
    requires Sound(ix)
    ensures |Chain(ix, n)| <= |ix.places|
    ensures forall i, j :: 0 <= i < j < |Chain(ix, n)| ==> Chain(ix, n)[i] != Chain(ix, n)[j]
  {
    var c := Chain(ix, n);
    forall i, j | 0 <= i < j < |c| ensures c[i] != c[j] {
      NoRevisit(ix, n, i, j);
    }
    forall i | 0 <= i < |c| ensures c[i] in ix.places.Keys {
      ChainLinks(ix, n, i);
    }
    DistinctFit(c, ix.places.Keys);
  }

  lemma {:induction false} ChainPrefix(ix: Index, n: nat, m: nat)
    requires n <= m
    ensures Chain(ix, n) <= Chain(ix, m)
    ensures |Chain(ix, m)| <= n ==> Chain(ix, n) == Chain(ix, m)
    ensures |Chain(ix, m)| >= n ==> |Chain(ix, n)| == n
  {
    if n < m {
      ChainPrefix(ix, n, m - 1);
    }
  }

  lemma {:induction false} ChainStops(ix: Index, n: nat, m: nat)
    requires n <= m && |Chain(ix, n)| < n
    ensures Chain(ix, m) == Chain(ix, n)
  {
    if n < m {
      ChainStops(ix, n, m - 1);
    }
  }

  /** After some number of steps there is no next block. */
  ghost predicate Ends(ix: Index) {
    exists n: nat :: |Chain(ix, n)| < n
  }

  lemma SoundEnds(ix: Index)
    requires Sound(ix)
    ensures Ends(ix)
  {
    WalkEnds(ix, |ix.places| + 1);
  }

  /** Headers whose hashes do not collide are walked to an end. */
  lemma ConsistentEnds(headers: seq<Header>)
    requires Consistent(headers)
    ensures Ends(Scan(headers))
  {
    ScanSound(headers);
    SoundEnds(Scan(headers));
  }

  predicate NoRepeats(c: seq<Bytes>) {
    forall i, j :: 0 <= i < j < |c| ==> c[i] != c[j]
  }

  /** Once a block comes back, everything after it does. */
  lemma {:induction false} Periodic(ix: Index, n: nat, i: nat, j: nat, k: nat)
    requires i < j <= k < |Chain(ix, n)| && Chain(ix, n)[i] == Chain(ix, n)[j]
    ensures Chain(ix, n)[k] == Chain(ix, n)[k - (j - i)]
  {
    if j < k {
      Periodic(ix, n, i, j, k - 1);
      ChainLinks(ix, n, k);
      ChainLinks(ix, n, k - (j - i));
    }
  }

  /** A walk whose last block has come up before goes on as it did then. */
  lemma GoesOn(ix: Index, c: seq<Bytes>, k: nat)
    requires c == Chain(ix, |c|) && k + 1 < |c| && c[k] == c[|c| - 1]
    ensures |Chain(ix, |c| + 1)| == |c| + 1
  {
    ChainLinks(ix, |c|, k + 1);
  }

  lemma {:induction false} LoopsForever(ix: Index, i: nat, j: nat, m: nat)
    requires i < j < |Chain(ix, j + 1)| && Chain(ix, j + 1)[i] == Chain(ix, j + 1)[j]
    ensures |Chain(ix, m)| == m
  {
    if m <= j + 1 {
      ChainPrefix(ix, m, j + 1);
    } else {
      LoopsForever(ix, i, j, m - 1);
      LoopsOn(ix, i, j, Chain(ix, m - 1));
    }
  }

  lemma LoopsOn(ix: Index, i: nat, j: nat, c: seq<Bytes>)
    requires i < j < |Chain(ix, j + 1)| && Chain(ix, j + 1)[i] == Chain(ix, j + 1)[j]
    requires c == Chain(ix, |c|) && j < |c|
    ensures |Chain(ix, |c| + 1)| == |c| + 1
  {
    ChainPrefix(ix, j + 1, |c|);
    assert c[i] == Chain(ix, j + 1)[i] && c[j] == Chain(ix, j + 1)[j];
    Periodic(ix, |c|, i, j, |c| - 1);
    GoesOn(ix, c, |c| - 1 - (j - i));
  }

  lemma RepeatNeverEnds(ix: Index, n: nat)
    requires !NoRepeats(Chain(ix, n))
    ensures !Ends(ix)
  {
    var i, j :| 0 <= i < j < |Chain(ix, n)| && Chain(ix, n)[i] == Chain(ix, n)[j];
    ChainPrefix(ix, j + 1, n);
    forall m: nat ensures |Chain(ix, m)| == m {
      LoopsForever(ix, i, j, m);
    }
  }

  lemma NoRepeatEnds(ix: Index, n: nat)
    requires NoRepeats(Chain(ix, n))
    ensures |Chain(ix, n)| <= |ix.places|
  {
    forall i | 0 <= i < |Chain(ix, n)| ensures Chain(ix, n)[i] in ix.places.Keys {
      ChainLinks(ix, n, i);
    }
    DistinctFit(Chain(ix, n), ix.places.Keys);
  }

  /** The loop of the source ends if and only if the walk never comes back to a block. */
  lemma EndsExactly(ix: Index)
    ensures Ends(ix) <==> forall n: nat :: NoRepeats(Chain(ix, n))
  {
    if n: nat :| !NoRepeats(Chain(ix, n)) {
      RepeatNeverEnds(ix, n);
    } else {
      NoRepeatEnds(ix, |ix.places| + 1);
    }
  }

  /** Every hash the walk reaches. */
  ghost function Whole(ix: Index): (c: seq<Bytes>)
    requires Ends(ix)
    ensures forall h :: h in c ==> h in ix.places
  {
    var n: nat :| |Chain(ix, n)| < n;
    Chain(ix, n)
  }

  lemma WholeIsAll(ix: Index, n: nat)
    requires Ends(ix)
    ensures Chain(ix, n) <= Whole(ix)
    ensures n > |Whole(ix)| ==> Chain(ix, n) == Whole(ix)
    ensures n <= |Whole(ix)| ==> Chain(ix, n) == Whole(ix)[..n]
  {
    var k: nat :| |Chain(ix, k)| < k && Whole(ix) == Chain(ix, k);
    if n <= k {
      ChainPrefix(ix, n, k);
    } else {
      ChainStops(ix, k, n);
    }
  }

  lemma NextIsNamed(headers: seq<Header>, prev: Bytes) returns (j: nat)
    requires Next(Scan(headers), prev) in Scan(headers).places
    ensures j < |headers| && Names(headers[j], prev, Next(Scan(headers), prev))
  {
    EmptyIsNoBlock(headers);
    ScanBacked(headers);
    j :| 0 <= j < |headers| && Names(headers[j], prev, Scan(headers).child[prev]);
  }

  /** Consecutive hashes are linked: the header of each names the one before. */
  lemma WholeIsLinked(headers: seq<Header>, i: nat, k: nat)
    requires Consistent(headers) && Ends(Scan(headers)) && i < |headers| && k < |Whole(Scan(headers))|
    requires headers[i].hash == Whole(Scan(headers))[k]
    ensures headers[i].prev == if k == 0 then ZERO else Whole(Scan(headers))[k - 1]
  {
    var ix := Scan(headers);
    WholeIsAll(ix, k + 1);
    ChainLinks(ix, k + 1, k);
    var j := NextIsNamed(headers, if k == 0 then ZERO else Whole(ix)[k - 1]);
    assert headers[j].hash == headers[i].hash;
  }

  // ---------------------------------------------------------------------------
  // Stopping the scan early
  // ---------------------------------------------------------------------------

  /** Nothing an index says is taken back. */
  predicate Grows(ix: Index, later: Index) {
    && (forall p :: p in ix.child ==> p in later.child && later.child[p] == ix.child[p])
    && (forall k :: k in ix.places ==> k in later.places)
  }

  lemma {:induction false} ScanGrows(headers: seq<Header>, m: nat)
    requires m <= |headers|
    ensures Grows(Scan(headers[..m]), Scan(headers))
    decreases |headers|
  {
    var n := |headers| - 1;
    if m == |headers| {
      assert headers[..m] == headers;
    } else {
      ScanGrows(headers[..n], m);
      assert headers[..n][..m] == headers[..m];
    }
  }

  lemma {:induction false} ChainGrows(ix: Index, later: Index, n: nat)
    requires Grows(ix, later) && [] !in ix.places
    ensures Chain(ix, n) <= Chain(later, n)
  {
    if n > 0 {
      ChainGrows(ix, later, n - 1);
    }
  }

  /** If the walk over all headers ends, so does the walk over those scanned so far. */
  lemma EndsEarlier(headers: seq<Header>, m: nat)
    requires Ends(Scan(headers)) && m <= |headers|
    ensures Ends(Scan(headers[..m]))
  {
    var n: nat :| |Chain(Scan(headers), n)| < n;
    ScanGrows(headers, m);
    EmptyIsNoBlock(headers[..m]);
    ChainGrows(Scan(headers[..m]), Scan(headers), n);
  }

  /** A scan that stops anywhere walks a prefix of the chain over all headers. */
  lemma EarlyStopIsSound(headers: seq<Header>, m: nat)
    requires Ends(Scan(headers)) && m <= |headers|
    ensures Ends(Scan(headers[..m])) && Whole(Scan(headers[..m])) <= Whole(Scan(headers))
  {
    var ix, all := Scan(headers[..m]), Scan(headers);
    EndsEarlier(headers, m);
    ScanGrows(headers, m);
    EmptyIsNoBlock(headers[..m]);
    var n := |Whole(ix)| + 1;
    WholeIsAll(ix, n);
    ChainGrows(ix, all, n);
    WholeIsAll(all, n);
  }

  // ---------------------------------------------------------------------------
  // Where the scan stops, and what a run loads
  // ---------------------------------------------------------------------------

  /** At a look after n headers the chain is longer than the target. */
  ghost predicate Enough(headers: seq<Header>, target: nat, interval: nat, n: nat)
    requires interval > 0 && n <= |headers|
  {
    n % interval == 0 && Ends(Scan(headers[..n])) && |Whole(Scan(headers[..n]))| > target
  }

  /** The number of headers scanned, given that n are and that the scan goes on. */
  ghost function ScanStop(headers: seq<Header>, target: nat, interval: nat, n: nat): (stop: nat)
    requires interval > 0 && n <= |headers|
    ensures n <= stop <= |headers|
    decreases |headers| - n
  {
    if n == |headers| then n
    else if Enough(headers, target, interval, n + 1) then n + 1
    else ScanStop(headers, target, interval, n + 1)
  }

  /** Every look from there on counts a walk that ends. */
  ghost predicate LooksEnd(headers: seq<Header>, target: nat, interval: nat, n: nat)
    requires interval > 0 && n <= |headers|
    decreases |headers| - n
  {
    n == |headers|
    || (((n + 1) % interval == 0 ==> Ends(Scan(headers[..n + 1])))
        && (Enough(headers, target, interval, n + 1) || LooksEnd(headers, target, interval, n + 1)))
  }

  /** Without an end, a run looks ten thousand blocks ahead. */
  function Target(start: nat, end: Option<nat>): nat {
    if end.Some? then end.value else start + 10000
  }

  /** Everything the walk reaches, or as much of it as an end allows. */
  ghost function Reached(ix: Index, end: Option<nat>): (c: seq<Bytes>)
    requires end.Some? || Ends(ix)
    ensures forall h :: h in c ==> h in ix.places
  {
    if end.Some? then Chain(ix, end.value + 1) else Whole(ix)
  }

  /** The index that a run from `start` to `end` walks. */
  ghost function Seen(headers: seq<Header>, start: nat, end: Option<nat>, interval: nat): Index
    requires interval > 0
  {
    Scan(headers[..ScanStop(headers, Target(start, end), interval, 0)])
  }

  /** The scan and the walk of the run both end. */
  ghost predicate Loads(headers: seq<Header>, start: nat, end: Option<nat>, interval: nat) {
    && interval > 0
    && LooksEnd(headers, Target(start, end), interval, 0)
    && (end.None? ==> Ends(Seen(headers, start, end, interval)))
  }

  /** The hashes by height that the run walks. */
  ghost function Loaded(headers: seq<Header>, start: nat, end: Option<nat>, interval: nat): seq<Bytes>
    requires Loads(headers, start, end, interval)
  {
    Reached(Seen(headers, start, end, interval), end)
  }

  lemma {:induction false} AllLooksEnd(headers: seq<Header>, target: nat, interval: nat, n: nat)
    requires interval > 0 && n <= |headers| && Ends(Scan(headers))
    ensures LooksEnd(headers, target, interval, n)
    decreases |headers| - n
  {
    if n < |headers| {
      EndsEarlier(headers, n + 1);
      AllLooksEnd(headers, target, interval, n + 1);
    }
  }

  /** If the walk over all headers ends, every run loads. */
  lemma AlwaysLoads(headers: seq<Header>, start: nat, end: Option<nat>, interval: nat)
    requires interval > 0 && Ends(Scan(headers))
    ensures Loads(headers, start, end, interval)
  {
    AllLooksEnd(headers, Target(start, end), interval, 0);
    EndsEarlier(headers, ScanStop(headers, Target(start, end), interval, 0));
  }

  lemma {:induction false} StopIsEnough(headers: seq<Header>, target: nat, interval: nat, n: nat)
    requires interval > 0 && n <= |headers|
    ensures var stop := ScanStop(headers, target, interval, n);
      stop == |headers| || Enough(headers, target, interval, stop)
    decreases |headers| - n
  {
    if n < |headers| {
      StopIsEnough(headers, target, interval, n + 1);
    }
  }

  /** It stops at a look that is enough, if not before. */
  lemma {:induction false} StopsBy(headers: seq<Header>, target: nat, interval: nat, n: nat, look: nat)
    requires interval > 0 && n < look <= |headers| && Enough(headers, target, interval, look)
    ensures ScanStop(headers, target, interval, n) <= look
    decreases look - n
  {
    if n + 1 < look {
      StopsBy(headers, target, interval, n + 1, look);
    }
  }

  /** A larger target is never reached sooner. */
  lemma {:induction false} StopsLater(headers: seq<Header>, target: nat, later: nat, interval: nat, n: nat)
    requires interval > 0 && n <= |headers| && target <= later
    ensures ScanStop(headers, target, interval, n) <= ScanStop(headers, later, interval, n)
    decreases |headers| - n
  {
    if n < |headers| && !Enough(headers, target, interval, n + 1) {
      StopsLater(headers, target, later, interval, n + 1);
    }
  }

  lemma ChainOfPart(headers: seq<Header>, m: nat, n: nat)
    requires m <= |headers| && |Chain(Scan(headers[..m]), n)| == n
    ensures Chain(Scan(headers[..m]), n) == Chain(Scan(headers), n)
  {
    ScanGrows(headers, m);
    EmptyIsNoBlock(headers[..m]);
    ChainGrows(Scan(headers[..m]), Scan(headers), n);
  }

  lemma EndInPart(headers: seq<Header>, m: nat, end: nat)
    requires m <= |headers|
    requires m == |headers| || (Ends(Scan(headers[..m])) && |Whole(Scan(headers[..m]))| > end)
    ensures Chain(Scan(headers[..m]), end + 1) == Chain(Scan(headers), end + 1)
  {
    if m == |headers| {
      assert headers[..m] == headers;
    } else {
      WholeIsAll(Scan(headers[..m]), end + 1);
      ChainOfPart(headers, m, end + 1);
    }
  }

  /** With an end, every height gets the hash it gets from all headers, however early the scan stopped. */
  lemma LoadedWithEnd(headers: seq<Header>, start: nat, end: nat, interval: nat)
    requires Loads(headers, start, Some(end), interval)
    ensures Loaded(headers, start, Some(end), interval) == Chain(Scan(headers), end + 1)
  {
    StopIsEnough(headers, end, interval, 0);
    EndInPart(headers, ScanStop(headers, end, interval, 0), end);
  }

  /** Without one, the run walks a prefix of the chain over all headers that passes its target. */
  lemma LoadedWithoutEnd(headers: seq<Header>, start: nat, interval: nat)
    requires interval > 0 && Ends(Scan(headers)) && Loads(headers, start, None, interval)
    ensures var c, all := Loaded(headers, start, None, interval), Whole(Scan(headers));
      c <= all && (c == all || |c| > start + 10000)
  {
    var stop := ScanStop(headers, start + 10000, interval, 0);
    StopIsEnough(headers, start + 10000, interval, 0);
    EarlyStopIsSound(headers, stop);
    assert headers[..|headers|] == headers;
  }

  lemma LoadedIsPrefix(headers: seq<Header>, start: nat, end: Option<nat>, interval: nat)
    requires Ends(Scan(headers)) && Loads(headers, start, end, interval)
    ensures Loaded(headers, start, end, interval) <= Whole(Scan(headers))
  {
    if end.Some? {
      LoadedWithEnd(headers, start, end.value, interval);
      WholeIsAll(Scan(headers), end.value + 1);
    } else {
      LoadedWithoutEnd(headers, start, interval);
    }
  }

  lemma PartsNest(part: seq<Header>, headers: seq<Header>)
    requires part <= headers && Ends(Scan(headers))
    ensures Ends(Scan(part)) && Whole(Scan(part)) <= Whole(Scan(headers))
  {
    assert part == headers[..|part|];
    EarlyStopIsSound(headers, |part|);
  }

  /** A run that starts later walks no less. */
  lemma LoadedLater(headers: seq<Header>, start: nat, later: nat, interval: nat)
    requires start <= later && interval > 0 && Ends(Scan(headers))
    requires Loads(headers, start, None, interval) && Loads(headers, later, None, interval)
    ensures Loaded(headers, start, None, interval) <= Loaded(headers, later, None, interval)
  {
    StopsLater(headers, start + 10000, later + 10000, interval, 0);
    PartsNest(headers[..ScanStop(headers, start + 10000, interval, 0)],
              headers[..ScanStop(headers, later + 10000, interval, 0)]);
  }

  // ---------------------------------------------------------------------------
  // The methods
  // ---------------------------------------------------------------------------

  /** The state of the walk: what it has passed, and where it goes next. */
  predicate Walking(ix: Index, chain: seq<Bytes>, current: Bytes) {
    chain == Chain(ix, |chain|) && current == Next(ix, Last(chain))
  }

  lemma StepOfWalk(ix: Index, chain: seq<Bytes>, current: Bytes)
    requires Walking(ix, chain, current) && current in ix.places
    ensures Walking(ix, chain + [current], Next(ix, current))
    ensures Ends(ix) ==> |chain| < |Whole(ix)|
  {
    if Ends(ix) {
      WholeIsAll(ix, |chain| + 1);
    }
  }

  lemma EndOfWalk(ix: Index, chain: seq<Bytes>, current: Bytes)
    requires Walking(ix, chain, current) && current !in ix.places
    ensures Ends(ix) && Whole(ix) == chain
  {
    assert |Chain(ix, |chain| + 1)| < |chain| + 1;
    WholeIsAll(ix, |chain| + 1);
  }

  /** Without a child of the zero hash there is no walk. */
  lemma NoGenesis(ix: Index)
    requires ZERO !in ix.child && [] !in ix.places
    ensures Walking(ix, [], []) && Ends(ix) && Whole(ix) == []
  {
    EndOfWalk(ix, [], []);
  }

  method WalkChainLength(ix: Index) returns (length: nat)
    requires Ends(ix) && [] !in ix.places
    ensures length == |Whole(ix)|
  {
    if ZERO !in ix.child {
      NoGenesis(ix);
      return 0;
    }
    var current := ix.child[ZERO];
    length := 0;
    ghost var chain: seq<Bytes> := [];
    while current in ix.places
      invariant Walking(ix, chain, current) && |chain| == length
      decreases |Whole(ix)| - length
    {
      StepOfWalk(ix, chain, current);
      chain := chain + [current];
      length := length + 1;
      current := if current in ix.child then ix.child[current] else [];
    }
    EndOfWalk(ix, chain, current);
  }

  /** Scans until done or, at every `interval` headers, until the chain exceeds the target. */
  method ScanHeaders(headers: seq<Header>, targetEnd: nat, interval: nat) returns (ix: Index, scanned: nat)
    requires interval > 0 && LooksEnd(headers, targetEnd, interval, 0)
    ensures scanned == ScanStop(headers, targetEnd, interval, 0) && ix == Scan(headers[..scanned])
  {
    ix := NOTHING;
    scanned := 0;
    while scanned < |headers|
      invariant scanned <= |headers| && ix == Scan(headers[..scanned])
      invariant LooksEnd(headers, targetEnd, interval, scanned)
      invariant ScanStop(headers, targetEnd, interval, scanned) == ScanStop(headers, targetEnd, interval, 0)
    {
      var h := headers[scanned];
      assert headers[..scanned + 1][..scanned] == headers[..scanned];
      ix := Index(if h.prev !in ix.child then ix.child[h.prev := h.hash] else ix.child, ix.places[h.hash := h.place]);
      scanned := scanned + 1;
      if scanned % interval == 0 {
        EmptyIsNoBlock(headers[..scanned]);
        var chainLen := WalkChainLength(ix);
        if chainLen > targetEnd {
          return;
        }
      }
    }
  }

  /** A block that is yielded: its height, its hash and where it is read from. */
  datatype Visit = Visit(height: nat, hash: Bytes, place: Place)

  /** The heights of a chain from `start` on, each block read from where the index says. */
  predicate Visits(vs: seq<Visit>, chain: seq<Bytes>, places: map<Bytes, Place>, start: nat) {
    && |vs| == (if start < |chain| then |chain| - start else 0)
    && (forall i :: 0 <= i < |vs| ==>
         && vs[i].height == start + i && vs[i].hash == chain[start + i]
         && vs[i].hash in places && vs[i].place == places[vs[i].hash])
  }

  lemma VisitsMore(vs: seq<Visit>, chain: seq<Bytes>, places: map<Bytes, Place>, hash: Bytes, start: nat)
    requires Visits(vs, chain, places, start) && hash in places
    ensures Visits(if |chain| >= start then vs + [Visit(|chain|, hash, places[hash])] else vs,
                   chain + [hash], places, start)
  {
  }

  /** The second pass between two blocks. */
  predicate Yielding(ix: Index, chain: seq<Bytes>, current: Bytes, vs: seq<Visit>, start: nat) {
    Walking(ix, chain, current) && Visits(vs, chain, ix.places, start)
  }

  lemma YieldOne(ix: Index, chain: seq<Bytes>, current: Bytes, vs: seq<Visit>, start: nat)
    requires Yielding(ix, chain, current, vs, start) && current in ix.places
    ensures Yielding(ix, chain + [current], Next(ix, current),
                     if |chain| >= start then vs + [Visit(|chain|, current, ix.places[current])] else vs, start)
    ensures Ends(ix) ==> |chain| < |Whole(ix)|
  {
    StepOfWalk(ix, chain, current);
    VisitsMore(vs, chain, ix.places, current, start);
  }

  /** Stopping at the end is stopping where the end allows. */
  lemma ReachedEnd(ix: Index, chain: seq<Bytes>, current: Bytes, vs: seq<Visit>, start: nat, end: nat)
    requires Yielding(ix, chain, current, vs, start) && |chain| == end + 1
    ensures Visits(vs, Reached(ix, Some(end)), ix.places, start)
  {
  }

  /** A walk that stops before the end is all there is. */
  lemma ReachedAll(ix: Index, chain: seq<Bytes>, current: Bytes, end: Option<nat>)
    requires Walking(ix, chain, current) && current !in ix.places && (end.Some? ==> |chain| <= end.value)
    ensures end.None? ==> Ends(ix)
    ensures Reached(ix, end) == chain
  {
    EndOfWalk(ix, chain, current);
    if end.Some? {
      ChainStops(ix, |chain| + 1, end.value + 1);
    }
  }

  /** The second pass: walk from genesis and yield from `start` on, stopping after `end`. */
  method WalkChain(ix: Index, start: nat, end: Option<nat>) returns (vs: seq<Visit>)
    requires [] !in ix.places && (end.Some? || Ends(ix))
    ensures Visits(vs, Reached(ix, end), ix.places, start)
  {
    vs := [];
    if ZERO !in ix.child {
      NoGenesis(ix);
      ReachedAll(ix, [], [], end);
      return;
    }
    var current := ix.child[ZERO];
    var height: nat := 0;
    ghost var chain: seq<Bytes> := [];
    ghost var bound := if end.Some? then end.value + 1 else |Whole(ix)|;
    while current in ix.places
      invariant Yielding(ix, chain, current, vs, start) && |chain| == height
      invariant end.Some? ==> height <= end.value
      decreases bound - height
    {
      YieldOne(ix, chain, current, vs, start);
      chain := chain + [current];
      if height >= start {
        vs := vs + [Visit(height, current, ix.places[current])];
      }
      if end.Some? && height >= end.value {
        ReachedEnd(ix, chain, Next(ix, current), vs, start, end.value);
        return;
      }
      height := height + 1;
      current := if current in ix.child then ix.child[current] else [];
    }
    ReachedAll(ix, chain, current, end);
  }

  /** The places are those of the headers scanned, the hashes those of the walk over them. */
  method LoadChain(headers: seq<Header>, start: nat, end: Option<nat>, interval: nat)
    returns (vs: seq<Visit>, scanned: nat)
    requires Loads(headers, start, end, interval)
    ensures scanned == ScanStop(headers, Target(start, end), interval, 0)
    ensures Visits(vs, Loaded(headers, start, end, interval), Scan(headers[..scanned]).places, start)
  {
    var targetEnd := if end.Some? then end.value else start + 10000;
    var ix;
    ix, scanned := ScanHeaders(headers, targetEnd, interval);
    EmptyIsNoBlock(headers[..scanned]);
    vs := WalkChain(ix, start, end);
  }
}
