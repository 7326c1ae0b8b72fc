/**
 The blob of precomputed signature hashes that the verifier hands to the K semantics, and
 the lookup by hash type and code-separator index: together they behave as a map.
 */
module SighashBlob {
  import opened ByteStrings
  import opened Wire
  import ScriptWalk
  import Taproot = TaprootMessage

  // ---------------------------------------------------------------------------
  // Entries and lookup
  // ---------------------------------------------------------------------------

  datatype Entry = Entry(hashType: Byte, index: nat, hash: Hash)
  {
    /** The index fits its two bytes. */
    predicate Encodable() {
      index < 0x1_0000
    }

    predicate Has(ht: int, csi: int) {
      hashType == ht && index == csi
    }
  }

  function EntryBytes(e: Entry): (b: Bytes)
    ensures |b| == 35
  {
    [e.hashType] + BeBytes(e.index, 2) + e.hash
  }

  function Blob(entries: seq<Entry>): Bytes {
    Joined(EntryBytes, entries)
  }

  /** A blob of exactly 32 bytes is taken for a hash. */
  function Lookup(blob: Bytes, ht: int, csi: int): Bytes {
    if |blob| == 32 then blob
    else if |blob| >= 35 then
      if blob[0] == ht && 256 * (blob[1] as int) + blob[2] == csi then blob[3..35] else Lookup(blob[35..], ht, csi)
    else []
  }

  /** The hash of the first entry with this key. */
  function First(entries: seq<Entry>, ht: int, csi: int): Option<Hash> {
    if entries == [] then None
    else if entries[0].Has(ht, csi) then Some(entries[0].hash)
    else First(entries[1..], ht, csi)
  }

  lemma {:induction false} FirstIsFirst(entries: seq<Entry>, ht: int, csi: int, i: nat)
    requires i < |entries| && entries[i].Has(ht, csi)
    requires forall j :: 0 <= j < i ==> !entries[j].Has(ht, csi)
    ensures First(entries, ht, csi) == Some(entries[i].hash)
  {
    if i > 0 {
      assert !entries[0].Has(ht, csi);
      FirstIsFirst(entries[1..], ht, csi, i - 1);
    }
  }

  lemma {:induction false} FirstMisses(entries: seq<Entry>, ht: int, csi: int)
    requires forall j :: 0 <= j < |entries| ==> !entries[j].Has(ht, csi)
    ensures First(entries, ht, csi) == None
  {
    if entries != [] {
      FirstMisses(entries[1..], ht, csi);
    }
  }

  lemma EntryFields(e: Entry, rest: Bytes)
    requires e.Encodable()
    ensures var b := EntryBytes(e) + rest;
      && b[0] == e.hashType && 256 * (b[1] as int) + b[2] == e.index && b[3..35] == e.hash && b[35..] == rest
  {
    var b := EntryBytes(e) + rest;
    assert b[1..3] == BeBytes(e.index, 2) && b[3..35] == e.hash && b[35..] == rest;
    assert BeBytes(e.index, 2) == BeBytes(e.index / 256, 1) + [e.index % 256];
    assert BeBytes(e.index / 256, 1) == [] + [e.index / 256 % 256];
    assert b[1] == b[1..3][0] && b[2] == b[1..3][1];
  }

  /** On a blob of entries the lookup returns the first match, and nothing if there is none. */
  lemma {:induction false} LookupIsFirst(entries: seq<Entry>, ht: int, csi: int)
    requires forall i :: 0 <= i < |entries| ==> entries[i].Encodable()
    ensures Lookup(Blob(entries), ht, csi) ==
      var first := First(entries, ht, csi); if first.Some? then first.value else []
  {
    if entries != [] {
      assert entries[0].Encodable();
      EntryFields(entries[0], Blob(entries[1..]));
      LookupIsFirst(entries[1..], ht, csi);
    }
  }

  // ---------------------------------------------------------------------------
  // Tables of hashes
  // ---------------------------------------------------------------------------

  /** The hash for a code-separator index and a hash type, if there is one. */
  type Signer = (nat, Byte) -> Option<Hash>

  function Row(sign: Signer, csi: nat, hts: seq<Byte>): seq<Entry> {
    if hts == [] then []
    else
      var rest := Row(sign, csi, hts[1..]);
      match sign(csi, hts[0])
      case None => rest
      case Some(h) => [Entry(hts[0], csi, h)] + rest
  }

  /** The rows of n indices from one on. */
  function Rows(sign: Signer, csi: nat, n: nat, hts: seq<Byte>): seq<Entry>
    decreases n
  {
    if n == 0 then [] else Row(sign, csi, hts) + Rows(sign, csi + 1, n - 1, hts)
  }

  lemma {:induction false} FirstAppend(a: seq<Entry>, b: seq<Entry>, ht: int, csi: int)
    ensures First(a + b, ht, csi) == if First(a, ht, csi).Some? then First(a, ht, csi) else First(b, ht, csi)
  {
    if a == [] {
      assert a + b == b;
    } else {
      assert (a + b)[1..] == a[1..] + b;
      FirstAppend(a[1..], b, ht, csi);
    }
  }

  lemma {:induction false} FirstInRow(sign: Signer, row: nat, hts: seq<Byte>, ht: Byte, csi: nat)
    ensures First(Row(sign, row, hts), ht, csi) == if row == csi && ht in hts then sign(csi, ht) else None
  {
    if hts != [] {
      var rest := Row(sign, row, hts[1..]);
      FirstInRow(sign, row, hts[1..], ht, csi);
      var h := sign(row, hts[0]);
      if h.Some? {
        FirstAppend([Entry(hts[0], row, h.value)], rest, ht, csi);
        FirstOfOne(Entry(hts[0], row, h.value), ht, csi);
      }
    }
  }

  lemma FirstOfOne(e: Entry, ht: int, csi: int)
    ensures First([e], ht, csi) == if e.Has(ht, csi) then Some(e.hash) else None
  {
  }

  /** A key is found exactly when its row and hash type are in the table and it was hashed. */
  lemma {:induction false} FirstInRows(sign: Signer, row: nat, n: nat, hts: seq<Byte>, ht: Byte, csi: nat)
    ensures First(Rows(sign, row, n, hts), ht, csi) ==
      if row <= csi < row + n && ht in hts then sign(csi, ht) else None
    decreases n
  {
    if n > 0 {
      FirstAppend(Row(sign, row, hts), Rows(sign, row + 1, n - 1, hts), ht, csi);
      FirstInRow(sign, row, hts, ht, csi);
      FirstInRows(sign, row + 1, n - 1, hts, ht, csi);
    }
  }

  predicate DistinctKeys(entries: seq<Entry>) {
    forall i, j :: 0 <= i < j < |entries| ==> !entries[j].Has(entries[i].hashType, entries[i].index)
  }

  predicate Distinct(hts: seq<Byte>) {
    forall i, j :: 0 <= i < j < |hts| ==> hts[i] != hts[j]
  }

  lemma {:induction false} RowKeys(sign: Signer, csi: nat, hts: seq<Byte>)
    requires Distinct(hts)
    ensures DistinctKeys(Row(sign, csi, hts))
    ensures forall i :: 0 <= i < |Row(sign, csi, hts)| ==>
      Row(sign, csi, hts)[i].index == csi && Row(sign, csi, hts)[i].hashType in hts
  {
    if hts != [] {
      RowKeys(sign, csi, hts[1..]);
      assert hts[0] !in hts[1..];
    }
  }

  lemma {:induction false} RowsKeys(sign: Signer, csi: nat, n: nat, hts: seq<Byte>)
    requires Distinct(hts)
    ensures DistinctKeys(Rows(sign, csi, n, hts))
    ensures forall i :: 0 <= i < |Rows(sign, csi, n, hts)| ==> csi <= Rows(sign, csi, n, hts)[i].index < csi + n
    decreases n
  {
    if n > 0 {
      RowKeys(sign, csi, hts);
      RowsKeys(sign, csi + 1, n - 1, hts);
    }
  }

  /** A table as a blob is a map: every hash is found under its key and nothing else is. */
  lemma TableLookup(sign: Signer, n: nat, hts: seq<Byte>, ht: Byte, csi: nat)
    requires n <= 0x1_0000 && Distinct(hts)
    ensures DistinctKeys(Rows(sign, 0, n, hts))
    ensures Lookup(Blob(Rows(sign, 0, n, hts)), ht, csi) ==
      if csi < n && ht in hts && sign(csi, ht).Some? then sign(csi, ht).value else []
  {
    RowsKeys(sign, 0, n, hts);
    LookupIsFirst(Rows(sign, 0, n, hts), ht, csi);
    FirstInRows(sign, 0, n, hts, ht, csi);
  }

  // ---------------------------------------------------------------------------
  // The legacy table
  // ---------------------------------------------------------------------------

  /** The hash that SIGHASH_SINGLE without a matching output stands for: the number one. */
  const ONE: Hash := [1] + Repeat(0, 31)

  /** What a legacy hash depends on besides script and hash type; nothing stands for its exceptions. */
  datatype Legacy = Legacy(signatureHash: (Bytes, Byte) -> Option<Hash>, inputIndex: nat, outputs: nat)
  {
    function HashOf(sub: Bytes, ht: Byte): Option<Hash> {
      match signatureHash(sub, ht)
      case Some(h) => Some(h)
      case None => if ht % 32 == 3 && inputIndex >= outputs then Some(ONE) else None
    }
  }

  /** The script without separators, then what follows each separator without them. */
  function Subscript(script: Bytes, csi: nat): Bytes
    requires csi <= |ScriptWalk.Positions(script)|
  {
    if csi == 0 then ScriptWalk.Remove(script)
    else ScriptWalk.Remove(ScriptWalk.Rest(script, ScriptWalk.Positions(script)[csi - 1]))
  }

  function Subscripts(script: Bytes): (subs: seq<Bytes>)
    ensures |subs| == 1 + |ScriptWalk.Positions(script)|
    ensures forall csi :: 0 <= csi < |subs| ==> subs[csi] == Subscript(script, csi)
  {
    var n := |ScriptWalk.Positions(script)|;
    seq(1 + n, csi requires 0 <= csi <= n => Subscript(script, csi))
  }

  function LegacySigner(env: Legacy, subs: seq<Bytes>): Signer {
    (csi: nat, ht: Byte) => if csi < |subs| then env.HashOf(subs[csi], ht) else None
  }

  predicate AllEncodable(entries: seq<Entry>) {
    forall i :: 0 <= i < |entries| ==> entries[i].Encodable()
  }

  lemma {:induction false} RowIndices(sign: Signer, csi: nat, hts: seq<Byte>)
    ensures forall i :: 0 <= i < |Row(sign, csi, hts)| ==> Row(sign, csi, hts)[i].index == csi
  {
    if hts != [] {
      RowIndices(sign, csi, hts[1..]);
    }
  }

  /** Either every entry of a row can be encoded or none can. */
  lemma RowEncodable(sign: Signer, csi: nat, hts: seq<Byte>)
    ensures AllEncodable(Row(sign, csi, hts)) <==> csi < 0x1_0000 || Row(sign, csi, hts) == []
  {
    RowIndices(sign, csi, hts);
    if csi >= 0x1_0000 && Row(sign, csi, hts) != [] {
      assert !Row(sign, csi, hts)[0].Encodable();
    }
  }

  lemma EncodableAppend(a: seq<Entry>, b: seq<Entry>)
    ensures AllEncodable(a + b) <==> AllEncodable(a) && AllEncodable(b)
  {
    forall i | AllEncodable(a + b) && 0 <= i < |a| ensures a[i].Encodable() {
      assert (a + b)[i].Encodable();
    }
    forall i | AllEncodable(a + b) && 0 <= i < |b| ensures b[i].Encodable() {
      assert (a + b)[|a| + i].Encodable();
    }
  }

  /** What is left of a row after its first hash type. */
  lemma RowStep(sign: Signer, csi: nat, hts: seq<Byte>, k: nat)
    requires k < |hts|
    ensures Blob(Row(sign, csi, hts[k..])) ==
      (if sign(csi, hts[k]).Some? then EntryBytes(Entry(hts[k], csi, sign(csi, hts[k]).value)) else [])
      + Blob(Row(sign, csi, hts[k + 1..]))
    ensures sign(csi, hts[k]).Some? ==> Row(sign, csi, hts[k..]) != []
    ensures Row(sign, csi, hts[k..]) == [] ==> Row(sign, csi, hts[k + 1..]) == []
    ensures sign(csi, hts[k]).None? ==> Row(sign, csi, hts[k..]) == Row(sign, csi, hts[k + 1..])
  {
  }

  /** The inner loop of the legacy path; writing an index of more than two bytes raises. */
  method AppendRow(parts: Bytes, sub: Bytes, csi: nat, hts: seq<Byte>, env: Legacy, ghost sign: Signer)
    returns (r: Option<Bytes>)
    requires forall ht: Byte :: sign(csi, ht) == env.HashOf(sub, ht)
    ensures r ==
      if AllEncodable(Row(sign, csi, hts)) then Some(parts + Blob(Row(sign, csi, hts))) else None
  {
    RowEncodable(sign, csi, hts);
    ghost var whole := parts + Blob(Row(sign, csi, hts));
    var blob := parts;
    assert hts[0..] == hts;
    for k := 0 to |hts|
      invariant blob + Blob(Row(sign, csi, hts[k..])) == whole
      invariant Row(sign, csi, hts) == [] ==> Row(sign, csi, hts[k..]) == []
      invariant csi >= 0x1_0000 ==> Row(sign, csi, hts[k..]) == Row(sign, csi, hts)
    {
      RowStep(sign, csi, hts, k);
      var ht := hts[k];
      var sh := env.HashOf(sub, ht);
      if sh.Some? {
        if csi >= 0x1_0000 {
          return None;
        }
        ghost var before := blob;
        blob := blob + ([ht] + BeBytes(csi, 2) + sh.value);
        Assoc(before, EntryBytes(Entry(ht, csi, sh.value)), Blob(Row(sign, csi, hts[k + 1..])));
      } else {
        assert [] + Blob(Row(sign, csi, hts[k + 1..])) == Blob(Row(sign, csi, hts[k + 1..]));
      }
    }
    assert hts[|hts|..] == [] && blob + [] == blob;
    return Some(blob);
  }

  /** Adds what follows each position to the subscript of the whole script. */
  method AppendSubscripts(script: Bytes, positions: seq<nat>, whole: Bytes, ghost all: seq<Bytes>)
    returns (subs: seq<Bytes>)
    requires |all| == 1 + |positions| && all[0] == whole
    requires forall idx :: 0 <= idx < |positions| ==>
      all[idx + 1] == ScriptWalk.Remove(ScriptWalk.Rest(script, positions[idx]))
    ensures subs == all
  {
    subs := [whole];
    for idx := 0 to |positions|
      invariant subs == all[..idx + 1]
    {
      var sub := ScriptWalk.RemoveCodeseparators(ScriptWalk.Rest(script, positions[idx]));
      subs := subs + [sub];
      assert all[..idx + 2] == all[..idx + 1] + [all[idx + 1]];
    }
    assert all[..|all|] == all;
  }

  /** One subscript for each separator, and one for the whole script. */
  method CollectSubscripts(script: Bytes) returns (subs: seq<Bytes>)
    ensures subs == Subscripts(script)
  {
    var positions := ScriptWalk.FindCodesepPositions(script);
    var whole := ScriptWalk.RemoveCodeseparators(script);
    subs := AppendSubscripts(script, positions, whole, Subscripts(script));
  }

  function LegacyTable(script: Bytes, hts: seq<Byte>, env: Legacy): seq<Entry> {
    Rows(LegacySigner(env, Subscripts(script)), 0, |Subscripts(script)|, hts)
  }

  /** The outer loop. */
  method EncodeTable(subs: seq<Bytes>, hts: seq<Byte>, env: Legacy) returns (r: Option<Bytes>)
    ensures var table := Rows(LegacySigner(env, subs), 0, |subs|, hts);
      r == if AllEncodable(table) then Some(Blob(table)) else None
  {
    ghost var sign := LegacySigner(env, subs);
    ghost var table := Rows(sign, 0, |subs|, hts);
    var blob: Bytes := [];
    var csi: nat := 0;
    assert [] + Blob(table) == Blob(table);
    while csi < |subs|
      invariant csi <= |subs|
      invariant blob + Blob(Rows(sign, csi, |subs| - csi, hts)) == Blob(table)
      invariant AllEncodable(Rows(sign, csi, |subs| - csi, hts)) <==> AllEncodable(table)
    {
      ghost var row, rest := Row(sign, csi, hts), Rows(sign, csi + 1, |subs| - csi - 1, hts);
      EncodableAppend(row, rest);
      JoinedAppend(EntryBytes, row, rest);
      var longer := AppendRow(blob, subs[csi], csi, hts, env, sign);
      if longer.None? {
        return None;
      }
      Assoc(blob, Blob(row), Blob(rest));
      blob := longer.value;
      csi := csi + 1;
    }
    assert blob + [] == blob;
    return Some(blob);
  }

  method LegacyBlob(script: Bytes, hts: seq<Byte>, env: Legacy) returns (r: Option<Bytes>)
    ensures r ==
      if AllEncodable(LegacyTable(script, hts, env)) then Some(Blob(LegacyTable(script, hts, env))) else None
  {
    var subs := CollectSubscripts(script);
    r := EncodeTable(subs, hts, env);
  }

  lemma SubscriptsLookup(subs: seq<Bytes>, hts: seq<Byte>, env: Legacy, ht: Byte, csi: nat)
    requires |subs| <= 0x1_0000 && Distinct(hts)
    ensures var table := Rows(LegacySigner(env, subs), 0, |subs|, hts);
      && AllEncodable(table) && DistinctKeys(table)
      && Lookup(Blob(table), ht, csi) ==
           if csi < |subs| && ht in hts && env.HashOf(subs[csi], ht).Some? then env.HashOf(subs[csi], ht).value else []
  {
    var sign := LegacySigner(env, subs);
    RowsKeys(sign, 0, |subs|, hts);
    TableLookup(sign, |subs|, hts, ht, csi);
  }

  /** Every position found is inside the script, right after a separator. */
  lemma PositionsInside(script: Bytes)
    ensures forall bp :: bp in ScriptWalk.Positions(script) ==>
      1 <= bp <= |script| && script[bp - 1] == 0xAB
  {
    forall bp | bp in ScriptWalk.Positions(script) ensures 1 <= bp <= |script| && script[bp - 1] == 0xAB {
      ScriptWalk.RemoveSplits(script, bp);
    }
  }

  /**
   The legacy blob is a map: under index 0 the hash of the whole script, under index k that of
   what follows the k-th separator, each without separators; where hashing raises, the number
   one for SINGLE without a matching output, and nothing otherwise.
   */
  lemma LegacyLookup(script: Bytes, hts: seq<Byte>, env: Legacy, ht: Byte, csi: nat)
    requires |ScriptWalk.Positions(script)| < 0x1_0000 && Distinct(hts)
    ensures AllEncodable(LegacyTable(script, hts, env)) && DistinctKeys(LegacyTable(script, hts, env))
    ensures forall k :: 0 <= k < |ScriptWalk.Positions(script)| ==> ScriptWalk.Positions(script)[k] <= |script|
    ensures Lookup(Blob(LegacyTable(script, hts, env)), ht, csi) ==
      if csi > |ScriptWalk.Positions(script)| || ht !in hts then []
      else
        var rest := if csi == 0 then script else script[ScriptWalk.Positions(script)[csi - 1]..];
        var h := env.signatureHash(ScriptWalk.Remove(rest), ht);
        if h.Some? then h.value
        else if ht % 32 == 3 && env.inputIndex >= env.outputs then [1] + Repeat(0, 31)
        else []
  {
    PositionsInside(script);
    assert forall k :: 0 <= k < |ScriptWalk.Positions(script)| ==>
      ScriptWalk.Positions(script)[k] in ScriptWalk.Positions(script);
    SubscriptsLookup(Subscripts(script), hts, env, ht, csi);
    if csi <= |ScriptWalk.Positions(script)| {
      SubscriptIs(script, csi);
      HashIs(env, Subscript(script, csi), ht);
    }
  }

  lemma HashIs(env: Legacy, sub: Bytes, ht: Byte)
    ensures (if env.HashOf(sub, ht).Some? then env.HashOf(sub, ht).value else []) ==
      var h := env.signatureHash(sub, ht);
      if h.Some? then h.value
      else if ht % 32 == 3 && env.inputIndex >= env.outputs then [1] + Repeat(0, 31)
      else []
  {
  }

  lemma SubscriptIs(script: Bytes, csi: nat)
    requires csi <= |ScriptWalk.Positions(script)|
    requires csi > 0 ==> ScriptWalk.Positions(script)[csi - 1] <= |script|
    ensures Subscript(script, csi)
      == ScriptWalk.Remove(if csi == 0 then script else script[ScriptWalk.Positions(script)[csi - 1]..])
  {
    if csi > 0 {
      RestIsSlice(script, ScriptWalk.Positions(script)[csi - 1]);
    }
  }

  lemma RestIsSlice(script: Bytes, bp: nat)
    requires bp <= |script|
    ensures ScriptWalk.Rest(script, bp) == script[bp..]
  {
  }

  /** What the k-th subscript is: the rest of the script after that separator. */
  lemma SubscriptSplits(script: Bytes, csi: nat)
    requires 1 <= csi <= |ScriptWalk.Positions(script)|
    ensures var bp := ScriptWalk.Positions(script)[csi - 1];
      && 1 <= bp <= |script| && script[bp - 1] == ScriptWalk.CODESEPARATOR
      && ScriptWalk.Remove(script) == ScriptWalk.Remove(script[..bp]) + Subscript(script, csi)
  {
    ScriptWalk.RemoveSplits(script, ScriptWalk.Positions(script)[csi - 1]);
  }

  // ---------------------------------------------------------------------------
  // The taproot table
  // ---------------------------------------------------------------------------

  /** The position a row commits to: of the separator opcode, or all ones before any. */
  function CodesepPos(positions: seq<nat>, csi: nat): Option<UInt32>
    requires csi <= |positions|
  {
    if csi == 0 then Some(0xFFFF_FFFF)
    else
      var bp := positions[csi - 1];
      if 1 <= bp <= 0x1_0000_0000 then Some(bp - 1) else None
  }

  /** A hash whose computation or encoding raises is left out of the table. */
  function TapHash(c: Taproot.Call, pos: Option<UInt32>, csi: nat, ht: Byte, tag: Bytes, sha: Taproot.Sha)
    : Option<Hash>
  {
    if pos.None? || csi >= 0x1_0000 then None
    else
      var call := c.(hashType := ht, codesepPos := pos.value);
      if call.Completes() then Some(Taproot.TaggedHash(sha, tag, Taproot.Serialize(Taproot.Commit(call, sha))))
      else None
  }

  function TapSigner(c: Taproot.Call, positions: seq<nat>, tag: Bytes, sha: Taproot.Sha): Signer {
    (csi: nat, ht: Byte) =>
      if csi <= |positions| then TapHash(c, CodesepPos(positions, csi), csi, ht, tag, sha) else None
  }

  method TapHashOf(c: Taproot.Call, pos: Option<UInt32>, csi: nat, ht: Byte, tag: Bytes, sha: Taproot.Sha)
    returns (r: Option<Hash>)
    ensures r == TapHash(c, pos, csi, ht, tag, sha)
  {
    if pos.None? {
      return None;
    }
    r := Taproot.TaprootSighash(c.(hashType := ht, codesepPos := pos.value), tag, sha);
    if csi >= 0x1_0000 {
      r := None;
    }
  }

  /** The inner loop of the taproot paths: a hash that raises is skipped. */
  method AppendTapRow(parts: Bytes, c: Taproot.Call, pos: Option<UInt32>, csi: nat, hts: seq<Byte>,
                      tag: Bytes, sha: Taproot.Sha, ghost sign: Signer)
    returns (blob: Bytes)
    requires forall ht: Byte :: sign(csi, ht) == TapHash(c, pos, csi, ht, tag, sha)
    ensures blob == parts + Blob(Row(sign, csi, hts))
  {
    ghost var whole := parts + Blob(Row(sign, csi, hts));
    blob := parts;
    assert hts[0..] == hts;
    for k := 0 to |hts|
      invariant blob + Blob(Row(sign, csi, hts[k..])) == whole
    {
      RowStep(sign, csi, hts, k);
      var ht := hts[k];
      var sh := TapHashOf(c, pos, csi, ht, tag, sha);
      if sh.Some? {
        ghost var before := blob;
        blob := blob + ([ht] + BeBytes(csi, 2) + sh.value);
        Assoc(before, EntryBytes(Entry(ht, csi, sh.value)), Blob(Row(sign, csi, hts[k + 1..])));
      } else {
        assert [] + Blob(Row(sign, csi, hts[k + 1..])) == Blob(Row(sign, csi, hts[k + 1..]));
      }
    }
    assert hts[|hts|..] == [] && blob + [] == blob;
  }

  /** The separators of the tapscript on the script path; the key path has no script. */
  function TapPositions(tapscript: Option<Bytes>): seq<nat> {
    if tapscript.None? then [] else ScriptWalk.Positions(tapscript.value)
  }

  function TapTable(c: Taproot.Call, tapscript: Option<Bytes>, hts: seq<Byte>, tag: Bytes, sha: Taproot.Sha)
    : seq<Entry>
  {
    TapRows(c, TapPositions(tapscript), hts, tag, sha)
  }

  /** No separator executed, then each of them. */
  function TapRows(c: Taproot.Call, positions: seq<nat>, hts: seq<Byte>, tag: Bytes, sha: Taproot.Sha): seq<Entry> {
    Rows(TapSigner(c, positions, tag, sha), 0, 1 + |positions|, hts)
  }

  method TaprootBlob(c: Taproot.Call, tapscript: Option<Bytes>, hts: seq<Byte>, tag: Bytes, sha: Taproot.Sha)
    returns (blob: Bytes)
    ensures blob == Blob(TapTable(c, tapscript, hts, tag, sha))
  {
    var positions: seq<nat> := [];
    if tapscript.Some? {
      positions := ScriptWalk.FindCodesepPositions(tapscript.value);
    }
    blob := EncodeTapTable(c, positions, hts, tag, sha);
  }

  /** The outer loop: no separator executed, then each separator in turn. */
  method EncodeTapTable(c: Taproot.Call, positions: seq<nat>, hts: seq<Byte>, tag: Bytes, sha: Taproot.Sha)
    returns (blob: Bytes)
    ensures blob == Blob(Rows(TapSigner(c, positions, tag, sha), 0, 1 + |positions|, hts))
  {
    ghost var sign, n := TapSigner(c, positions, tag, sha), 1 + |positions|;
    ghost var table := Rows(sign, 0, n, hts);
    blob := [];
    var csi: nat := 0;
    assert [] + Blob(table) == Blob(table);
    while csi <= |positions|
      invariant csi <= n && blob + Blob(Rows(sign, csi, n - csi, hts)) == Blob(table)
    {
      ghost var row, rest := Row(sign, csi, hts), Rows(sign, csi + 1, n - csi - 1, hts);
      JoinedAppend(EntryBytes, row, rest);
      Assoc(blob, Blob(row), Blob(rest));
      blob := AppendTapRow(blob, c, CodesepPos(positions, csi), csi, hts, tag, sha, sign);
      csi := csi + 1;
    }
    assert blob + [] == blob;
  }

  /** Indices that need more than two bytes never make it into the table. */
  lemma {:induction false} TapEncodable(sign: Signer, csi: nat, n: nat, hts: seq<Byte>)
    requires forall i: nat, ht: Byte :: i >= 0x1_0000 ==> sign(i, ht) == None
    ensures AllEncodable(Rows(sign, csi, n, hts))
    decreases n
  {
    if n > 0 {
      if csi >= 0x1_0000 {
        EmptyRow(sign, csi, hts);
      }
      RowEncodable(sign, csi, hts);
      TapEncodable(sign, csi + 1, n - 1, hts);
      EncodableAppend(Row(sign, csi, hts), Rows(sign, csi + 1, n - 1, hts));
    }
  }

  lemma {:induction false} EmptyRow(sign: Signer, csi: nat, hts: seq<Byte>)
    requires forall ht: Byte :: sign(csi, ht) == None
    ensures Row(sign, csi, hts) == []
  {
    if hts != [] {
      EmptyRow(sign, csi, hts[1..]);
    }
  }

  /** The k-th row commits to the offset of the k-th separator, while four bytes hold it. */
  lemma TapPositionIsSeparator(tapscript: Bytes, csi: nat)
    requires 1 <= csi <= |ScriptWalk.Positions(tapscript)|
    ensures var bp := ScriptWalk.Positions(tapscript)[csi - 1];
      && 1 <= bp <= |tapscript| && tapscript[bp - 1] == 0xAB
      && CodesepPos(ScriptWalk.Positions(tapscript), csi) == if bp <= 0x1_0000_0000 then Some(bp - 1) else None
  {
    ScriptWalk.RemoveSplits(tapscript, ScriptWalk.Positions(tapscript)[csi - 1]);
  }

  /** A signer finds what was hashed, and nothing behind the last position. */
  lemma TapSigns(c: Taproot.Call, positions: seq<nat>, tag: Bytes, sha: Taproot.Sha, csi: nat, ht: Byte)
    ensures TapSigner(c, positions, tag, sha)(csi, ht) ==
      if csi <= |positions| then TapHash(c, CodesepPos(positions, csi), csi, ht, tag, sha) else None
  {
  }

  /** In a table without indices of more than two bytes, the lookup finds what was hashed. */
  lemma RowsLookup(sign: Signer, n: nat, hts: seq<Byte>, ht: Byte, csi: nat)
    requires forall i: nat, ht: Byte :: i >= 0x1_0000 ==> sign(i, ht) == None
    ensures Lookup(Blob(Rows(sign, 0, n, hts)), ht, csi) ==
      if csi < n && ht in hts && sign(csi, ht).Some? then sign(csi, ht).value else []
  {
    TapEncodable(sign, 0, n, hts);
    LookupIsFirst(Rows(sign, 0, n, hts), ht, csi);
    FirstInRows(sign, 0, n, hts, ht, csi);
  }

  /** The tagged hash of the message of a call, if it can be built. */
  function HashOf(c: Taproot.Call, tag: Bytes, sha: Taproot.Sha): Bytes {
    if c.Completes() then sha(sha(tag) + sha(tag) + Taproot.Serialize(Taproot.Commit(c, sha))) else []
  }

  /** The same for a hash type and a position, which four bytes must hold. */
  function HashAt(c: Taproot.Call, ht: Byte, pos: int, tag: Bytes, sha: Taproot.Sha): Bytes {
    if 0 <= pos <= 0xFFFF_FFFF then HashOf(c.(hashType := ht, codesepPos := pos), tag, sha) else []
  }

  lemma TapHashAt(c: Taproot.Call, pos: Option<UInt32>, at: int, csi: nat, ht: Byte, tag: Bytes, sha: Taproot.Sha)
    requires pos == (if 0 <= at <= 0xFFFF_FFFF then Some(at) else None) && csi < 0x1_0000
    ensures var h := TapHash(c, pos, csi, ht, tag, sha);
      (if h.Some? then h.value else []) == HashAt(c, ht, at, tag, sha)
  {
  }

  /** The position a row commits to, in numbers. */
  lemma CodesepPosIs(positions: seq<nat>, csi: nat)
    requires csi <= |positions|
    ensures var at := if csi == 0 then 0xFFFF_FFFF else positions[csi - 1] as int - 1;
      CodesepPos(positions, csi) == if 0 <= at <= 0xFFFF_FFFF then Some(at) else None
  {
  }

  lemma FoundIs(found: Bytes, h: Option<Hash>, c: Taproot.Call, positions: seq<nat>, listed: bool,
                tag: Bytes, sha: Taproot.Sha, ht: Byte, csi: nat)
    requires h == if csi <= |positions| then TapHash(c, CodesepPos(positions, csi), csi, ht, tag, sha) else None
    requires found == if csi <= |positions| && listed && h.Some? then h.value else []
    ensures found ==
      if csi > |positions| || csi >= 0x1_0000 || !listed then []
      else HashAt(c, ht, if csi == 0 then 0xFFFF_FFFF else positions[csi - 1] as int - 1, tag, sha)
  {
    if csi <= |positions| && csi < 0x1_0000 {
      var at := if csi == 0 then 0xFFFF_FFFF else positions[csi - 1] as int - 1;
      CodesepPosIs(positions, csi);
      TapHashAt(c, CodesepPos(positions, csi), at, csi, ht, tag, sha);
    }
  }

  lemma TapRowsLookup(c: Taproot.Call, positions: seq<nat>, hts: seq<Byte>, tag: Bytes, sha: Taproot.Sha,
                      ht: Byte, csi: nat)
    ensures Lookup(Blob(TapRows(c, positions, hts, tag, sha)), ht, csi) ==
      if csi > |positions| || csi >= 0x1_0000 || ht !in hts then []
      else HashAt(c, ht, if csi == 0 then 0xFFFF_FFFF else positions[csi - 1] as int - 1, tag, sha)
  {
    var sign := TapSigner(c, positions, tag, sha);
    RowsLookup(sign, 1 + |positions|, hts, ht, csi);
    TapSigns(c, positions, tag, sha, csi, ht);
    FoundIs(Lookup(Blob(Rows(sign, 0, 1 + |positions|, hts)), ht, csi), sign(csi, ht), c, positions, ht in hts,
            tag, sha, ht, csi);
  }

  /**
   For any number of separators: under index 0 the hash for no separator executed, that is
   position 0xFFFFFFFF, under index k the one for the offset of the k-th separator opcode.
   */
  lemma TaprootLookup(c: Taproot.Call, tapscript: Option<Bytes>, hts: seq<Byte>, tag: Bytes, sha: Taproot.Sha,
                      ht: Byte, csi: nat)
    ensures TapPositions(tapscript) == if tapscript.Some? then ScriptWalk.Positions(tapscript.value) else []
    ensures var positions := TapPositions(tapscript);
      Lookup(Blob(TapTable(c, tapscript, hts, tag, sha)), ht, csi) ==
        if csi > |positions| || csi >= 0x1_0000 || ht !in hts then []
        else HashAt(c, ht, if csi == 0 then 0xFFFF_FFFF else positions[csi - 1] as int - 1, tag, sha)
  {
    TapRowsLookup(c, TapPositions(tapscript), hts, tag, sha, ht, csi);
  }
}
