/**
 Walking raw script bytes opcode by opcode. Removal of OP_CODESEPARATOR, its positions
 and the extraction of pushes share one grammar, truncated pushes included: a byte
 string is read in one way only as a list of opcodes with their data.
 */
module ScriptWalk {
  import opened ByteStrings

  const CODESEPARATOR: Byte := 0xAB

  // ---------------------------------------------------------------------------
  // The grammar
  // ---------------------------------------------------------------------------

  /** An opcode with its length field, and the data that is really there. */
  datatype Token = Token(header: Bytes, data: Bytes, push: bool) {
    function Text(): Bytes {
      header + data
    }
  }

  /** All n announced bytes, or fewer because the script ends. */
  predicate Filled(n: nat, data: Bytes, rest: Bytes) {
    |data| == n || (|data| < n && rest == [])
  }

  /** The bytes a PUSHDATA opcode needs for its length; 0 for any other opcode. */
  function LengthWidth(op: Byte): nat {
    if op == 0x4C then 1 else if op == 0x4D then 2 else if op == 0x4E then 4 else 0
  }

  /**
   t is the first opcode of its text followed by `rest`. A PUSHDATA opcode whose
   length field is cut off stands for itself and has no data.
   */
  predicate IsFirst(t: Token, rest: Bytes) {
    && t.header != []
    && var op, w := t.header[0], LengthWidth(t.header[0]);
       if 1 <= op <= 75 then t.push && |t.header| == 1 && Filled(op, t.data, rest)
       else if !t.push then |t.header| == 1 && t.data == [] && (w > 0 ==> |rest| < w)
       else
         && w > 0 && |t.header| == 1 + w
         && Filled(
              if w == 1 then t.header[1]
              else if w == 2 then Le2(t.header[1], t.header[2])
              else Le4(t.header[1], t.header[2], t.header[3], t.header[4]),
              t.data, rest)
  }

  function Text(tokens: seq<Token>): Bytes {
    if tokens == [] then [] else tokens[0].Text() + Text(tokens[1..])
  }

  /** Every token is the first opcode of what starts with it. */
  predicate Reads(tokens: seq<Token>) {
    tokens == [] || (IsFirst(tokens[0], Text(tokens[1..])) && Reads(tokens[1..]))
  }

  // ---------------------------------------------------------------------------
  // Reading exists and is unique
  // ---------------------------------------------------------------------------

  function Take(s: Bytes, n: nat): Bytes {
    if n <= |s| then s[..n] else s
  }

  function FirstToken(s: Bytes): Token
    requires s != []
  {
    var op, w := s[0], LengthWidth(s[0]);
    if 1 <= op <= 75 then Token([op], Take(s[1..], op), true)
    else if w == 0 || |s| <= w then Token([op], [], false)
    else if w == 1 then Token([op, s[1]], Take(s[2..], s[1]), true)
    else if w == 2 then Token([op, s[1], s[2]], Take(s[3..], Le2(s[1], s[2])), true)
    else Token([op, s[1], s[2], s[3], s[4]], Take(s[5..], Le4(s[1], s[2], s[3], s[4])), true)
  }

  lemma FirstTokenFits(s: Bytes)
    requires s != []
    ensures var t := FirstToken(s);
      && 1 <= |t.Text()| <= |s| && t.Text() == s[..|t.Text()|]
      && IsFirst(t, s[|t.Text()|..])
  {
  }

  lemma FirstTokenUnique(t: Token, rest: Bytes)
    requires IsFirst(t, rest)
    ensures FirstToken(t.Text() + rest) == t
  {
    var s, h := t.Text() + rest, |t.header|;
    Assoc(t.header, t.data, rest);
    assert s[..h] == t.header && s[h..] == t.data + rest;
    assert Take(t.data + rest, |t.data|) == t.data;
  }

  function Tokens(s: Bytes): seq<Token>
    decreases |s|
  {
    if s == [] then []
    else
      FirstTokenFits(s);
      [FirstToken(s)] + Tokens(s[|FirstToken(s).Text()|..])
  }

  lemma {:induction false} TokensRead(s: Bytes)
    ensures Text(Tokens(s)) == s && Reads(Tokens(s))
    decreases |s|
  {
    if s != [] {
      FirstTokenFits(s);
      TokensRead(s[|FirstToken(s).Text()|..]);
    }
  }

  lemma {:induction false} TokensUnique(tokens: seq<Token>)
    requires Reads(tokens)
    ensures Tokens(Text(tokens)) == tokens
  {
    if tokens != [] {
      var t, rest := tokens[0], Text(tokens[1..]);
      FirstTokenUnique(t, rest);
      TokensUnique(tokens[1..]);
      assert (t.Text() + rest)[|t.Text()|..] == rest;
    }
  }

  /** A reading survives shortening what follows: no opcode changes its extent. */
  lemma ShorterRest(t: Token, rest: Bytes, rest': Bytes)
    requires IsFirst(t, rest) && |rest'| <= |rest|
    ensures IsFirst(t, rest')
  {
  }

  // ---------------------------------------------------------------------------
  // What the walkers compute
  // ---------------------------------------------------------------------------

  predicate IsSeparator(t: Token) {
    t.header == [CODESEPARATOR]
  }

  function Kept(tokens: seq<Token>): seq<Token> {
    if tokens == [] then []
    else (if IsSeparator(tokens[0]) then [] else [tokens[0]]) + Kept(tokens[1..])
  }

  /** Where each separator ends, counting from `base`. */
  function Ends(tokens: seq<Token>, base: nat): seq<nat> {
    if tokens == [] then []
    else
      var next := base + |tokens[0].Text()|;
      (if IsSeparator(tokens[0]) then [next] else []) + Ends(tokens[1..], next)
  }

  function Data(tokens: seq<Token>): seq<Bytes> {
    if tokens == [] then []
    else (if tokens[0].push then [tokens[0].data] else []) + Data(tokens[1..])
  }

  function Remove(s: Bytes): Bytes {
    Text(Kept(Tokens(s)))
  }

  function Positions(s: Bytes): seq<nat> {
    Ends(Tokens(s), 0)
  }

  function Pushes(s: Bytes): seq<Bytes> {
    Data(Tokens(s))
  }

  lemma SeparatorAlone(t: Token, rest: Bytes)
    requires IsFirst(t, rest)
    ensures t.Text() != [] && t.Text()[0] == t.header[0]
    ensures IsSeparator(t) <==> t.header[0] == CODESEPARATOR
    ensures IsSeparator(t) ==> t.Text() == [CODESEPARATOR] && !t.push
  {
  }

  lemma KeptHead(tokens: seq<Token>)
    requires tokens != []
    ensures IsSeparator(tokens[0]) ==> Kept(tokens) == Kept(tokens[1..])
    ensures !IsSeparator(tokens[0]) ==>
      Kept(tokens) != [] && Kept(tokens)[0] == tokens[0] && Kept(tokens)[1..] == Kept(tokens[1..])
  {
  }

  lemma {:induction false} KeptShortens(tokens: seq<Token>, base: nat)
    requires Reads(tokens)
    ensures |Text(Kept(tokens))| + |Ends(tokens, base)| == |Text(tokens)|
  {
    if tokens != [] {
      KeptShortens(tokens[1..], base + |tokens[0].Text()|);
      KeptHead(tokens);
      SeparatorAlone(tokens[0], Text(tokens[1..]));
    }
  }

  lemma {:induction false} KeptReads(tokens: seq<Token>)
    requires Reads(tokens)
    ensures Reads(Kept(tokens))
  {
    if tokens != [] {
      KeptReads(tokens[1..]);
      KeptHead(tokens);
      KeptShortens(tokens[1..], 0);
      ShorterRest(tokens[0], Text(tokens[1..]), Text(Kept(tokens[1..])));
    }
  }

  lemma {:induction false} KeptPushes(tokens: seq<Token>)
    requires Reads(tokens)
    ensures Data(Kept(tokens)) == Data(tokens)
  {
    if tokens != [] {
      KeptHead(tokens);
      SeparatorAlone(tokens[0], Text(tokens[1..]));
      KeptPushes(tokens[1..]);
    }
  }

  lemma {:induction false} KeptTwice(tokens: seq<Token>)
    ensures Kept(Kept(tokens)) == Kept(tokens)
  {
    if tokens != [] {
      KeptHead(tokens);
      KeptTwice(tokens[1..]);
      if !IsSeparator(tokens[0]) {
        KeptHead(Kept(tokens));
        assert Kept(tokens) == [tokens[0]] + Kept(tokens[1..]);
      }
    }
  }

  lemma {:induction false} KeptHasNoEnds(tokens: seq<Token>, base: nat)
    ensures Ends(Kept(tokens), base) == []
    decreases |tokens|
  {
    if tokens != [] {
      KeptHead(tokens);
      KeptHasNoEnds(tokens[1..], if IsSeparator(tokens[0]) then base else base + |tokens[0].Text()|);
    }
  }

  /** No separator is left, removing again changes nothing, every push survives. */
  lemma RemoveClean(s: Bytes)
    ensures Positions(Remove(s)) == []
    ensures Remove(Remove(s)) == Remove(s)
    ensures Pushes(Remove(s)) == Pushes(s)
    ensures |Remove(s)| == |s| - |Positions(s)|
  {
    TokensRead(s);
    KeptReads(Tokens(s));
    KeptShortens(Tokens(s), 0);
    KeptPushes(Tokens(s));
    KeptTwice(Tokens(s));
    KeptHasNoEnds(Tokens(s), 0);
    TokensUnique(Kept(Tokens(s)));
  }

  // ---------------------------------------------------------------------------
  // Splitting after a separator
  // ---------------------------------------------------------------------------

  lemma {:induction false} TextAppend(a: seq<Token>, b: seq<Token>)
    ensures Text(a + b) == Text(a) + Text(b)
  {
    if a == [] {
      assert a + b == b;
    } else {
      TextAppend(a[1..], b);
      assert (a + b)[1..] == a[1..] + b;
      Assoc(a[0].Text(), Text(a[1..]), Text(b));
    }
  }

  lemma {:induction false} KeptAppend(a: seq<Token>, b: seq<Token>)
    ensures Kept(a + b) == Kept(a) + Kept(b)
  {
    if a == [] {
      assert a + b == b;
    } else {
      KeptAppend(a[1..], b);
      assert (a + b)[1..] == a[1..] + b;
      Assoc(if IsSeparator(a[0]) then [] else [a[0]], Kept(a[1..]), Kept(b));
    }
  }

  lemma {:induction false} FrontReads(a: seq<Token>, b: seq<Token>)
    requires Reads(a + b)
    ensures Reads(a) && Reads(b)
  {
    if a == [] {
      assert a + b == b;
    } else {
      assert (a + b)[1..] == a[1..] + b;
      FrontReads(a[1..], b);
      TextAppend(a[1..], b);
      ShorterRest(a[0], Text(a[1..] + b), Text(a[1..]));
    }
  }

  /** The token list splits where a position says a separator ends. */
  lemma {:induction false} EndsSplit(tokens: seq<Token>, base: nat, bp: nat) returns (a: seq<Token>, b: seq<Token>)
    requires Reads(tokens) && bp in Ends(tokens, base)
    ensures tokens == a + b && base + |Text(a)| == bp
    ensures a != [] && IsSeparator(a[|a| - 1]) && a[|a| - 1].data == []
  {
    var next := base + |tokens[0].Text()|;
    if IsSeparator(tokens[0]) && bp == next {
      a, b := [tokens[0]], tokens[1..];
    } else {
      var rest;
      rest, b := EndsSplit(tokens[1..], next, bp);
      a := [tokens[0]] + rest;
      assert a[1..] == rest;
    }
  }

  lemma RemoveOfParts(a: seq<Token>, b: seq<Token>)
    requires Reads(a + b)
    ensures Text(a + b) == Text(a) + Text(b)
    ensures Remove(Text(a + b)) == Remove(Text(a)) + Remove(Text(b))
  {
    FrontReads(a, b);
    TokensUnique(a + b);
    TokensUnique(a);
    TokensUnique(b);
    TextAppend(a, b);
    KeptAppend(a, b);
    TextAppend(Kept(a), Kept(b));
  }

  lemma EndsInSeparator(a: seq<Token>)
    requires a != [] && IsSeparator(a[|a| - 1]) && a[|a| - 1].data == []
    ensures Text(a) != [] && Text(a)[|Text(a)| - 1] == CODESEPARATOR
  {
    var t := a[|a| - 1];
    assert a == a[..|a| - 1] + [t];
    TextAppend(a[..|a| - 1], [t]);
    assert Text([t]) == [CODESEPARATOR] + [];
  }

  /** Splitting a script right after any separator splits the removal. */
  lemma RemoveSplits(s: Bytes, bp: nat)
    requires bp in Positions(s)
    ensures 1 <= bp <= |s| && s[bp - 1] == CODESEPARATOR
    ensures Remove(s) == Remove(s[..bp]) + Remove(s[bp..])
  {
    TokensRead(s);
    var a, b := EndsSplit(Tokens(s), 0, bp);
    RemoveOfParts(a, b);
    EndsInSeparator(a);
    SplitAt(s, Text(a), Text(b), bp);
  }

  lemma SplitAt(s: Bytes, x: Bytes, y: Bytes, bp: nat)
    requires s == x + y && bp == |x|
    ensures s[..bp] == x && s[bp..] == y && (x != [] ==> s[bp - 1] == x[bp - 1])
  {
  }

  // ---------------------------------------------------------------------------
  // The K form of the same removal
  // ---------------------------------------------------------------------------

  function KOpcodeLen(b: Bytes, i: nat): nat
    requires i < |b|
  {
    if 1 <= b[i] <= 75 then 1 + b[i]
    else if b[i] == 76 && i + 1 < |b| then 2 + b[i + 1]
    else if b[i] == 77 && i + 3 <= |b| then 3 + LeValue(b[i + 1..i + 3])
    else if b[i] == 78 && i + 5 <= |b| then 5 + LeValue(b[i + 1..i + 5])
    else 1
  }

  function MinInt(a: nat, b: nat): nat {
    if a <= b then a else b
  }

  function DropCodesepsAcc(b: Bytes, i: nat, acc: Bytes): Bytes
    decreases |b| - i
  {
    if i >= |b| then acc
    else if b[i] == 171 then DropCodesepsAcc(b, i + 1, acc)
    else
      var end := MinInt(i + KOpcodeLen(b, i), |b|);
      DropCodesepsAcc(b, end, acc + b[i..end])
  }

  lemma KLengthIsText(b: Bytes, i: nat)
    requires i < |b|
    ensures MinInt(i + KOpcodeLen(b, i), |b|) == i + |FirstToken(b[i..]).Text()|
  {
    if b[i] == 77 && i + 3 <= |b| {
      LengthFields(b[i + 1..i + 3]);
    } else if b[i] == 78 && i + 5 <= |b| {
      LengthFields(b[i + 1..i + 5]);
    }
  }

  lemma TokenAt(b: Bytes, i: nat) returns (t: Token, j: nat)
    requires i < |b|
    ensures i < j <= |b| && t.Text() == b[i..j] && IsFirst(t, b[j..])
    ensures Tokens(b[i..]) == [t] + Tokens(b[j..])
    ensures IsSeparator(t) <==> b[i] == 171
    ensures j == MinInt(i + KOpcodeLen(b, i), |b|) && (IsSeparator(t) ==> j == i + 1)
  {
    var s := b[i..];
    t := FirstToken(s);
    FirstTokenFits(s);
    KLengthIsText(b, i);
    j := i + |t.Text()|;
    assert s[|t.Text()|..] == b[j..] && t.Text() == b[i..j];
    SeparatorAlone(t, b[j..]);
  }

  lemma TextKeptStep(t: Token, rest: seq<Token>)
    ensures Text(Kept([t] + rest)) == (if IsSeparator(t) then [] else t.Text()) + Text(Kept(rest))
  {
    assert ([t] + rest)[1..] == rest;
    KeptHead([t] + rest);
  }

  /** One opcode of the K walker. */
  lemma DropStep(b: Bytes, i: nat, acc: Bytes) returns (j: nat, acc': Bytes)
    requires i < |b|
    ensures i < j <= |b| && DropCodesepsAcc(b, i, acc) == DropCodesepsAcc(b, j, acc')
    ensures acc + Text(Kept(Tokens(b[i..]))) == acc' + Text(Kept(Tokens(b[j..])))
  {
    var t;
    t, j := TokenAt(b, i);
    var kept := Text(Kept(Tokens(b[j..])));
    TextKeptStep(t, Tokens(b[j..]));
    if IsSeparator(t) {
      acc' := acc;
      assert [] + kept == kept;
    } else {
      acc' := acc + b[i..j];
      Assoc(acc, b[i..j], kept);
    }
  }

  /** The accumulating K walker removes exactly what the Python walker removes. */
  lemma {:induction false} DropCodesepsAgrees(b: Bytes, i: nat, acc: Bytes)
    requires i <= |b|
    ensures DropCodesepsAcc(b, i, acc) == acc + Text(Kept(Tokens(b[i..])))
    decreases |b| - i
  {
    if i < |b| {
      var j, acc' := DropStep(b, i, acc);
      DropCodesepsAgrees(b, j, acc');
    } else {
      assert b[i..] == [] && acc + [] == acc;
    }
  }

  lemma KRemovalAgrees(s: Bytes)
    ensures DropCodesepsAcc(s, 0, []) == Remove(s)
  {
    assert s[0..] == s;
    DropCodesepsAgrees(s, 0, []);
  }

  // ---------------------------------------------------------------------------
  // The push encoder
  // ---------------------------------------------------------------------------

  /** The smallest push, as header and data; a length that does not fit four bytes has none. */
  function PushToken(data: Bytes): Option<Token> {
    var n := |data|;
    if n == 0 then Some(Token([0x00], [], false))
    else if n <= 75 then Some(Token([n], data, true))
    else if n <= 0xFF then Some(Token([0x4C, n], data, true))
    else if n <= 0xFFFF then Some(Token([0x4D] + LeBytes(n, 2), data, true))
    else if n < 0x1_0000_0000 then Some(Token([0x4E] + LeBytes(n, 4), data, true))
    else None
  }

  function PushTokens(items: seq<Bytes>): Option<seq<Token>> {
    if items == [] then Some([])
    else
      var first, rest := PushToken(items[0]), PushTokens(items[1..]);
      if first.None? || rest.None? then None else Some([first.value] + rest.value)
  }

  lemma PushTokenReads(data: Bytes, rest: Bytes)
    requires PushToken(data).Some?
    ensures IsFirst(PushToken(data).value, rest) && !IsSeparator(PushToken(data).value)
  {
    var n := |data|;
    Pow256Small();
    if 0xFF < n <= 0xFFFF {
      LeValueOfBytes(n, 2);
      LengthFields(LeBytes(n, 2));
    } else if 0xFFFF < n {
      LeValueOfBytes(n, 4);
      LengthFields(LeBytes(n, 4));
    }
  }

  /** No opcode pushes these bytes behind a shorter header. */
  lemma PushIsSmallest(t: Token, rest: Bytes)
    requires IsFirst(t, rest) && t.push
    ensures PushToken(t.data).Some? && |PushToken(t.data).value.header| <= |t.header|
    ensures PushToken(t.data).value.data == t.data
  {
  }

  function NonEmpty(items: seq<Bytes>): seq<Bytes> {
    if items == [] then [] else (if items[0] == [] then [] else [items[0]]) + NonEmpty(items[1..])
  }

  lemma {:induction false} PushTokensRead(items: seq<Bytes>)
    requires PushTokens(items).Some?
    ensures var tokens := PushTokens(items).value;
      Reads(tokens) && Data(tokens) == NonEmpty(items) && Kept(tokens) == tokens
  {
    if items != [] {
      var tokens := PushTokens(items).value;
      PushTokensRead(items[1..]);
      assert tokens[1..] == PushTokens(items[1..]).value;
      PushTokenReads(items[0], Text(tokens[1..]));
    }
  }

  /** Extraction inverts encoding, and no data byte is ever taken for a separator. */
  lemma PushRoundTrip(items: seq<Bytes>)
    requires PushTokens(items).Some?
    ensures var script := Text(PushTokens(items).value);
      Pushes(script) == NonEmpty(items) && Remove(script) == script
  {
    PushTokensRead(items);
    TokensUnique(PushTokens(items).value);
  }

  // ---------------------------------------------------------------------------
  // The loops
  // ---------------------------------------------------------------------------

  /** A Python slice: bounds past the end are brought back to it. */
  function Slice(s: Bytes, from: nat, to: nat): Bytes
    requires from <= to
  {
    if from >= |s| then [] else if to >= |s| then s[from..] else s[from..to]
  }

  /** What is left from `pos` on; the position may have run past the end. */
  function Rest(s: Bytes, pos: nat): Bytes {
    if pos >= |s| then [] else s[pos..]
  }

  lemma HeaderBytes(script: Bytes, pos: nat, t: Token, rest: Bytes)
    requires pos < |script| && script[pos..] == t.Text() + rest
    ensures forall k :: 0 <= k < |t.header| ==> script[pos + k] == t.header[k]
    ensures |script| == pos + |t.header| + |t.data| + |rest|
  {
  }

  /** The branches every walker shares: where the data of the opcode at `pos` is. */
  method ReadOpcode(script: Bytes, pos: nat, ghost t: Token, ghost rest: Bytes)
    returns (push: bool, dataPos: nat, n: nat)
    requires pos < |script| && script[pos..] == t.Text() + rest && IsFirst(t, rest)
    ensures push == t.push && dataPos > pos
    ensures Slice(script, pos, dataPos) == t.header && Slice(script, dataPos, dataPos + n) == t.data
    ensures Rest(script, dataPos + n) == rest
    ensures rest != [] ==> dataPos + n == pos + |t.Text()|
  {
    var op := script[pos];
    HeaderBytes(script, pos, t, rest);
    dataPos := pos + 1;
    if 1 <= op <= 75 {
      push, n := true, op;
    } else if op == 0x4C && dataPos < |script| {
      push, n := true, script[dataPos];
      dataPos := dataPos + 1;
    } else if op == 0x4D && dataPos + 1 < |script| {
      LengthFields(script[dataPos..dataPos + 2]);
      push, n := true, LeValue(script[dataPos..dataPos + 2]);
      dataPos := dataPos + 2;
    } else if op == 0x4E && dataPos + 3 < |script| {
      LengthFields(script[dataPos..dataPos + 4]);
      push, n := true, LeValue(script[dataPos..dataPos + 4]);
      dataPos := dataPos + 4;
    } else {
      push, n := false, 0;
    }
    DataBehindHeader(script, pos, dataPos, n, t, rest);
  }

  lemma DataBehindHeader(script: Bytes, pos: nat, dataPos: nat, n: nat, t: Token, rest: Bytes)
    requires pos < |script| && script[pos..] == t.Text() + rest
    requires dataPos == pos + |t.header| && Filled(n, t.data, rest)
    ensures Slice(script, pos, dataPos) == t.header && Slice(script, dataPos, dataPos + n) == t.data
    ensures Rest(script, dataPos + n) == rest
    ensures rest != [] ==> dataPos + n == pos + |t.Text()|
  {
  }

  /** `todo` is the reading of what is left from `pos` on. */
  ghost predicate Left(script: Bytes, pos: nat, todo: seq<Token>) {
    Reads(todo) && Text(todo) == Rest(script, pos)
  }

  lemma LeftStart(script: Bytes)
    ensures Left(script, 0, Tokens(script))
  {
    TokensRead(script);
  }

  /** The next opcode, and what is to be read after it. */
  lemma LeftStep(script: Bytes, pos: nat, todo: seq<Token>) returns (t: Token, next: seq<Token>)
    requires pos < |script| && Left(script, pos, todo)
    ensures todo == [t] + next && IsFirst(t, Text(next)) && script[pos..] == t.Text() + Text(next)
    ensures IsSeparator(t) <==> script[pos] == CODESEPARATOR
    ensures IsSeparator(t) ==> t.Text() == [CODESEPARATOR] && Rest(script, pos + 1) == Text(next)
    ensures Reads(next)
  {
    t, next := todo[0], todo[1..];
    SeparatorAlone(t, Text(next));
    if IsSeparator(t) {
      assert script[pos..][1..] == script[pos + 1..];
    }
  }

  lemma LeftEnd(script: Bytes, pos: nat, todo: seq<Token>)
    requires pos >= |script| && Left(script, pos, todo)
    ensures todo == []
  {
  }

  lemma DataStep(items: seq<Bytes>, t: Token, next: seq<Token>)
    ensures items + Data([t] + next) == (if t.push then items + [t.data] else items) + Data(next)
  {
    assert ([t] + next)[1..] == next;
    Assoc(items, [t.data], Data(next));
  }

  method ExtractPushData(script: Bytes) returns (items: seq<Bytes>)
    ensures items == Pushes(script)
  {
    items := [];
    ghost var whole := Pushes(script);
    var pos := 0;
    ghost var todo := Tokens(script);
    LeftStart(script);
    while pos < |script|
      invariant Left(script, pos, todo) && items + Data(todo) == whole
      decreases |script| - pos
    {
      ghost var t, next := LeftStep(script, pos, todo);
      DataStep(items, t, next);
      var push, dataPos, n := ReadOpcode(script, pos, t, Text(next));
      if push {
        items := items + [Slice(script, dataPos, dataPos + n)];
      }
      pos, todo := dataPos + n, next;
    }
    LeftEnd(script, pos, todo);
    assert items + [] == items;
  }

  function LastOf<T>(items: seq<T>): Option<T> {
    if items == [] then None else Some(items[|items| - 1])
  }

  method ExtractLastPush(script: Bytes) returns (last: Option<Bytes>)
    ensures last == var all := Pushes(script); if all == [] then None else Some(all[|all| - 1])
  {
    last := None;
    ghost var whole := Pushes(script);
    ghost var items: seq<Bytes> := [];
    var pos := 0;
    ghost var todo := Tokens(script);
    LeftStart(script);
    while pos < |script|
      invariant Left(script, pos, todo) && items + Data(todo) == whole
      invariant last == LastOf(items)
      decreases |script| - pos
    {
      ghost var t, next := LeftStep(script, pos, todo);
      DataStep(items, t, next);
      var push, dataPos, n := ReadOpcode(script, pos, t, Text(next));
      if push {
        last := Some(Slice(script, dataPos, dataPos + n));
        items := items + [last.value];
      }
      pos, todo := dataPos + n, next;
    }
    LeftEnd(script, pos, todo);
    assert items + [] == items;
  }

  lemma EndsStep(positions: seq<nat>, t: Token, next: seq<Token>, base: nat)
    ensures var end := base + |t.Text()|;
      positions + Ends([t] + next, base)
      == (if IsSeparator(t) then positions + [end] else positions) + Ends(next, end)
  {
    assert ([t] + next)[1..] == next;
    Assoc(positions, [base + |t.Text()|], Ends(next, base + |t.Text()|));
  }

  /** The positions found so far and those still to come are all of them. */
  ghost predicate Finding(script: Bytes, pos: nat, todo: seq<Token>, found: seq<nat>, whole: seq<nat>) {
    && Left(script, pos, todo)
    && found + (if todo == [] then [] else Ends(todo, pos)) == whole
  }

  lemma FindStep(script: Bytes, pos: nat, found: seq<nat>, whole: seq<nat>, t: Token, next: seq<Token>,
                 pos': nat, found': seq<nat>)
    requires Finding(script, pos, [t] + next, found, whole)
    requires found' == if IsSeparator(t) then found + [pos + |t.Text()|] else found
    requires Reads(next) && Rest(script, pos') == Text(next)
    requires Text(next) != [] ==> pos' == pos + |t.Text()|
    ensures Finding(script, pos', next, found', whole)
  {
    EndsStep(found, t, next, pos);
    if next != [] {
      NonEmptyText(next);
    }
  }

  method FindCodesepPositions(script: Bytes) returns (positions: seq<nat>)
    ensures positions == Positions(script)
  {
    positions := [];
    var pos := 0;
    ghost var whole := Positions(script);
    ghost var todo := Tokens(script);
    LeftStart(script);
    while pos < |script|
      invariant Finding(script, pos, todo, positions, whole)
      decreases |script| - pos
    {
      ghost var from, found := pos, positions;
      ghost var t, next := LeftStep(script, pos, todo);
      if script[pos] == 0xAB {
        pos := pos + 1;
        positions := positions + [pos];
      } else {
        var _, dataPos, n := ReadOpcode(script, pos, t, Text(next));
        pos := dataPos + n;
      }
      FindStep(script, from, found, whole, t, next, pos, positions);
      todo := next;
    }
    LeftEnd(script, pos, todo);
  }

  lemma NonEmptyText(tokens: seq<Token>)
    requires Reads(tokens) && tokens != []
    ensures Text(tokens) != []
  {
  }

  lemma RemoveStep(result: Bytes, t: Token, next: seq<Token>)
    ensures result + Text(Kept([t] + next)) ==
      (if IsSeparator(t) then result else result + t.header + t.data) + Text(Kept(next))
  {
    TextKeptStep(t, next);
    Assoc(result, t.header, t.data);
    Assoc(result, t.Text(), Text(Kept(next)));
  }

  method RemoveCodeseparators(script: Bytes) returns (result: Bytes)
    ensures result == Remove(script)
  {
    result := [];
    var pos := 0;
    ghost var whole := Remove(script);
    ghost var todo := Tokens(script);
    LeftStart(script);
    while pos < |script|
      invariant Left(script, pos, todo) && result + Text(Kept(todo)) == whole
      decreases |script| - pos
    {
      ghost var t, next := LeftStep(script, pos, todo);
      RemoveStep(result, t, next);
      if script[pos] == 0xAB {
        pos := pos + 1;
      } else {
        var _, dataPos, n := ReadOpcode(script, pos, t, Text(next));
        result := result + Slice(script, pos, dataPos);
        result := result + Slice(script, dataPos, dataPos + n);
        pos := dataPos + n;
      }
      todo := next;
    }
    LeftEnd(script, pos, todo);
    assert result + [] == result;
  }
}
