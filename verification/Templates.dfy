/**
 For the standard templates the interpreter's verdict is a closed formula: the runs of
 P2WPKH and P2SH are worked out once, over every spend.
 */
module Templates {
  import opened ByteStrings
  import opened Stack
  import opened Semantics
  import opened Engine
  import opened ScriptNumbers
  import MultiSignature
  import Operations

  function Op(opcode: Byte): Item {
    Item(opcode, None)
  }

  function PubkeyHashItems(hash: Bytes): seq<Item> {
    [Op(OP_DUP), Op(OP_HASH160), Item(0x14, Some(hash)), Op(OP_EQUALVERIFY), Op(OP_CHECKSIG)]
  }

  function ScriptHashItems(hash: Bytes): seq<Item> {
    [Op(OP_HASH160), Item(0x14, Some(hash)), Op(OP_EQUAL)]
  }

  /** The library's iterator reads a 20-byte push between single-byte opcodes. */
  ghost predicate ParsesTemplates(lib: Library) {
    forall hash: Bytes :: |hash| == 20 ==>
      && lib.parse(WitnessToScriptCode(hash)) == Parsed(PubkeyHashItems(hash), false)
      && lib.parse([0xA9, 0x14] + hash + [0x87]) == Parsed(ScriptHashItems(hash), false)
  }

  /** One opcode above OP_16, outside control flow, with no branch open. */
  lemma OpStep(op: Byte, s: Stacks, ops: nat, ctx: Context)
    requires op > OP_ENDIF && ops < MAX_OPS_PER_SCRIPT
    ensures Step(Op(op), Config(s, [], ops), ctx) ==
      if Size(s) > MAX_STACK_SIZE then Err(StackSize)
      else if Execute(op, s, ctx).Err? then Err(Execute(op, s, ctx).error)
      else Ok(Config(Execute(op, s, ctx).value, [], ops + 1))
  {
  }

  lemma PushStep(data: Bytes, s: Stacks, ops: nat, ctx: Context)
    requires |data| == 20
    ensures Step(Item(0x14, Some(data)), Config(s, [], ops), ctx) ==
      Ok(Config(s.(main := s.main + [data]), [], ops))
  {
  }

  lemma DupTop(base: seq<Element>, x: Element, alt: seq<Element>, ctx: Context)
    ensures Execute(OP_DUP, Stacks(base + [x], alt), ctx) == Ok(Stacks(base + [x, x], alt))
  {
  }

  lemma HashLast(base: seq<Element>, x: Element, alt: seq<Element>, ctx: Context)
    ensures Execute(OP_HASH160, Stacks(base + [x], alt), ctx) == Ok(Stacks(base + [Hash160(ctx.lib, x)], alt))
  {
  }

  lemma EqualTopTwo(base: seq<Element>, x: Element, y: Element, alt: seq<Element>, ctx: Context)
    ensures Execute(OP_EQUAL, Stacks(base + [x, y], alt), ctx) == Ok(Stacks(base + [BoolElement(x == y)], alt))
    ensures x == y ==> Execute(OP_EQUALVERIFY, Stacks(base + [x, y], alt), ctx) == Ok(Stacks(base, alt))
  {
    Operations.TableOn(OP_EQUAL, Stacks(base + [x, y], alt), base, [x, y]);
    Operations.TableOn(OP_EQUALVERIFY, Stacks(base + [x, y], alt), base, [x, y]);
    assert base + [] == base;
  }

  // ---------------------------------------------------------------------------
  // Pay to witness public key hash
  // ---------------------------------------------------------------------------

  lemma CheckBottomTwo(sig: Element, pubkey: Element, ctx: Context)
    ensures Execute(OP_CHECKSIG, Stacks([sig, pubkey], []), ctx) ==
      if ctx.tx.None? then Err(ScriptInvalid)
      else Ok(Stacks([BoolElement(ctx.Verifies(sig, pubkey))], []))
  {
    var m := [sig, pubkey];
    assert Below(m) == [sig] && Below([sig]) == [] && Top(m) == pubkey;
    assert [] + [BoolElement(true)] == [BoolElement(true)];
    assert [] + [BoolElement(false)] == [BoolElement(false)];
  }

  /** The last two opcodes: equal hashes go, and the signature is checked. */
  lemma PubkeyHashEnd(sig: Element, pubkey: Element, hash: Bytes, ctx: Context)
    ensures Run([Op(OP_EQUALVERIFY), Op(OP_CHECKSIG)],
                Config(Stacks([sig, pubkey, hash, hash], []), [], 2), ctx) ==
      if ctx.tx.None? then Err(ScriptInvalid)
      else Ok(Config(Stacks([BoolElement(ctx.Verifies(sig, pubkey))], []), [], 4))
  {
    var s0, s3 := Stacks([sig, pubkey], []), Stacks([sig, pubkey, hash, hash], []);
    assert s3.main == [sig, pubkey] + [hash, hash];
    EqualTopTwo([sig, pubkey], hash, hash, [], ctx);
    OpStep(OP_EQUALVERIFY, s3, 2, ctx);
    RunCons(Op(OP_EQUALVERIFY), [Op(OP_CHECKSIG)], Config(s3, [], 2), ctx);
    CheckBottomTwo(sig, pubkey, ctx);
    OpStep(OP_CHECKSIG, s0, 3, ctx);
    RunCons(Op(OP_CHECKSIG), [], Config(s0, [], 3), ctx);
    assert [Op(OP_CHECKSIG)] + [] == [Op(OP_CHECKSIG)];
    assert [Op(OP_EQUALVERIFY)] + [Op(OP_CHECKSIG)] == [Op(OP_EQUALVERIFY), Op(OP_CHECKSIG)];
  }

  /** The opcodes before them: duplicate, hash, push. */
  lemma PubkeyHashStart(sig: Element, pubkey: Element, hash: Bytes, rest: seq<Item>, ctx: Context)
    requires |hash| == 20 && Hash160(ctx.lib, pubkey) == hash
    ensures Run([Op(OP_DUP)] + ([Op(OP_HASH160)] + ([Item(0x14, Some(hash))] + rest)),
                Config(Stacks([sig, pubkey], []), [], 0), ctx) ==
      Run(rest, Config(Stacks([sig, pubkey, hash, hash], []), [], 2), ctx)
  {
    var s0, s1 := Stacks([sig, pubkey], []), Stacks([sig, pubkey, pubkey], []);
    var s2 := Stacks([sig, pubkey, hash], []);
    var push := Item(0x14, Some(hash));
    assert s0.main == [sig] + [pubkey] && [sig] + [pubkey, pubkey] == s1.main;
    DupTop([sig], pubkey, [], ctx);
    OpStep(OP_DUP, s0, 0, ctx);
    RunCons(Op(OP_DUP), [Op(OP_HASH160)] + ([push] + rest), Config(s0, [], 0), ctx);
    assert s1.main == [sig, pubkey] + [pubkey] && [sig, pubkey] + [hash] == s2.main;
    HashLast([sig, pubkey], pubkey, [], ctx);
    OpStep(OP_HASH160, s1, 1, ctx);
    RunCons(Op(OP_HASH160), [push] + rest, Config(s1, [], 1), ctx);
    assert s2.main + [hash] == [sig, pubkey, hash, hash];
    PushStep(hash, s2, 2, ctx);
    RunCons(push, rest, Config(s2, [], 2), ctx);
  }

  lemma PubkeyHashRun(sig: Element, pubkey: Element, hash: Bytes, ctx: Context)
    requires |hash| == 20 && Hash160(ctx.lib, pubkey) == hash
    ensures Run(PubkeyHashItems(hash), Config(Stacks([sig, pubkey], []), [], 0), ctx) ==
      if ctx.tx.None? then Err(ScriptInvalid)
      else Ok(Config(Stacks([BoolElement(ctx.Verifies(sig, pubkey))], []), [], 4))
  {
    var last := [Op(OP_EQUALVERIFY), Op(OP_CHECKSIG)];
    assert PubkeyHashItems(hash) == [Op(OP_DUP)] + ([Op(OP_HASH160)] + ([Item(0x14, Some(hash))] + last));
    PubkeyHashStart(sig, pubkey, hash, last, ctx);
    PubkeyHashEnd(sig, pubkey, hash, ctx);
  }

  /** The templates as the byte strings they stand for. */
  lemma TemplateShapes(s: Bytes)
    ensures IsP2wpkh(s) <==> exists hash: Bytes :: |hash| == 20 && s == [0x00, 0x14] + hash
    ensures IsP2wsh(s) <==> exists hash: Bytes :: |hash| == 32 && s == [0x00, 0x20] + hash
    ensures IsP2sh(s) <==> exists hash: Bytes :: |hash| == 20 && s == [0xA9, 0x14] + hash + [0x87]
  {
    if IsP2wpkh(s) {
      assert s == [0x00, 0x14] + s[2..];
    }
    if IsP2wsh(s) {
      assert s == [0x00, 0x20] + s[2..];
    }
    if IsP2sh(s) {
      assert s == [0xA9, 0x14] + s[2..22] + [0x87];
    }
  }

  /**
   The witness is a signature and a key that hashes to the program, and the signature is
   the key's on the SegWit digest of the pay-to-public-key-hash script, amount included.
   */
  predicate SignsFor(lib: Library, spend: Spend, hash: Bytes) {
    && |spend.witnessItems| == 2
    && lib.ripemd160(lib.sha256(spend.witnessItems[1])) == hash
    && spend.tx.Some?
    && MultiSignature.Signed(lib, [0x76, 0xA9, 0x14] + hash + [0x88, 0xAC], spend.tx.value, spend.inputIndex,
                             Some(spend.inputValue), spend.witnessItems[0], spend.witnessItems[1])
  }

  /** The run succeeds and leaves a number that is not zero on top. */
  predicate LeavesTrue(r: Result<Stacks>) {
    r.Ok? && r.value.main != [] && Decode(r.value.main[|r.value.main| - 1]) != 0
  }

  /**
   The last witness item hashes to the program and runs to true on exactly the others, as
   script code and under SegWit.
   */
  predicate Opens(lib: Library, spend: Spend, hash: Bytes) {
    && spend.witnessItems != []
    && var n := |spend.witnessItems| - 1;
       var script := spend.witnessItems[n];
       && lib.sha256(script) == hash
       && LeavesTrue(RunScript(
            script, Stacks(spend.witnessItems[..n], []),
            Context(lib, spend.tx, spend.inputIndex, spend.inputValue, script, true)))
  }

  /** A P2WPKH run accepts exactly what signs for the program. */
  lemma P2wpkhClosedForm(lib: Library, spend: Spend, program: Bytes)
    requires ParsesTemplates(lib) && IsP2wpkh(program)
    ensures P2wpkhAccepts(lib, spend, program) <==> SignsFor(lib, spend, program[2..])
  {
    var hash := program[2..];
    var code := WitnessToScriptCode(hash);
    var ctx := ContextOf(lib, spend, code, true);
    if |spend.witnessItems| == 2 && Hash160(lib, spend.witnessItems[1]) == hash {
      var sig, pubkey := spend.witnessItems[0], spend.witnessItems[1];
      assert spend.witnessItems == [sig, pubkey];
      PubkeyHashRun(sig, pubkey, hash, ctx);
      if spend.tx.Some? {
        Operations.BoolIsTruthy(ctx.Verifies(sig, pubkey));
      }
    }
  }

  /** A P2WSH helper accepts exactly what opens the program. */
  lemma P2wshClosedForm(lib: Library, spend: Spend, program: Bytes)
    requires IsP2wsh(program)
    ensures P2wshAccepts(lib, spend, program) <==> Opens(lib, spend, program[2..])
  {
  }

  // ---------------------------------------------------------------------------
  // Pay to script hash
  // ---------------------------------------------------------------------------

  lemma HashStep(s: Stacks, ctx: Context)
    ensures Step(Op(OP_HASH160), Config(s, [], 0), ctx) ==
      if Size(s) > MAX_STACK_SIZE then Err(StackSize)
      else if s.main == [] then Err(StackUnderflow)
      else Ok(Config(s.(main := Below(s.main) + [Hash160(ctx.lib, Top(s.main))]), [], 1))
  {
  }

  lemma ScriptHashStart(s: Stacks, rest: seq<Item>, ctx: Context)
    ensures Run([Op(OP_HASH160)] + rest, Config(s, [], 0), ctx) ==
      if Size(s) > MAX_STACK_SIZE then Err(StackSize)
      else if s.main == [] then Err(StackUnderflow)
      else Run(rest, Config(s.(main := Below(s.main) + [Hash160(ctx.lib, Top(s.main))]), [], 1), ctx)
  {
    HashStep(s, ctx);
    RunCons(Op(OP_HASH160), rest, Config(s, [], 0), ctx);
  }

  /** Running the P2SH template: the top is replaced by whether it hashes to `hash`. */
  lemma ScriptHashRun(hash: Bytes, s: Stacks, ctx: Context)
    requires |hash| == 20
    ensures Run(ScriptHashItems(hash), Config(s, [], 0), ctx) ==
      if Size(s) > MAX_STACK_SIZE then Err(StackSize)
      else if s.main == [] then Err(StackUnderflow)
      else if Size(s) == MAX_STACK_SIZE then Err(StackSize)
      else Ok(Config(s.(main := Below(s.main) + [BoolElement(Hash160(ctx.lib, Top(s.main)) == hash)]), [], 2))
  {
    var rest := [Item(0x14, Some(hash))] + [Op(OP_EQUAL)];
    assert ScriptHashItems(hash) == [Op(OP_HASH160)] + rest;
    ScriptHashStart(s, rest, ctx);
    if s.main != [] {
      ScriptHashEnd(hash, Below(s.main), Hash160(ctx.lib, Top(s.main)), s.alt, ctx);
    }
  }

  lemma ScriptHashEnd(hash: Bytes, base: seq<Element>, digest: Element, alt: seq<Element>, ctx: Context)
    requires |hash| == 20
    ensures Run([Item(0x14, Some(hash))] + [Op(OP_EQUAL)], Config(Stacks(base + [digest], alt), [], 1), ctx) ==
      if |base| + 2 + |alt| > MAX_STACK_SIZE then Err(StackSize)
      else Ok(Config(Stacks(base + [BoolElement(digest == hash)], alt), [], 2))
  {
    var s1, s2 := Stacks(base + [digest], alt), Stacks(base + [digest, hash], alt);
    assert s1.main + [hash] == s2.main;
    PushStep(hash, s1, 1, ctx);
    RunCons(Item(0x14, Some(hash)), [Op(OP_EQUAL)], Config(s1, [], 1), ctx);
    EqualTopTwo(base, digest, hash, alt, ctx);
    OpStep(OP_EQUAL, s2, 1, ctx);
    RunCons(Op(OP_EQUAL), [], Config(s2, [], 1), ctx);
    assert [Op(OP_EQUAL)] + [] == [Op(OP_EQUAL)];
  }

  /** What the redeem script decides once the hash has matched, outside nested SegWit. */
  predicate RedeemRuns(lib: Library, spend: Spend, s: Stacks)
    requires s.main != []
  {
    var n := |s.main| - 1;
    LeavesTrue(RunScript(
      s.main[n], Stacks(s.main[..n], s.alt),
      Context(lib, spend.tx, spend.inputIndex, spend.inputValue, s.main[n], false)))
  }

  /** Neither flagged nor shaped as a witness program. */
  predicate PlainRedeem(spend: Spend, redeem: Bytes) {
    !spend.witnessFlag || (!IsP2wpkh(redeem) && !IsP2wsh(redeem))
  }

  /** What a 23-byte P2SH script makes of a stack. */
  lemma ScriptHashVerdict(script: Bytes, s: Stacks, ctx: Context)
    requires ParsesTemplates(ctx.lib) && IsP2sh(script)
    ensures var r := RunScript(script, s, ctx);
      && (EndsTrue(r) <==>
           && s.main != []
           && Size(s) < MAX_STACK_SIZE
           && Hash160(ctx.lib, Top(s.main)) == script[2..22])
      && (r.Ok? ==> r.value.alt == s.alt)
  {
    var hash := script[2..22];
    assert script == [0xA9, 0x14] + hash + [0x87];
    ScriptHashRun(hash, s, ctx);
    if s.main != [] {
      Operations.BoolIsTruthy(Hash160(ctx.lib, Top(s.main)) == hash);
    }
  }

  /**
   A P2SH spend is valid iff the scriptSig runs, leaves room for one more element,
   its top hashes to the committed hash, and the redeem script then accepts the rest.
   */
  lemma P2shClosedForm(lib: Library, spend: Spend)
    requires ParsesTemplates(lib)
    requires spend.p2shFlag && IsP2sh(spend.scriptPubkey)
    ensures var hash := spend.scriptPubkey[2..22];
      var first := RunScript(
        spend.scriptSig, Stacks([], []), ContextOf(lib, spend, spend.scriptPubkey, false));
      LegacyAccepts(lib, spend) <==>
        && first.Ok?
        && first.value.main != []
        && Size(first.value) < MAX_STACK_SIZE
        && Hash160(lib, Top(first.value.main)) == hash
        && RedeemAccepts(lib, spend, first.value.main, first.value.alt)
  {
    var ctx := ContextOf(lib, spend, spend.scriptPubkey, false);
    var first := RunScript(spend.scriptSig, Stacks([], []), ctx);
    if first.Ok? {
      ScriptHashVerdict(spend.scriptPubkey, first.value, ctx);
    }
  }

  /** The redeem step itself: run the script, or a witness formula when nested. */
  lemma RedeemClosedForm(lib: Library, spend: Spend, s: Stacks)
    requires ParsesTemplates(lib) && s.main != []
    ensures PlainRedeem(spend, Top(s.main)) ==>
      (RedeemAccepts(lib, spend, s.main, s.alt) <==> RedeemRuns(lib, spend, s))
    ensures spend.witnessFlag && IsP2wpkh(Top(s.main)) ==>
      (RedeemAccepts(lib, spend, s.main, s.alt) <==> SignsFor(lib, spend, Top(s.main)[2..]))
    ensures spend.witnessFlag && IsP2wsh(Top(s.main)) ==>
      (RedeemAccepts(lib, spend, s.main, s.alt) <==> Opens(lib, spend, Top(s.main)[2..]))
  {
    if IsP2wpkh(Top(s.main)) {
      P2wpkhClosedForm(lib, spend, Top(s.main));
    }
  }

  // ---------------------------------------------------------------------------
  // Full verification
  // ---------------------------------------------------------------------------

  /** A native P2WPKH input is valid iff its scriptSig is empty and its witness signs for the program. */
  lemma P2wpkhAccepted(lib: Library, spend: Spend, hash: Bytes)
    requires ParsesTemplates(lib) && spend.witnessFlag
    requires |hash| == 20 && spend.scriptPubkey == [0x00, 0x14] + hash
    ensures Accepts(lib, spend) <==> spend.scriptSig == [] && SignsFor(lib, spend, hash)
  {
    assert spend.scriptPubkey[2..] == hash;
    P2wpkhClosedForm(lib, spend, spend.scriptPubkey);
  }

  /** A native P2WSH input is valid iff its scriptSig is empty and its witness opens the program. */
  lemma P2wshAccepted(lib: Library, spend: Spend, hash: Bytes)
    requires spend.witnessFlag && |hash| == 32 && spend.scriptPubkey == [0x00, 0x20] + hash
    ensures Accepts(lib, spend) <==> spend.scriptSig == [] && Opens(lib, spend, hash)
  {
    assert spend.scriptPubkey[2..] == hash;
    P2wshClosedForm(lib, spend, spend.scriptPubkey);
  }

  /** The run of a legacy scriptSig, with the output script as script code. */
  function FirstRun(lib: Library, spend: Spend): Result<Stacks> {
    RunScript(spend.scriptSig, Stacks([], []),
              Context(lib, spend.tx, spend.inputIndex, spend.inputValue, spend.scriptPubkey, false))
  }

  /** The scriptSig leaves room for one more element and, on top, a string that hashes to this. */
  predicate Unlocks(lib: Library, spend: Spend, hash: Bytes) {
    var first := FirstRun(lib, spend);
    && |spend.scriptSig| <= 10_000
    && first.Ok?
    && first.value.main != []
    && |first.value.main| + |first.value.alt| < 1_000
    && lib.ripemd160(lib.sha256(first.value.main[|first.value.main| - 1])) == hash
  }

  /**
   A P2SH input is valid iff the scriptSig leaves the committed redeem script on top, with
   room for one more element, and then: the witness signs for it or opens it if it is a
   witness program and those are enabled; it runs to true on the rest otherwise.
   */
  lemma P2shAccepted(lib: Library, spend: Spend, hash: Bytes)
    requires ParsesTemplates(lib) && spend.p2shFlag
    requires |hash| == 20 && spend.scriptPubkey == [0xA9, 0x14] + hash + [0x87]
    ensures Accepts(lib, spend) <==>
      && Unlocks(lib, spend, hash)
      && var s := FirstRun(lib, spend).value;
         var redeem := s.main[|s.main| - 1];
         if spend.witnessFlag && IsP2wpkh(redeem) then SignsFor(lib, spend, redeem[2..])
         else if spend.witnessFlag && IsP2wsh(redeem) then Opens(lib, spend, redeem[2..])
         else RedeemRuns(lib, spend, s)
  {
    assert spend.scriptPubkey[2..22] == hash;
    P2shClosedForm(lib, spend);
    var first := FirstRun(lib, spend);
    if first.Ok? && first.value.main != [] {
      RedeemClosedForm(lib, spend, first.value);
    }
  }

  /**
   Any other input, or one whose rule is not enabled, is valid iff both scripts are short
   enough and the output script runs to true on both stacks of the scriptSig.
   */
  lemma PlainAccepted(lib: Library, spend: Spend)
    requires spend.witnessFlag ==> !IsP2wpkh(spend.scriptPubkey) && !IsP2wsh(spend.scriptPubkey)
    requires spend.p2shFlag ==> !IsP2sh(spend.scriptPubkey)
    ensures Accepts(lib, spend) <==>
      && |spend.scriptSig| <= 10_000 && |spend.scriptPubkey| <= 10_000
      && var first := FirstRun(lib, spend);
         && first.Ok?
         && LeavesTrue(RunScript(
              spend.scriptPubkey, first.value,
              Context(lib, spend.tx, spend.inputIndex, spend.inputValue, spend.scriptPubkey, false)))
  {
  }
}
