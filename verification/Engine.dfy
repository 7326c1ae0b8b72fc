/** The script virtual machine: the object, its execution loop and full verification. */
module Engine {
  import opened ByteStrings
  import opened ScriptNumbers
  import opened Stack
  import opened Semantics
  import Operations

  predicate IsP2sh(s: Bytes) {
    |s| == 23 && s[0] == 0xA9 && s[1] == 0x14 && s[22] == 0x87
  }

  predicate IsP2wpkh(s: Bytes) {
    |s| == 22 && s[0] == 0x00 && s[1] == 0x14
  }

  predicate IsP2wsh(s: Bytes) {
    |s| == 34 && s[0] == 0x00 && s[1] == 0x20
  }

  /** OP_DUP OP_HASH160 <hash> OP_EQUALVERIFY OP_CHECKSIG. */
  function WitnessToScriptCode(pubkeyHash: Bytes): Bytes {
    [0x76, 0xA9, 0x14] + pubkeyHash + [0x88, 0xAC]
  }

  // ---------------------------------------------------------------------------
  // What verification decides, as a function
  // ---------------------------------------------------------------------------

  /** One spend: what the caller of `verify` supplies, and the two flags it consults. */
  datatype Spend = Spend(
    scriptSig: Bytes, scriptPubkey: Bytes, tx: Option<Bytes>, inputIndex: int, inputValue: int,
    witnessItems: seq<Bytes>, witnessFlag: bool, p2shFlag: bool)

  function ContextOf(lib: Library, spend: Spend, scriptCode: Bytes, witnessV0: bool): Context {
    Context(lib, spend.tx, spend.inputIndex, spend.inputValue, scriptCode, witnessV0)
  }

  predicate EndsTrue(r: Result<Stacks>) {
    r.Ok? && r.value.main != [] && Truthy(Top(r.value.main))
  }

  predicate P2wpkhAccepts(lib: Library, spend: Spend, program: Bytes)
    requires IsP2wpkh(program)
  {
    && |spend.witnessItems| == 2
    && Hash160(lib, spend.witnessItems[1]) == program[2..]
    && var code := WitnessToScriptCode(program[2..]);
       EndsTrue(RunScript(code, Stacks(spend.witnessItems, []), ContextOf(lib, spend, code, true)))
  }

  predicate P2wshAccepts(lib: Library, spend: Spend, program: Bytes)
    requires IsP2wsh(program)
  {
    && spend.witnessItems != []
    && var script := spend.witnessItems[|spend.witnessItems| - 1];
       && lib.sha256(script) == program[2..]
       && EndsTrue(RunScript(
            script, Stacks(spend.witnessItems[..|spend.witnessItems| - 1], []), ContextOf(lib, spend, script, true)))
  }

  /** The second evaluation of P2SH, on the stack the scriptSig left; the alt stack carries over. */
  predicate RedeemAccepts(lib: Library, spend: Spend, saved: seq<Element>, alt: seq<Element>)
    requires saved != []
  {
    var redeem := saved[|saved| - 1];
    if spend.witnessFlag && IsP2wpkh(redeem) then P2wpkhAccepts(lib, spend, redeem)
    else if spend.witnessFlag && IsP2wsh(redeem) then P2wshAccepts(lib, spend, redeem)
    else EndsTrue(RunScript(redeem, Stacks(saved[..|saved| - 1], alt), ContextOf(lib, spend, redeem, false)))
  }

  predicate LegacyAccepts(lib: Library, spend: Spend) {
    var ctx := ContextOf(lib, spend, spend.scriptPubkey, false);
    var first := RunScript(spend.scriptSig, Stacks([], []), ctx);
    && first.Ok?
    && var second := RunScript(spend.scriptPubkey, first.value, ctx);
       && EndsTrue(second)
       && (spend.p2shFlag && IsP2sh(spend.scriptPubkey) && first.value.main != []
           ==> RedeemAccepts(lib, spend, first.value.main, second.value.alt))
  }

  predicate Accepts(lib: Library, spend: Spend) {
    && |spend.scriptSig| <= MAX_SCRIPT_SIZE
    && |spend.scriptPubkey| <= MAX_SCRIPT_SIZE
    && if spend.witnessFlag && IsP2wpkh(spend.scriptPubkey) then
         spend.scriptSig == [] && P2wpkhAccepts(lib, spend, spend.scriptPubkey)
       else if spend.witnessFlag && IsP2wsh(spend.scriptPubkey) then
         spend.scriptSig == [] && P2wshAccepts(lib, spend, spend.scriptPubkey)
       else LegacyAccepts(lib, spend)
  }

  // ---------------------------------------------------------------------------
  // The object
  // ---------------------------------------------------------------------------

  class ScriptEngine {
    const lib: Library
    const witnessFlag: bool
    const p2shFlag: bool
    var stack: ScriptStack
    var tx: Option<Bytes>
    var inputIndex: int
    var inputValue: int
    var scriptCode: Bytes
    var witnessV0: bool

    constructor (lib: Library, witnessFlag: bool, p2shFlag: bool)
      ensures fresh(stack) && stack.main == [] && stack.alt == []
      ensures this.lib == lib && this.witnessFlag == witnessFlag && this.p2shFlag == p2shFlag
      ensures tx == None && scriptCode == [] && !witnessV0
    {
      this.lib, this.witnessFlag, this.p2shFlag := lib, witnessFlag, p2shFlag;
      stack := new ScriptStack();
      tx, inputIndex, inputValue, scriptCode, witnessV0 := None, 0, 0, [], false;
    }

    function Ctx(): Context
      reads this
    {
      Context(lib, tx, inputIndex, inputValue, scriptCode, witnessV0)
    }

    method Reset()
      modifies this
      ensures fresh(stack) && stack.main == [] && stack.alt == []
      ensures Ctx() == Context(lib, None, 0, 0, [], false)
    {
      stack := new ScriptStack();
      tx, inputIndex, inputValue, scriptCode, witnessV0 := None, 0, 0, [], false;
    }

    method ExecuteOpcode(op: Byte) returns (r: Result<()>)
      modifies stack
      ensures Performs(Semantics.Execute(op, old(stack.View()), Ctx()), r, old(stack.View()), stack.View())
    {
      if IsInvalid(op) {
        return Err(ScriptInvalid);
      }
      if IsNop(op) || op == OP_CODESEPARATOR {
        return Ok(());
      }
      if op == OP_TOALTSTACK {
        var top :- stack.Pop();
        stack.PushAlt(top);
        return Ok(());
      }
      if op == OP_FROMALTSTACK {
        var top :- stack.PopAlt();
        stack.Push(top);
        return Ok(());
      }
      if op == OP_CHECKLOCKTIMEVERIFY || op == OP_CHECKSEQUENCEVERIFY {
        return if stack.main == [] then Err(VerifyFailed) else Ok(());
      }
      if OP_CHECKSIG <= op <= OP_CHECKMULTISIGVERIFY {
        if tx.None? {
          return Err(ScriptInvalid);
        }
        if op == OP_CHECKSIG {
          r := Operations.OpCheckSig(stack, Ctx());
        } else if op == OP_CHECKSIGVERIFY {
          r := Operations.OpCheckSigVerify(stack, Ctx());
        } else if op == OP_CHECKMULTISIG {
          r := Operations.OpCheckMultiSig(stack, Ctx());
        } else {
          r := Operations.OpCheckMultiSigVerify(stack, Ctx());
        }
        return;
      }
      if IsDisabled(op) {
        return Err(OpDisabled);
      }
      r := Operations.Dispatch(op, stack, lib);
    }

    /** Small-integer pushes, and everything else. */
    method ExecuteLive(op: Byte) returns (r: Result<()>)
      modifies stack
      ensures match Live(op, old(stack.View()), Ctx())
        case Err(e) => r == Err(e)
        case Ok(s) => r.Ok? && stack.View() == s
    {
      if op == OP_1NEGATE {
        var element := IntToElement(-1);
        stack.Push(element);
        return Ok(());
      }
      if OP_1 <= op <= OP_16 {
        var element := IntToElement(op as int - 0x50);
        stack.Push(element);
        return Ok(());
      }
      r := ExecuteOpcode(op);
    }

    /** The loop body: from one item to the condition list and op counter for the next. */
    method ExecuteItem(item: Item, cond: seq<bool>, ops: nat) returns (r: Result<(seq<bool>, nat)>)
      modifies stack
      ensures match Step(item, Config(old(stack.View()), cond, ops), Ctx())
        case Err(e) => r == Err(e)
        case Ok(c) => r == Ok((c.cond, c.ops)) && stack.View() == c.stacks
    {
      var executing := Executing(cond);
      if item.data.Some? {
        if executing {
          if |item.data.value| > MAX_ELEMENT_SIZE {
            return Err(PushSize);
          }
          stack.Push(item.data.value);
        }
        return Ok((cond, ops));
      }
      var count := ops;
      if item.opcode > OP_16 {
        count := count + 1;
        if count > MAX_OPS_PER_SCRIPT {
          return Err(OpCount);
        }
      }
      if |stack.main| + |stack.alt| > MAX_STACK_SIZE {
        return Err(StackSize);
      }
      if item.opcode == OP_IF || item.opcode == OP_NOTIF {
        var val := false;
        if executing {
          var top :- stack.Pop();
          var truth := ElementToBool(top);
          val := if item.opcode == OP_IF then truth else !truth;
        }
        return Ok((cond + [val], count));
      }
      if item.opcode == OP_ELSE {
        if cond == [] {
          return Err(Unbalanced);
        }
        if |cond| == 1 || Executing(cond[..|cond| - 1]) {
          return Ok((cond[..|cond| - 1] + [!cond[|cond| - 1]], count));
        }
        return Ok((cond, count));
      }
      if item.opcode == OP_ENDIF {
        if cond == [] {
          return Err(Unbalanced);
        }
        return Ok((cond[..|cond| - 1], count));
      }
      if !executing {
        return Ok((cond, count));
      }
      var _ :- ExecuteLive(item.opcode);
      return Ok((cond, count));
    }

    /** The loop over the parsed script, with its condition list and op counter. */
    method RunScript(script: Bytes) returns (r: Result<()>)
      modifies stack
      ensures var spec := Semantics.RunScript(script, old(stack.View()), Ctx());
        match spec
        case Ok(s) => r.Ok? && stack.View() == s
        case Err(e) => r == Err(e)
    {
      if |script| > MAX_SCRIPT_SIZE {
        return Err(ScriptSize);
      }
      var parsed := lib.parse(script);
      var cond: seq<bool> := [];
      var ops: nat := 0;
      ghost var whole := Run(parsed.items, Config(stack.View(), [], 0), Ctx());
      for i := 0 to |parsed.items|
        invariant whole == Run(parsed.items[i..], Config(stack.View(), cond, ops), Ctx())
      {
        assert parsed.items[i..][1..] == parsed.items[i + 1..];
        var next :- ExecuteItem(parsed.items[i], cond, ops);
        cond, ops := next.0, next.1;
      }
      if parsed.truncated {
        return Err(ScriptInvalid);
      }
      if cond != [] {
        return Err(Unbalanced);
      }
      return Ok(());
    }

    /** Not empty and true on top. */
    method TopIsTrue() returns (truth: bool)
      ensures truth <==> stack.main != [] && Truthy(Top(stack.main))
    {
      if stack.main == [] {
        return false;
      }
      truth := ElementToBool(stack.main[|stack.main| - 1]);
    }

    /** Run one script on the current stack; a script error is raised to the caller. */
    method Execute(script: Bytes) returns (r: Result<bool>)
      modifies stack
      ensures var spec := Semantics.RunScript(script, old(stack.View()), Ctx());
        match spec
        case Ok(s) => r == Ok(EndsTrue(spec)) && stack.View() == s
        case Err(e) => r == Err(e)
    {
      var _ :- RunScript(script);
      var truth := TopIsTrue();
      return Ok(truth);
    }

    method VerifyP2wpkh(program: Bytes, witnessItems: seq<Bytes>, ghost spend: Spend) returns (valid: bool)
      requires IsP2wpkh(program) && spend.witnessItems == witnessItems
      requires Ctx() == ContextOf(lib, spend, scriptCode, false)
      modifies this
      ensures valid == P2wpkhAccepts(lib, spend, program)
      ensures !witnessV0
    {
      if |witnessItems| != 2 {
        return false;
      }
      var sig, pubkey := witnessItems[0], witnessItems[1];
      var pubkeyHash := program[2..];
      if lib.ripemd160(lib.sha256(pubkey)) != pubkeyHash {
        return false;
      }
      var code := WitnessToScriptCode(pubkeyHash);
      stack := new ScriptStack();
      stack.Push(sig);
      stack.Push(pubkey);
      assert stack.main == witnessItems;
      scriptCode := code;
      witnessV0 := true;
      var r := RunScript(code);
      witnessV0 := false;
      if r.Err? {
        return false;
      }
      valid := TopIsTrue();
    }

    method VerifyP2wsh(program: Bytes, witnessItems: seq<Bytes>, ghost spend: Spend) returns (valid: bool)
      requires IsP2wsh(program) && spend.witnessItems == witnessItems
      requires Ctx() == ContextOf(lib, spend, scriptCode, false)
      modifies this
      ensures valid == P2wshAccepts(lib, spend, program)
      ensures !witnessV0
    {
      if witnessItems == [] {
        return false;
      }
      var script, items := witnessItems[|witnessItems| - 1], witnessItems[..|witnessItems| - 1];
      if lib.sha256(script) != program[2..] {
        return false;
      }
      stack := new ScriptStack();
      for i := 0 to |items|
        modifies stack
        invariant stack.main == items[..i] && stack.alt == []
      {
        stack.Push(items[i]);
      }
      assert stack.main == items;
      scriptCode := script;
      witnessV0 := true;
      var r := RunScript(script);
      witnessV0 := false;
      if r.Err? {
        return false;
      }
      valid := TopIsTrue();
    }

    /** Full verification: size guards, native SegWit, two phases, then P2SH. */
    method Verify(scriptSig: Bytes, scriptPubkey: Bytes, tx: Option<Bytes>, inputIndex: int,
                  inputValue: int, witnessItems: seq<Bytes>)
      returns (valid: bool)
      modifies this
      ensures valid == Accepts(lib,
        Spend(scriptSig, scriptPubkey, tx, inputIndex, inputValue, witnessItems, witnessFlag, p2shFlag))
    {
      ghost var spend :=
        Spend(scriptSig, scriptPubkey, tx, inputIndex, inputValue, witnessItems, witnessFlag, p2shFlag);
      Reset();
      this.tx, this.inputIndex, this.inputValue := tx, inputIndex, inputValue;
      if |scriptSig| > MAX_SCRIPT_SIZE || |scriptPubkey| > MAX_SCRIPT_SIZE {
        return false;
      }
      if witnessFlag && IsP2wpkh(scriptPubkey) {
        if scriptSig != [] {
          return false;
        }
        valid := VerifyP2wpkh(scriptPubkey, witnessItems, spend);
        return;
      }
      if witnessFlag && IsP2wsh(scriptPubkey) {
        if scriptSig != [] {
          return false;
        }
        valid := VerifyP2wsh(scriptPubkey, witnessItems, spend);
        return;
      }
      valid := VerifyLegacy(scriptSig, scriptPubkey, witnessItems, spend);
    }

    method VerifyLegacy(scriptSig: Bytes, scriptPubkey: Bytes, witnessItems: seq<Bytes>, ghost spend: Spend)
      returns (valid: bool)
      requires Ctx() == ContextOf(lib, spend, scriptCode, false)
      requires stack.main == [] && stack.alt == []
      requires spend.scriptSig == scriptSig && spend.scriptPubkey == scriptPubkey && spend.witnessItems == witnessItems
      requires spend.witnessFlag == witnessFlag && spend.p2shFlag == p2shFlag
      modifies this, stack
      ensures valid == LegacyAccepts(lib, spend)
    {
      scriptCode := scriptPubkey;
      var first := RunScript(scriptSig);
      if first.Err? {
        return false;
      }
      var p2shActive := p2shFlag && IsP2sh(scriptPubkey);
      var saved := stack.main;
      var second := RunScript(scriptPubkey);
      if second.Err? {
        return false;
      }
      var truth := TopIsTrue();
      if !truth {
        return false;
      }
      if p2shActive && saved != [] {
        var redeem := saved[|saved| - 1];
        if witnessFlag && IsP2wpkh(redeem) {
          valid := VerifyP2wpkh(redeem, witnessItems, spend);
          return;
        }
        if witnessFlag && IsP2wsh(redeem) {
          valid := VerifyP2wsh(redeem, witnessItems, spend);
          return;
        }
        stack.main := saved[..|saved| - 1];
        scriptCode := redeem;
        var third := RunScript(redeem);
        if third.Err? {
          return false;
        }
        valid := TopIsTrue();
        return;
      }
      return true;
    }
  }
}
