/**
 CHECKMULTISIG makes one greedy pass. It accepts exactly when the signatures can be
 assigned, in order, to distinct keys in order; reading both lists from the top of the
 stack or from the bottom makes no difference.
 */
module MultiSignature {
  import opened ByteStrings
  import opened ScriptNumbers
  import opened Stack
  import opened Semantics

  // ---------------------------------------------------------------------------
  // One signature
  // ---------------------------------------------------------------------------

  /**
   The last byte of the signature is its hash type; what comes before must verify under the
   key, on the digest for the script code, with an amount or without.
   */
  predicate Signed(lib: Library, code: Bytes, tx: Bytes, index: int, amount: Option<int>, sig: Bytes, key: Bytes) {
    && sig != []
    && var digest := lib.signatureHash(code, tx, index, sig[|sig| - 1], amount);
       digest.Some? && lib.ecdsa(key, digest.value, sig[..|sig| - 1])
  }

  /** Only under SegWit does the digest cover the amount. */
  predicate SignedIn(ctx: Context, sig: Bytes, key: Bytes)
    requires ctx.tx.Some?
  {
    if ctx.witnessV0 then Signed(ctx.lib, ctx.scriptCode, ctx.tx.value, ctx.inputIndex, Some(ctx.inputValue), sig, key)
    else Signed(ctx.lib, ctx.scriptCode, ctx.tx.value, ctx.inputIndex, None, sig, key)
  }

  /** OP_CHECKSIG takes signature and key and leaves whether the one is the other's. */
  lemma CheckSigDecides(base: seq<Element>, sig: Element, key: Element, alt: seq<Element>, ctx: Context)
    ensures Execute(0xAC, Stacks(base + [sig, key], alt), ctx) ==
      if ctx.tx.None? then Err(ScriptInvalid)
      else Ok(Stacks(base + [if SignedIn(ctx, sig, key) then [0x01] else []], alt))
  {
    var m := base + [sig, key];
    assert Below(m) == base + [sig] && Below(Below(m)) == base && Top(m) == key;
  }

  /** OP_CHECKSIGVERIFY leaves nothing, or fails. */
  lemma CheckSigVerifyDecides(base: seq<Element>, sig: Element, key: Element, alt: seq<Element>, ctx: Context)
    requires ctx.tx.Some?
    ensures Execute(0xAD, Stacks(base + [sig, key], alt), ctx) ==
      if SignedIn(ctx, sig, key) then Ok(Stacks(base, alt)) else Err(VerifyFailed)
  {
    var m := base + [sig, key];
    assert Below(m) == base + [sig] && Below(Below(m)) == base && Top(m) == key;
    VerifyAnswer(base, SignedIn(ctx, sig, key));
  }

  lemma VerifyAnswer(base: seq<Element>, answer: bool)
    ensures ThenVerify(Ok(base + [BoolElement(answer)])) == if answer then Ok(base) else Err(VerifyFailed)
  {
    assert Below(base + [BoolElement(answer)]) == base;
  }

  /** Both need a signature and a key. */
  lemma CheckSigUnderflows(op: Byte, s: Stacks, ctx: Context)
    requires (op == 0xAC || op == 0xAD) && ctx.tx.Some? && |s.main| < 2
    ensures Execute(op, s, ctx) == Err(StackUnderflow)
  {
  }

  // ---------------------------------------------------------------------------
  // Several signatures
  // ---------------------------------------------------------------------------

  /** f sends each signature to a key it verifies under, and never goes backwards. */
  ghost predicate Assigns(f: seq<nat>, sigs: seq<Bytes>, keys: seq<Bytes>, ctx: Context)
    requires ctx.tx.Some?
  {
    && |f| == |sigs|
    && (forall i :: 0 <= i < |f| ==> f[i] < |keys| && SignedIn(ctx, sigs[i], keys[f[i]]))
    && (forall i, j :: 0 <= i < j < |f| ==> f[i] < f[j])
  }

  ghost predicate Assignable(sigs: seq<Bytes>, keys: seq<Bytes>, ctx: Context)
    requires ctx.tx.Some?
  {
    exists f :: Assigns(f, sigs, keys, ctx)
  }

  function Up(f: seq<nat>): seq<nat> {
    seq(|f|, i requires 0 <= i < |f| => f[i] + 1)
  }

  function Down(f: seq<nat>): seq<nat>
    requires forall i :: 0 <= i < |f| ==> f[i] >= 1
  {
    seq(|f|, i requires 0 <= i < |f| => f[i] - 1)
  }

  /** The first signature under the first key, the rest under the others. */
  lemma AssignsFirst(f: seq<nat>, sigs: seq<Bytes>, keys: seq<Bytes>, ctx: Context)
    requires ctx.tx.Some? && sigs != [] && keys != [] && SignedIn(ctx, sigs[0], keys[0])
    requires Assigns(f, sigs[1..], keys[1..], ctx)
    ensures Assigns([0] + Up(f), sigs, keys, ctx)
  {
    var g := [0] + Up(f);
    forall i | 0 <= i < |g| ensures g[i] < |keys| && SignedIn(ctx, sigs[i], keys[g[i]]) {
      if i > 0 {
        assert g[i] == f[i - 1] + 1 && sigs[1..][i - 1] == sigs[i] && keys[1..][f[i - 1]] == keys[g[i]];
      }
    }
  }

  /** No signature under the first key. */
  lemma AssignsLater(f: seq<nat>, sigs: seq<Bytes>, keys: seq<Bytes>, ctx: Context)
    requires ctx.tx.Some? && keys != [] && Assigns(f, sigs, keys[1..], ctx)
    ensures Assigns(Up(f), sigs, keys, ctx)
  {
    forall i | 0 <= i < |f| ensures Up(f)[i] < |keys| && SignedIn(ctx, sigs[i], keys[Up(f)[i]]) {
      assert keys[1..][f[i]] == keys[Up(f)[i]];
    }
  }

  lemma {:induction false} GreedySound(sigs: seq<Bytes>, keys: seq<Bytes>, ctx: Context) returns (f: seq<nat>)
    requires ctx.tx.Some? && Greedy(sigs, keys, ctx)
    ensures Assigns(f, sigs, keys, ctx)
    decreases |keys|
  {
    if sigs == [] {
      f := [];
    } else if ctx.Verifies(sigs[0], keys[0]) {
      var rest := GreedySound(sigs[1..], keys[1..], ctx);
      AssignsFirst(rest, sigs, keys, ctx);
      f := [0] + Up(rest);
    } else {
      var rest := GreedySound(sigs, keys[1..], ctx);
      AssignsLater(rest, sigs, keys, ctx);
      f := Up(rest);
    }
  }

  lemma {:induction false} GreedyComplete(f: seq<nat>, sigs: seq<Bytes>, keys: seq<Bytes>, ctx: Context)
    requires ctx.tx.Some? && Assigns(f, sigs, keys, ctx)
    ensures Greedy(sigs, keys, ctx)
    decreases |keys|
  {
    if sigs != [] {
      assert f[0] < |keys|;
      if ctx.Verifies(sigs[0], keys[0]) {
        GreedyComplete(Down(f[1..]), sigs[1..], keys[1..], ctx);
      } else {
        assert f[0] >= 1;
        GreedyComplete(Down(f), sigs, keys[1..], ctx);
      }
    }
  }

  /** The greedy pass finds an assignment whenever there is one. */
  lemma GreedyExact(sigs: seq<Bytes>, keys: seq<Bytes>, ctx: Context)
    requires ctx.tx.Some?
    ensures Greedy(sigs, keys, ctx) <==> Assignable(sigs, keys, ctx)
  {
    if Greedy(sigs, keys, ctx) {
      var f := GreedySound(sigs, keys, ctx);
    }
    if Assignable(sigs, keys, ctx) {
      var f :| Assigns(f, sigs, keys, ctx);
      GreedyComplete(f, sigs, keys, ctx);
    }
  }

  // ---------------------------------------------------------------------------
  // Order
  // ---------------------------------------------------------------------------

  lemma {:induction false} ReverseAt(s: seq<Element>)
    ensures |Reverse(s)| == |s|
    ensures forall i :: 0 <= i < |s| ==> Reverse(s)[i] == s[|s| - 1 - i]
  {
    if s != [] {
      ReverseAt(Below(s));
    }
  }

  predicate Mirrors(r: seq<Element>, s: seq<Element>) {
    |r| == |s| && forall i :: 0 <= i < |s| ==> r[i] == s[|s| - 1 - i]
  }

  /** Read an assignment backwards, counting keys from the other end. */
  lemma MirroredAssigns(f: seq<nat>, sigs: seq<Bytes>, keys: seq<Bytes>,
                        sigs': seq<Bytes>, keys': seq<Bytes>, ctx: Context)
    requires ctx.tx.Some? && Assigns(f, sigs, keys, ctx) && Mirrors(sigs', sigs) && Mirrors(keys', keys)
    ensures Assignable(sigs', keys', ctx)
  {
    var g: seq<nat> := seq(|f|, i requires 0 <= i < |f| => |keys| - 1 - f[|f| - 1 - i]);
    forall i | 0 <= i < |g| ensures g[i] < |keys'| && SignedIn(ctx, sigs'[i], keys'[g[i]]) {
      var j := |f| - 1 - i;
      assert sigs'[i] == sigs[j] && keys'[g[i]] == keys[f[j]];
    }
    assert Assigns(g, sigs', keys', ctx);
  }

  lemma AssignableReversed(sigs: seq<Bytes>, keys: seq<Bytes>, ctx: Context)
    requires ctx.tx.Some? && Assignable(sigs, keys, ctx)
    ensures Assignable(Reverse(sigs), Reverse(keys), ctx)
  {
    var f :| Assigns(f, sigs, keys, ctx);
    ReverseAt(sigs);
    ReverseAt(keys);
    MirroredAssigns(f, sigs, keys, Reverse(sigs), Reverse(keys), ctx);
  }

  lemma ReverseTwice(s: seq<Element>)
    ensures Reverse(Reverse(s)) == s
  {
    ReverseAt(s);
    ReverseAt(Reverse(s));
  }

  /** Matching top-first decides the same as matching in script order. */
  lemma GreedyReversed(sigs: seq<Bytes>, keys: seq<Bytes>, ctx: Context)
    requires ctx.tx.Some?
    ensures Greedy(Reverse(sigs), Reverse(keys), ctx) <==> Greedy(sigs, keys, ctx)
  {
    GreedyExact(sigs, keys, ctx);
    GreedyExact(Reverse(sigs), Reverse(keys), ctx);
    if Greedy(sigs, keys, ctx) {
      AssignableReversed(sigs, keys, ctx);
    }
    if Greedy(Reverse(sigs), Reverse(keys), ctx) {
      AssignableReversed(Reverse(sigs), Reverse(keys), ctx);
      ReverseTwice(sigs);
      ReverseTwice(keys);
    }
  }

  // ---------------------------------------------------------------------------
  // The opcode on a stack
  // ---------------------------------------------------------------------------

  lemma CountedList(base: seq<Element>, list: seq<Element>, count: Element)
    requires Decode(count) == |list| || (Decode(count) < 0 && list == [])
    ensures PopCounted(base + list + [count]) == Ok((base, Reverse(list)))
  {
  }

  /** dummy sig1..sigM M key1..keyN N becomes true exactly when the signatures are assignable. */
  lemma MultiSigDecides(base: seq<Element>, dummy: Element, sigs: seq<Element>, m: Element,
                        keys: seq<Element>, n: Element, ctx: Context)
    requires ctx.tx.Some?
    requires Decode(m) == |sigs| || (Decode(m) < 0 && sigs == [])
    requires Decode(n) == |keys| || (Decode(n) < 0 && keys == [])
    ensures MultiSig(base + [dummy] + sigs + [m] + keys + [n], ctx)
         == Ok(base + [if Assignable(sigs, keys, ctx) then [0x01] else []])
  {
    CountedList(base + [dummy] + sigs + [m], keys, n);
    CountedList(base + [dummy], sigs, m);
    assert Below(base + [dummy]) == base;
    GreedyReversed(sigs, keys, ctx);
    GreedyExact(sigs, keys, ctx);
  }

  /** The same of the opcode; a negative count is no count, and takes nothing. */
  lemma CheckMultiSigDecides(base: seq<Element>, dummy: Element, sigs: seq<Element>, m: Element,
                             keys: seq<Element>, n: Element, alt: seq<Element>, ctx: Context)
    requires Decode(m) == |sigs| || (Decode(m) < 0 && sigs == [])
    requires Decode(n) == |keys| || (Decode(n) < 0 && keys == [])
    ensures Execute(0xAE, Stacks(base + [dummy] + sigs + [m] + keys + [n], alt), ctx) ==
      if ctx.tx.None? then Err(ScriptInvalid)
      else Ok(Stacks(base + [if Assignable(sigs, keys, ctx) then [0x01] else []], alt))
  {
    if ctx.tx.Some? {
      MultiSigDecides(base, dummy, sigs, m, keys, n, ctx);
    }
  }

  /** OP_CHECKMULTISIGVERIFY leaves nothing, or fails. */
  lemma CheckMultiSigVerifyDecides(base: seq<Element>, dummy: Element, sigs: seq<Element>, m: Element,
                                   keys: seq<Element>, n: Element, alt: seq<Element>, ctx: Context)
    requires ctx.tx.Some?
    requires Decode(m) == |sigs| || (Decode(m) < 0 && sigs == [])
    requires Decode(n) == |keys| || (Decode(n) < 0 && keys == [])
    ensures Execute(0xAF, Stacks(base + [dummy] + sigs + [m] + keys + [n], alt), ctx) ==
      if Assignable(sigs, keys, ctx) then Ok(Stacks(base, alt)) else Err(VerifyFailed)
  {
    MultiSigDecides(base, dummy, sigs, m, keys, n, ctx);
    VerifyAnswer(base, Assignable(sigs, keys, ctx));
  }

  // ---------------------------------------------------------------------------
  // Without SegWit the amount is not looked at
  // ---------------------------------------------------------------------------

  lemma {:induction false} GreedyIgnoresAmount(sigs: seq<Bytes>, keys: seq<Bytes>, ctx: Context, amount: int)
    requires ctx.tx.Some? && !ctx.witnessV0
    ensures Greedy(sigs, keys, ctx.(inputValue := amount)) == Greedy(sigs, keys, ctx)
    decreases |keys|
  {
    if sigs != [] && keys != [] {
      GreedyIgnoresAmount(sigs[1..], keys[1..], ctx, amount);
      GreedyIgnoresAmount(sigs, keys[1..], ctx, amount);
    }
  }

  lemma MultiSigIgnoresAmount(m: seq<Element>, ctx: Context, amount: int)
    requires ctx.tx.Some? && !ctx.witnessV0
    ensures MultiSig(m, ctx.(inputValue := amount)) == MultiSig(m, ctx)
  {
    var r := PopCounted(m);
    if r.Ok? && PopCounted(r.value.0).Ok? {
      GreedyIgnoresAmount(PopCounted(r.value.0).value.1, r.value.1, ctx, amount);
    }
  }

  lemma StepIgnoresAmount(item: Item, c: Config, ctx: Context, amount: int)
    requires !ctx.witnessV0
    ensures Step(item, c, ctx.(inputValue := amount)) == Step(item, c, ctx)
  {
    if ctx.tx.Some? {
      MultiSigIgnoresAmount(c.stacks.main, ctx, amount);
    }
  }

  /** A whole legacy run is the same for every amount. */
  lemma {:induction false} LegacyIgnoresAmount(items: seq<Item>, c: Config, ctx: Context, amount: int)
    requires !ctx.witnessV0
    ensures Run(items, c, ctx.(inputValue := amount)) == Run(items, c, ctx)
  {
    if items != [] {
      StepIgnoresAmount(items[0], c, ctx, amount);
      var r := Step(items[0], c, ctx);
      if r.Ok? {
        LegacyIgnoresAmount(items[1..], r.value, ctx, amount);
      }
    }
  }
}
