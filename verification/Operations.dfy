/**
 The opcode handlers: each pops, computes and pushes on the shared stack, and does
 to it what its row of the semantics says.
 */
module Operations {
  import opened ByteStrings
  import opened ScriptNumbers
  import opened Stack
  import opened Semantics

  lemma TableOn(op: Byte, s: Stacks, base: seq<Element>, args: seq<Element>)
    requires Arity(op) == |args| > 0 && s.main == base + args
    ensures Table(op, s) ==
      if Produce(op, args).Err? then Err(Produce(op, args).error)
      else Ok(s.(main := base + Produce(op, args).value))
  {
  }

  /** A -VERIFY opcode is its plain form followed by OP_VERIFY. */
  lemma VerifyAfter(plain: Byte, verify: Byte, s: Stacks)
    requires (plain == OP_EQUAL && verify == OP_EQUALVERIFY) || (plain == OP_NUMEQUAL && verify == OP_NUMEQUALVERIFY)
    ensures Table(verify, s) ==
      if Table(plain, s).Err? then Table(plain, s) else Table(OP_VERIFY, Table(plain, s).value)
  {
    VerifyRows(plain, verify);
    if |s.main| >= 2 {
      var base, args := s.main[..|s.main| - 2], s.main[|s.main| - 2..];
      var answer := BoolElement(Compares(plain, args[0], args[1]));
      assert s.main == base + args;
      TableOn(plain, s, base, args);
      TableOn(verify, s, base, args);
      TableOn(OP_VERIFY, s.(main := base + [answer]), base, [answer]);
    }
  }

  lemma VerifyRows(plain: Byte, verify: Byte)
    requires (plain == OP_EQUAL && verify == OP_EQUALVERIFY) || (plain == OP_NUMEQUAL && verify == OP_NUMEQUALVERIFY)
    ensures Arity(plain) == Arity(verify) == 2 && Arity(OP_VERIFY) == 1
    ensures forall a: seq<Element> :: |a| == 2 ==>
      && Produce(plain, a) == Ok([BoolElement(Compares(plain, a[0], a[1]))])
      && Produce(verify, a) == Produce(OP_VERIFY, [BoolElement(Compares(plain, a[0], a[1]))])
  {
  }

  lemma BoolIsTruthy(b: bool)
    ensures Truthy(BoolElement(b)) == b
  {
  }

  lemma Operands1(m: seq<Element>)
    ensures |m| >= 1 ==> m == Below(m) + [Top(m)]
  {
  }

  lemma Operands2(m: seq<Element>)
    ensures |m| >= 2 ==> m == Below(Below(m)) + [Top(Below(m)), Top(m)]
  {
  }

  lemma Operands3(m: seq<Element>)
    ensures |m| >= 3 ==> m == Below(Below(Below(m))) + [Top(Below(Below(m))), Top(Below(m)), Top(m)]
  {
  }

  lemma Operands4(m: seq<Element>)
    ensures |m| >= 4 ==>
      (m == Below(Below(Below(Below(m))))
          + [Top(Below(Below(Below(m)))), Top(Below(Below(m))), Top(Below(m)), Top(m)])
  {
    if |m| >= 4 {
      var m2 := Below(Below(m));
      Operands2(m);
      Operands2(m2);
      assert m == Below(Below(m2)) + ([Top(Below(m2)), Top(m2)] + [Top(Below(m)), Top(m)]);
    }
  }

  lemma TwoRot(s: Stacks, m3: seq<Element>, base: seq<Element>,
               a: Element, b: Element, c: Element, d: Element, e: Element, f: Element)
    requires s.main == m3 + [d, e, f] && m3 == base + [a, b, c]
    ensures Table(OP_2ROT, s) == Ok(s.(main := base + [c] + [d] + [e] + [f] + [a] + [b]))
  {
    assert s.main == base + [a, b, c, d, e, f];
    TableOn(OP_2ROT, s, base, [a, b, c, d, e, f]);
    Joined6(base, c, d, e, f, a, b);
  }

  lemma Joined2(m: seq<Element>, a: Element, b: Element)
    ensures m + [a] + [b] == m + [a, b]
  {
  }

  lemma Joined3(m: seq<Element>, a: Element, b: Element, c: Element)
    ensures m + [a] + [b] + [c] == m + [a, b, c]
  {
  }

  lemma Joined4(m: seq<Element>, a: Element, b: Element, c: Element, d: Element)
    ensures m + [a] + [b] + [c] + [d] == m + [a, b, c, d]
  {
  }

  lemma Joined6(m: seq<Element>, a: Element, b: Element, c: Element, d: Element, e: Element, f: Element)
    ensures m + [a] + [b] + [c] + [d] + [e] + [f] == m + [a, b, c, d, e, f]
  {
  }

  // ---------------------------------------------------------------------------
  // Stack, arithmetic, equality, hashes
  // ---------------------------------------------------------------------------

  /** Duplicate the top. */
  method OpDup(stack: ScriptStack) returns (r: Result<()>)
    modifies stack
    ensures Performs(Table(OP_DUP, old(stack.View())), r, old(stack.View()), stack.View())
  {
    var top :- stack.Peek(-1);
    TableOn(OP_DUP, stack.View(), stack.main[..|stack.main| - 1], stack.main[|stack.main| - 1..]);
    stack.Push(top);
    return Ok(());
  }

  /** Remove the top. */
  method OpDrop(stack: ScriptStack) returns (r: Result<()>)
    modifies stack
    ensures Performs(Table(OP_DROP, old(stack.View())), r, old(stack.View()), stack.View())
  {
    Operands1(stack.main);
    var top :- stack.Pop();
    TableOn(OP_DROP, old(stack.View()), stack.main, [top]);
    return Ok(());
  }

  /** Swap the top two. */
  method OpSwap(stack: ScriptStack) returns (r: Result<()>)
    modifies stack
    ensures Performs(Table(OP_SWAP, old(stack.View())), r, old(stack.View()), stack.View())
  {
    Operands2(stack.main);
    var a :- stack.Pop();
    var b :- stack.Pop();
    TableOn(OP_SWAP, old(stack.View()), stack.main, [b, a]);
    Joined2(stack.main, a, b);
    stack.Push(a);
    stack.Push(b);
    return Ok(());
  }

  /** Copy the second to the top. */
  method OpOver(stack: ScriptStack) returns (r: Result<()>)
    modifies stack
    ensures Performs(Table(OP_OVER, old(stack.View())), r, old(stack.View()), stack.View())
  {
    var second :- stack.Peek(-2);
    TableOn(OP_OVER, stack.View(), stack.main[..|stack.main| - 2], stack.main[|stack.main| - 2..]);
    stack.Push(second);
    return Ok(());
  }

  /** Bring the third to the top. */
  method OpRot(stack: ScriptStack) returns (r: Result<()>)
    modifies stack
    ensures Performs(Table(OP_ROT, old(stack.View())), r, old(stack.View()), stack.View())
  {
    Operands3(stack.main);
    var c :- stack.Pop();
    var b :- stack.Pop();
    var a :- stack.Pop();
    TableOn(OP_ROT, old(stack.View()), stack.main, [a, b, c]);
    Joined3(stack.main, b, c, a);
    stack.Push(b);
    stack.Push(c);
    stack.Push(a);
    return Ok(());
  }

  /** Duplicate the top two. */
  method Op2Dup(stack: ScriptStack) returns (r: Result<()>)
    modifies stack
    ensures Performs(Table(OP_2DUP, old(stack.View())), r, old(stack.View()), stack.View())
  {
    var b :- stack.Peek(-1);
    var a :- stack.Peek(-2);
    TableOn(OP_2DUP, stack.View(), stack.main[..|stack.main| - 2], stack.main[|stack.main| - 2..]);
    Joined2(stack.main, a, b);
    stack.Push(a);
    stack.Push(b);
    return Ok(());
  }

  /** Duplicate the top three. */
  method Op3Dup(stack: ScriptStack) returns (r: Result<()>)
    modifies stack
    ensures Performs(Table(OP_3DUP, old(stack.View())), r, old(stack.View()), stack.View())
  {
    var c :- stack.Peek(-1);
    var b :- stack.Peek(-2);
    var a :- stack.Peek(-3);
    TableOn(OP_3DUP, stack.View(), stack.main[..|stack.main| - 3], stack.main[|stack.main| - 3..]);
    Joined3(stack.main, a, b, c);
    stack.Push(a);
    stack.Push(b);
    stack.Push(c);
    return Ok(());
  }

  /** Remove the top two. */
  method Op2Drop(stack: ScriptStack) returns (r: Result<()>)
    modifies stack
    ensures Performs(Table(OP_2DROP, old(stack.View())), r, old(stack.View()), stack.View())
  {
    Operands2(stack.main);
    var b :- stack.Pop();
    var a :- stack.Pop();
    TableOn(OP_2DROP, old(stack.View()), stack.main, [a, b]);
    return Ok(());
  }

  /** Swap the top two pairs. */
  method Op2Swap(stack: ScriptStack) returns (r: Result<()>)
    modifies stack
    ensures Performs(Table(OP_2SWAP, old(stack.View())), r, old(stack.View()), stack.View())
  {
    Operands4(stack.main);
    var d :- stack.Pop();
    var c :- stack.Pop();
    var b :- stack.Pop();
    var a :- stack.Pop();
    TableOn(OP_2SWAP, old(stack.View()), stack.main, [a, b, c, d]);
    Joined4(stack.main, c, d, a, b);
    stack.Push(c);
    stack.Push(d);
    stack.Push(a);
    stack.Push(b);
    return Ok(());
  }

  /** Copy the third and fourth to the top. */
  method Op2Over(stack: ScriptStack) returns (r: Result<()>)
    modifies stack
    ensures Performs(Table(OP_2OVER, old(stack.View())), r, old(stack.View()), stack.View())
  {
    var a :- stack.Peek(-4);
    var b := stack.Peek(-3);
    TableOn(OP_2OVER, stack.View(), stack.main[..|stack.main| - 4], stack.main[|stack.main| - 4..]);
    Joined2(stack.main, a, b.value);
    stack.Push(a);
    stack.Push(b.value);
    return Ok(());
  }

  /** Bring the fifth and sixth to the top. */
  method Op2Rot(stack: ScriptStack) returns (r: Result<()>)
    modifies stack
    ensures Performs(Table(OP_2ROT, old(stack.View())), r, old(stack.View()), stack.View())
  {
    Operands3(stack.main);
    var f :- stack.Pop();
    var e :- stack.Pop();
    var d :- stack.Pop();
    ghost var m3 := stack.main;
    Operands3(m3);
    var c :- stack.Pop();
    var b :- stack.Pop();
    var a :- stack.Pop();
    TwoRot(old(stack.View()), m3, stack.main, a, b, c, d, e, f);
    stack.Push(c);
    stack.Push(d);
    stack.Push(e);
    stack.Push(f);
    stack.Push(a);
    stack.Push(b);
    return Ok(());
  }

  /** Duplicate the top if it is true. */
  method OpIfDup(stack: ScriptStack) returns (r: Result<()>)
    modifies stack
    ensures Performs(Table(OP_IFDUP, old(stack.View())), r, old(stack.View()), stack.View())
  {
    var top :- stack.Peek(-1);
    TableOn(OP_IFDUP, stack.View(), stack.main[..|stack.main| - 1], stack.main[|stack.main| - 1..]);
    var truth := ElementToBool(top);
    if truth {
      stack.Push(top);
    }
    return Ok(());
  }

  /** Remove the second. */
  method OpNip(stack: ScriptStack) returns (r: Result<()>)
    modifies stack
    ensures Performs(Table(OP_NIP, old(stack.View())), r, old(stack.View()), stack.View())
  {
    Operands2(stack.main);
    var top :- stack.Pop();
    var second :- stack.Pop();
    TableOn(OP_NIP, old(stack.View()), stack.main, [second, top]);
    stack.Push(top);
    return Ok(());
  }

  /** Copy the top below the second. */
  method OpTuck(stack: ScriptStack) returns (r: Result<()>)
    modifies stack
    ensures Performs(Table(OP_TUCK, old(stack.View())), r, old(stack.View()), stack.View())
  {
    Operands2(stack.main);
    var top :- stack.Pop();
    var second :- stack.Pop();
    TableOn(OP_TUCK, old(stack.View()), stack.main, [second, top]);
    Joined3(stack.main, top, second, top);
    stack.Push(top);
    stack.Push(second);
    stack.Push(top);
    return Ok(());
  }

  /** Push the byte length of the top. */
  method OpSize(stack: ScriptStack) returns (r: Result<()>)
    modifies stack
    ensures Performs(Table(OP_SIZE, old(stack.View())), r, old(stack.View()), stack.View())
  {
    var top :- stack.Peek(-1);
    TableOn(OP_SIZE, stack.View(), stack.main[..|stack.main| - 1], stack.main[|stack.main| - 1..]);
    var size := IntToElement(|top|);
    stack.Push(size);
    return Ok(());
  }

  /** Second plus top. */
  method OpAdd(stack: ScriptStack) returns (r: Result<()>)
    modifies stack
    ensures Performs(Table(OP_ADD, old(stack.View())), r, old(stack.View()), stack.View())
  {
    Operands2(stack.main);
    var y :- stack.Pop();
    var x :- stack.Pop();
    TableOn(OP_ADD, old(stack.View()), stack.main, [x, y]);
    var b := ElementToInt(y);
    var a := ElementToInt(x);
    var made := IntToElement(a + b);
    stack.Push(made);
    return Ok(());
  }

  /** Second minus top. */
  method OpSub(stack: ScriptStack) returns (r: Result<()>)
    modifies stack
    ensures Performs(Table(OP_SUB, old(stack.View())), r, old(stack.View()), stack.View())
  {
    Operands2(stack.main);
    var y :- stack.Pop();
    var x :- stack.Pop();
    TableOn(OP_SUB, old(stack.View()), stack.main, [x, y]);
    var b := ElementToInt(y);
    var a := ElementToInt(x);
    var made := IntToElement(a - b);
    stack.Push(made);
    return Ok(());
  }

  /** Add one. */
  method Op1Add(stack: ScriptStack) returns (r: Result<()>)
    modifies stack
    ensures Performs(Table(OP_1ADD, old(stack.View())), r, old(stack.View()), stack.View())
  {
    Operands1(stack.main);
    var x :- stack.Pop();
    TableOn(OP_1ADD, old(stack.View()), stack.main, [x]);
    var a := ElementToInt(x);
    var made := IntToElement(a + 1);
    stack.Push(made);
    return Ok(());
  }

  /** Subtract one. */
  method Op1Sub(stack: ScriptStack) returns (r: Result<()>)
    modifies stack
    ensures Performs(Table(OP_1SUB, old(stack.View())), r, old(stack.View()), stack.View())
  {
    Operands1(stack.main);
    var x :- stack.Pop();
    TableOn(OP_1SUB, old(stack.View()), stack.main, [x]);
    var a := ElementToInt(x);
    var made := IntToElement(a - 1);
    stack.Push(made);
    return Ok(());
  }

  /** Negate. */
  method OpNegate(stack: ScriptStack) returns (r: Result<()>)
    modifies stack
    ensures Performs(Table(OP_NEGATE, old(stack.View())), r, old(stack.View()), stack.View())
  {
    Operands1(stack.main);
    var x :- stack.Pop();
    TableOn(OP_NEGATE, old(stack.View()), stack.main, [x]);
    var a := ElementToInt(x);
    var made := IntToElement(-a);
    stack.Push(made);
    return Ok(());
  }

  /** Absolute value. */
  method OpAbs(stack: ScriptStack) returns (r: Result<()>)
    modifies stack
    ensures Performs(Table(OP_ABS, old(stack.View())), r, old(stack.View()), stack.View())
  {
    Operands1(stack.main);
    var x :- stack.Pop();
    TableOn(OP_ABS, old(stack.View()), stack.main, [x]);
    var a := ElementToInt(x);
    var made := IntToElement(Abs(a));
    stack.Push(made);
    return Ok(());
  }

  /** Zero becomes true, anything else false. */
  method OpNot(stack: ScriptStack) returns (r: Result<()>)
    modifies stack
    ensures Performs(Table(OP_NOT, old(stack.View())), r, old(stack.View()), stack.View())
  {
    Operands1(stack.main);
    var x :- stack.Pop();
    TableOn(OP_NOT, old(stack.View()), stack.main, [x]);
    var a := ElementToInt(x);
    stack.Push(BoolElement(a == 0));
    return Ok(());
  }

  /** Zero becomes false, anything else true. */
  method Op0NotEqual(stack: ScriptStack) returns (r: Result<()>)
    modifies stack
    ensures Performs(Table(OP_0NOTEQUAL, old(stack.View())), r, old(stack.View()), stack.View())
  {
    Operands1(stack.main);
    var x :- stack.Pop();
    TableOn(OP_0NOTEQUAL, old(stack.View()), stack.main, [x]);
    var a := ElementToInt(x);
    stack.Push(BoolElement(a != 0));
    return Ok(());
  }

  /** Both nonzero. */
  method OpBoolAnd(stack: ScriptStack) returns (r: Result<()>)
    modifies stack
    ensures Performs(Table(OP_BOOLAND, old(stack.View())), r, old(stack.View()), stack.View())
  {
    Operands2(stack.main);
    var y :- stack.Pop();
    var x :- stack.Pop();
    TableOn(OP_BOOLAND, old(stack.View()), stack.main, [x, y]);
    var b := ElementToInt(y);
    var a := ElementToInt(x);
    stack.Push(BoolElement(a != 0 && b != 0));
    return Ok(());
  }

  /** Either nonzero. */
  method OpBoolOr(stack: ScriptStack) returns (r: Result<()>)
    modifies stack
    ensures Performs(Table(OP_BOOLOR, old(stack.View())), r, old(stack.View()), stack.View())
  {
    Operands2(stack.main);
    var y :- stack.Pop();
    var x :- stack.Pop();
    TableOn(OP_BOOLOR, old(stack.View()), stack.main, [x, y]);
    var b := ElementToInt(y);
    var a := ElementToInt(x);
    stack.Push(BoolElement(a != 0 || b != 0));
    return Ok(());
  }

  /** Numerically equal. */
  method OpNumEqual(stack: ScriptStack) returns (r: Result<()>)
    modifies stack
    ensures Performs(Table(OP_NUMEQUAL, old(stack.View())), r, old(stack.View()), stack.View())
  {
    Operands2(stack.main);
    var y :- stack.Pop();
    var x :- stack.Pop();
    TableOn(OP_NUMEQUAL, old(stack.View()), stack.main, [x, y]);
    var b := ElementToInt(y);
    var a := ElementToInt(x);
    stack.Push(BoolElement(a == b));
    return Ok(());
  }

  /** OP_NUMEQUAL, then OP_VERIFY. */
  method OpNumEqualVerify(stack: ScriptStack) returns (r: Result<()>)
    modifies stack
    ensures Performs(Table(OP_NUMEQUALVERIFY, old(stack.View())), r, old(stack.View()), stack.View())
  {
    ghost var s := stack.View();
    VerifyAfter(OP_NUMEQUAL, OP_NUMEQUALVERIFY, s);
    var _ :- OpNumEqual(stack);
    var _ :- OpVerify(stack);
    return Ok(());
  }

  /** Numerically different. */
  method OpNumNotEqual(stack: ScriptStack) returns (r: Result<()>)
    modifies stack
    ensures Performs(Table(OP_NUMNOTEQUAL, old(stack.View())), r, old(stack.View()), stack.View())
  {
    Operands2(stack.main);
    var y :- stack.Pop();
    var x :- stack.Pop();
    TableOn(OP_NUMNOTEQUAL, old(stack.View()), stack.main, [x, y]);
    var b := ElementToInt(y);
    var a := ElementToInt(x);
    stack.Push(BoolElement(a != b));
    return Ok(());
  }

  /** Second below top. */
  method OpLessThan(stack: ScriptStack) returns (r: Result<()>)
    modifies stack
    ensures Performs(Table(OP_LESSTHAN, old(stack.View())), r, old(stack.View()), stack.View())
  {
    Operands2(stack.main);
    var y :- stack.Pop();
    var x :- stack.Pop();
    TableOn(OP_LESSTHAN, old(stack.View()), stack.main, [x, y]);
    var b := ElementToInt(y);
    var a := ElementToInt(x);
    stack.Push(BoolElement(a < b));
    return Ok(());
  }

  /** Second above top. */
  method OpGreaterThan(stack: ScriptStack) returns (r: Result<()>)
    modifies stack
    ensures Performs(Table(OP_GREATERTHAN, old(stack.View())), r, old(stack.View()), stack.View())
  {
    Operands2(stack.main);
    var y :- stack.Pop();
    var x :- stack.Pop();
    TableOn(OP_GREATERTHAN, old(stack.View()), stack.main, [x, y]);
    var b := ElementToInt(y);
    var a := ElementToInt(x);
    stack.Push(BoolElement(a > b));
    return Ok(());
  }

  /** Second at most top. */
  method OpLessThanOrEqual(stack: ScriptStack) returns (r: Result<()>)
    modifies stack
    ensures Performs(Table(OP_LESSTHANOREQUAL, old(stack.View())), r, old(stack.View()), stack.View())
  {
    Operands2(stack.main);
    var y :- stack.Pop();
    var x :- stack.Pop();
    TableOn(OP_LESSTHANOREQUAL, old(stack.View()), stack.main, [x, y]);
    var b := ElementToInt(y);
    var a := ElementToInt(x);
    stack.Push(BoolElement(a <= b));
    return Ok(());
  }

  /** Second at least top. */
  method OpGreaterThanOrEqual(stack: ScriptStack) returns (r: Result<()>)
    modifies stack
    ensures Performs(Table(OP_GREATERTHANOREQUAL, old(stack.View())), r, old(stack.View()), stack.View())
  {
    Operands2(stack.main);
    var y :- stack.Pop();
    var x :- stack.Pop();
    TableOn(OP_GREATERTHANOREQUAL, old(stack.View()), stack.main, [x, y]);
    var b := ElementToInt(y);
    var a := ElementToInt(x);
    stack.Push(BoolElement(a >= b));
    return Ok(());
  }

  /** The smaller of two. */
  method OpMin(stack: ScriptStack) returns (r: Result<()>)
    modifies stack
    ensures Performs(Table(OP_MIN, old(stack.View())), r, old(stack.View()), stack.View())
  {
    Operands2(stack.main);
    var y :- stack.Pop();
    var x :- stack.Pop();
    TableOn(OP_MIN, old(stack.View()), stack.main, [x, y]);
    var b := ElementToInt(y);
    var a := ElementToInt(x);
    var made := IntToElement(if b < a then b else a);
    stack.Push(made);
    return Ok(());
  }

  /** The larger of two. */
  method OpMax(stack: ScriptStack) returns (r: Result<()>)
    modifies stack
    ensures Performs(Table(OP_MAX, old(stack.View())), r, old(stack.View()), stack.View())
  {
    Operands2(stack.main);
    var y :- stack.Pop();
    var x :- stack.Pop();
    TableOn(OP_MAX, old(stack.View()), stack.main, [x, y]);
    var b := ElementToInt(y);
    var a := ElementToInt(x);
    var made := IntToElement(if b > a then b else a);
    stack.Push(made);
    return Ok(());
  }

  /** Third is at least second and below top. */
  method OpWithin(stack: ScriptStack) returns (r: Result<()>)
    modifies stack
    ensures Performs(Table(OP_WITHIN, old(stack.View())), r, old(stack.View()), stack.View())
  {
    Operands3(stack.main);
    var z :- stack.Pop();
    var y :- stack.Pop();
    var x :- stack.Pop();
    TableOn(OP_WITHIN, old(stack.View()), stack.main, [x, y, z]);
    var maxVal := ElementToInt(z);
    var minVal := ElementToInt(y);
    var value := ElementToInt(x);
    stack.Push(BoolElement(minVal <= value < maxVal));
    return Ok(());
  }

  /** Byte-identical. */
  method OpEqual(stack: ScriptStack) returns (r: Result<()>)
    modifies stack
    ensures Performs(Table(OP_EQUAL, old(stack.View())), r, old(stack.View()), stack.View())
  {
    Operands2(stack.main);
    var b :- stack.Pop();
    var a :- stack.Pop();
    TableOn(OP_EQUAL, old(stack.View()), stack.main, [a, b]);
    stack.Push(BoolElement(a == b));
    return Ok(());
  }

  /** OP_EQUAL, then OP_VERIFY. */
  method OpEqualVerify(stack: ScriptStack) returns (r: Result<()>)
    modifies stack
    ensures Performs(Table(OP_EQUALVERIFY, old(stack.View())), r, old(stack.View()), stack.View())
  {
    VerifyAfter(OP_EQUAL, OP_EQUALVERIFY, stack.View());
    var _ :- OpEqual(stack);
    var _ :- OpVerify(stack);
    return Ok(());
  }

  /** Remove the top and fail unless it is true. */
  method OpVerify(stack: ScriptStack) returns (r: Result<()>)
    modifies stack
    ensures Performs(Table(OP_VERIFY, old(stack.View())), r, old(stack.View()), stack.View())
    ensures old(stack.main) != [] ==> stack.main == Below(old(stack.main))
  {
    Operands1(stack.main);
    var top :- stack.Pop();
    TableOn(OP_VERIFY, old(stack.View()), stack.main, [top]);
    var truth := ElementToBool(top);
    if !truth {
      return Err(VerifyFailed);
    }
    return Ok(());
  }

  /** Push the size of the main stack. */
  method OpDepth(stack: ScriptStack) returns (r: Result<()>)
    modifies stack
    ensures Performs(Ok(Push(old(stack.View()), Encode(|old(stack.main)|))), r, old(stack.View()), stack.View())
  {
    var depth := IntToElement(|stack.main|);
    stack.Push(depth);
    return Ok(());
  }

  /** Copy the nth element to the top. */
  method OpPick(stack: ScriptStack) returns (r: Result<()>)
    modifies stack
    ensures Performs(OnMain(old(stack.View()), Pick(old(stack.main))), r, old(stack.View()), stack.View())
  {
    var top :- stack.Pop();
    var n := ElementToInt(top);
    var element :- stack.Peek(-(n + 1));
    stack.Push(element);
    return Ok(());
  }

  /** Move the nth element to the top; Python's list index decides what n may be. */
  method OpRoll(stack: ScriptStack) returns (r: Result<()>)
    modifies stack
    ensures Performs(OnMain(old(stack.View()), Roll(old(stack.main))), r, old(stack.View()), stack.View())
  {
    var top :- stack.Pop();
    ghost var rest := stack.main;
    var n := ElementToInt(top);
    var idx := |stack.main| - 1 - n;
    if -|stack.main| <= idx < 0 {
      idx := |stack.main| + idx;
    }
    if !(0 <= idx < |stack.main|) {
      return Err(ScriptInvalid);
    }
    assert Roll(old(stack.main)) == Ok(RemoveAt(rest, idx) + [rest[idx]]);
    var element := stack.main[idx];
    stack.main := stack.main[..idx] + stack.main[idx + 1..];
    stack.Push(element);
    return Ok(());
  }

  /** RIPEMD-160. */
  method OpRipemd160(stack: ScriptStack, lib: Library) returns (r: Result<()>)
    modifies stack
    ensures Performs(
      OnMain(old(stack.View()), HashTop(OP_RIPEMD160, old(stack.main), lib)), r, old(stack.View()), stack.View())
  {
    var data :- stack.Pop();
    stack.Push(lib.ripemd160(data));
    return Ok(());
  }

  /** SHA-1. */
  method OpSha1(stack: ScriptStack, lib: Library) returns (r: Result<()>)
    modifies stack
    ensures Performs(
      OnMain(old(stack.View()), HashTop(OP_SHA1, old(stack.main), lib)), r, old(stack.View()), stack.View())
  {
    var data :- stack.Pop();
    stack.Push(lib.sha1(data));
    return Ok(());
  }

  /** SHA-256. */
  method OpSha256(stack: ScriptStack, lib: Library) returns (r: Result<()>)
    modifies stack
    ensures Performs(
      OnMain(old(stack.View()), HashTop(OP_SHA256, old(stack.main), lib)), r, old(stack.View()), stack.View())
  {
    var data :- stack.Pop();
    stack.Push(lib.sha256(data));
    return Ok(());
  }

  /** RIPEMD-160 of SHA-256. */
  method OpHash160(stack: ScriptStack, lib: Library) returns (r: Result<()>)
    modifies stack
    ensures Performs(
      OnMain(old(stack.View()), HashTop(OP_HASH160, old(stack.main), lib)), r, old(stack.View()), stack.View())
  {
    var data :- stack.Pop();
    stack.Push(lib.ripemd160(lib.sha256(data)));
    return Ok(());
  }

  /** SHA-256 twice. */
  method OpHash256(stack: ScriptStack, lib: Library) returns (r: Result<()>)
    modifies stack
    ensures Performs(
      OnMain(old(stack.View()), HashTop(OP_HASH256, old(stack.main), lib)), r, old(stack.View()), stack.View())
  {
    var data :- stack.Pop();
    stack.Push(lib.sha256(lib.sha256(data)));
    return Ok(());
  }

  // ---------------------------------------------------------------------------
  // Signatures
  // ---------------------------------------------------------------------------

  /** Both signature opcodes check one signature against one key this way. */
  method VerifySignature(sig: Bytes, pubkey: Bytes, ctx: Context) returns (valid: bool)
    requires ctx.tx.Some?
    ensures valid == ctx.Verifies(sig, pubkey)
  {
    if sig == [] {
      return false;
    }
    var hashType, der := sig[|sig| - 1], sig[..|sig| - 1];
    var sighash: Option<Bytes>;
    if ctx.witnessV0 {
      sighash := ctx.lib.signatureHash(ctx.scriptCode, ctx.tx.value, ctx.inputIndex, hashType, Some(ctx.inputValue));
    } else {
      sighash := ctx.lib.signatureHash(ctx.scriptCode, ctx.tx.value, ctx.inputIndex, hashType, None);
    }
    match sighash {
      case None => return false;
      case Some(digest) => return ctx.lib.ecdsa(pubkey, digest, der);
    }
  }

  method OpCheckSig(stack: ScriptStack, ctx: Context) returns (r: Result<()>)
    requires ctx.tx.Some?
    modifies stack
    ensures Performs(OnMain(old(stack.View()), CheckSig(old(stack.main), ctx)), r, old(stack.View()), stack.View())
  {
    var pubkey :- stack.Pop();
    var sig :- stack.Pop();
    if sig == [] {
      stack.Push([]);
      return Ok(());
    }
    var result := VerifySignature(sig, pubkey, ctx);
    stack.Push(BoolElement(result));
    return Ok(());
  }

  /** OP_VERIFY after a signature opcode that left `m`. */
  method VerifyTop(stack: ScriptStack) returns (r: Result<()>)
    modifies stack
    ensures Performs(OnMain(old(stack.View()), ThenVerify(Ok(old(stack.main)))), r, old(stack.View()), stack.View())
    ensures old(stack.main) != [] ==> stack.main == Below(old(stack.main))
  {
    if stack.main != [] {
      TableOn(OP_VERIFY, stack.View(), Below(stack.main), [Top(stack.main)]);
    }
    r := OpVerify(stack);
  }

  method OpCheckSigVerify(stack: ScriptStack, ctx: Context) returns (r: Result<()>)
    requires ctx.tx.Some?
    modifies stack
    ensures Performs(
      OnMain(old(stack.View()), ThenVerify(CheckSig(old(stack.main), ctx))), r, old(stack.View()), stack.View())
  {
    var _ :- OpCheckSig(stack, ctx);
    r := VerifyTop(stack);
  }

  /** Pop a count, then that many elements into a list, top first. */
  method PopList(stack: ScriptStack) returns (r: Result<seq<Element>>)
    modifies stack
    ensures stack.alt == old(stack.alt)
    ensures match PopCounted(old(stack.main))
            case Err(e) => r == Err(e) && stack.main <= old(stack.main)
            case Ok((rest, list)) => r == Ok(list) && stack.main == rest
  {
    var top :- stack.Pop();
    ghost var rest := stack.main;
    var count := ElementToInt(top);
    var list: seq<Element> := [];
    var i := 0;
    while i < count
      invariant 0 <= i <= |rest| && (i <= count || i == 0)
      invariant stack.main == rest[..|rest| - i] && stack.alt == old(stack.alt)
      invariant list == Reverse(rest[|rest| - i..])
    {
      var element :- stack.Pop();
      ReverseMore(rest, |rest| - i - 1);
      list := list + [element];
      i := i + 1;
    }
    return Ok(list);
  }

  lemma {:induction false} ReverseMore(s: seq<Element>, k: nat)
    requires k < |s|
    ensures Reverse(s[k..]) == Reverse(s[k + 1..]) + [s[k]]
    decreases |s|
  {
    var t := s[k..];
    assert Top(t) == Top(s);
    if |t| == 1 {
      assert Reverse(Below(t)) == [];
      assert s[k + 1..] == [];
    } else {
      ReverseMore(Below(s), k);
      assert Below(t) == Below(s)[k..];
      assert Below(s[k + 1..]) == Below(s)[k + 1..];
      assert Reverse(s[k + 1..]) == [Top(s)] + Reverse(Below(s)[k + 1..]);
    }
  }

  method OpCheckMultiSig(stack: ScriptStack, ctx: Context) returns (r: Result<()>)
    requires ctx.tx.Some?
    modifies stack
    ensures Performs(OnMain(old(stack.View()), MultiSig(old(stack.main), ctx)), r, old(stack.View()), stack.View())
  {
    var pubkeys :- PopList(stack);
    var sigs :- PopList(stack);
    var dummy :- stack.Pop();
    var success := MatchSignatures(sigs, pubkeys, ctx);
    stack.Push(BoolElement(success));
    return Ok(());
  }

  /** The matching loop: the key index only moves forward. */
  method MatchSignatures(sigs: seq<Bytes>, pubkeys: seq<Bytes>, ctx: Context) returns (success: bool)
    requires ctx.tx.Some?
    ensures success == Greedy(sigs, pubkeys, ctx)
  {
    success := true;
    var keyIdx := 0;
    for i := 0 to |sigs|
      invariant success && keyIdx <= |pubkeys|
      invariant Greedy(sigs, pubkeys, ctx) == Greedy(sigs[i..], pubkeys[keyIdx..], ctx)
    {
      var matched := false;
      while keyIdx < |pubkeys| && !matched
        invariant keyIdx <= |pubkeys|
        invariant Greedy(sigs, pubkeys, ctx) == Greedy(sigs[if matched then i + 1 else i..], pubkeys[keyIdx..], ctx)
        decreases |pubkeys| - keyIdx
      {
        matched := VerifySignature(sigs[i], pubkeys[keyIdx], ctx);
        assert sigs[i..][1..] == sigs[i + 1..];
        assert pubkeys[keyIdx..][1..] == pubkeys[keyIdx + 1..];
        keyIdx := keyIdx + 1;
      }
      if !matched {
        return false;
      }
    }
  }

  lemma MultiSigPrefix(m: seq<Element>, ctx: Context)
    requires ctx.tx.Some?
    ensures MultiSig(m, ctx).Ok? ==> Below(MultiSig(m, ctx).value) <= m
  {
    if MultiSig(m, ctx).Ok? {
      var m1 := PopCounted(m).value.0;
      var m2 := PopCounted(m1).value.0;
      assert m1 <= m && m2 <= m1;
    }
  }

  method OpCheckMultiSigVerify(stack: ScriptStack, ctx: Context) returns (r: Result<()>)
    requires ctx.tx.Some?
    modifies stack
    ensures Performs(
      OnMain(old(stack.View()), ThenVerify(MultiSig(old(stack.main), ctx))), r, old(stack.View()), stack.View())
  {
    MultiSigPrefix(stack.main, ctx);
    var _ :- OpCheckMultiSig(stack, ctx);
    r := VerifyTop(stack);
  }

  // ---------------------------------------------------------------------------
  // The dispatch table
  // ---------------------------------------------------------------------------

  method Dispatch(op: Byte, stack: ScriptStack, lib: Library) returns (r: Result<()>)
    modifies stack
    ensures Performs(Handle(op, old(stack.View()), lib), r, old(stack.View()), stack.View())
  {
    if op <= OP_SIZE {
      r := DispatchStack(op, stack, lib);
    } else if op <= OP_NUMNOTEQUAL {
      r := DispatchNumber(op, stack, lib);
    } else {
      r := DispatchCompare(op, stack, lib);
    }
  }

  method DispatchStack(op: Byte, stack: ScriptStack, lib: Library) returns (r: Result<()>)
    requires op <= OP_SIZE
    modifies stack
    ensures Performs(Handle(op, old(stack.View()), lib), r, old(stack.View()), stack.View())
  {
    if op == OP_DROP {
      r := OpDrop(stack);
    } else if op == OP_DUP {
      r := OpDup(stack);
    } else if op == OP_NIP {
      r := OpNip(stack);
    } else if op == OP_OVER {
      r := OpOver(stack);
    } else if op == OP_PICK {
      r := OpPick(stack);
    } else if op == OP_ROLL {
      r := OpRoll(stack);
    } else if op == OP_ROT {
      r := OpRot(stack);
    } else if op == OP_SWAP {
      r := OpSwap(stack);
    } else if op == OP_TUCK {
      r := OpTuck(stack);
    } else if op == OP_2DROP {
      r := Op2Drop(stack);
    } else if op == OP_2DUP {
      r := Op2Dup(stack);
    } else if op == OP_3DUP {
      r := Op3Dup(stack);
    } else if op == OP_2OVER {
      r := Op2Over(stack);
    } else if op == OP_2ROT {
      r := Op2Rot(stack);
    } else if op == OP_2SWAP {
      r := Op2Swap(stack);
    } else if op == OP_IFDUP {
      r := OpIfDup(stack);
    } else if op == OP_DEPTH {
      r := OpDepth(stack);
    } else if op == OP_VERIFY {
      r := OpVerify(stack);
    } else if op == OP_SIZE {
      r := OpSize(stack);
    } else {
      r := Err(ScriptInvalid);
    }
  }

  method DispatchNumber(op: Byte, stack: ScriptStack, lib: Library) returns (r: Result<()>)
    requires OP_SIZE < op <= OP_NUMNOTEQUAL
    modifies stack
    ensures Performs(Handle(op, old(stack.View()), lib), r, old(stack.View()), stack.View())
  {
    if op == OP_EQUAL {
      r := OpEqual(stack);
    } else if op == OP_EQUALVERIFY {
      r := OpEqualVerify(stack);
    } else if op == OP_1ADD {
      r := Op1Add(stack);
    } else if op == OP_1SUB {
      r := Op1Sub(stack);
    } else if op == OP_NEGATE {
      r := OpNegate(stack);
    } else if op == OP_ABS {
      r := OpAbs(stack);
    } else if op == OP_NOT {
      r := OpNot(stack);
    } else if op == OP_0NOTEQUAL {
      r := Op0NotEqual(stack);
    } else if op == OP_ADD {
      r := OpAdd(stack);
    } else if op == OP_SUB {
      r := OpSub(stack);
    } else if op == OP_BOOLAND {
      r := OpBoolAnd(stack);
    } else if op == OP_BOOLOR {
      r := OpBoolOr(stack);
    } else if op == OP_NUMEQUAL {
      r := OpNumEqual(stack);
    } else if op == OP_NUMEQUALVERIFY {
      r := OpNumEqualVerify(stack);
    } else if op == OP_NUMNOTEQUAL {
      r := OpNumNotEqual(stack);
    } else {
      r := Err(ScriptInvalid);
    }
  }

  method DispatchCompare(op: Byte, stack: ScriptStack, lib: Library) returns (r: Result<()>)
    requires op > OP_NUMNOTEQUAL
    modifies stack
    ensures Performs(Handle(op, old(stack.View()), lib), r, old(stack.View()), stack.View())
  {
    if op == OP_LESSTHAN {
      r := OpLessThan(stack);
    } else if op == OP_GREATERTHAN {
      r := OpGreaterThan(stack);
    } else if op == OP_LESSTHANOREQUAL {
      r := OpLessThanOrEqual(stack);
    } else if op == OP_GREATERTHANOREQUAL {
      r := OpGreaterThanOrEqual(stack);
    } else if op == OP_MIN {
      r := OpMin(stack);
    } else if op == OP_MAX {
      r := OpMax(stack);
    } else if op == OP_WITHIN {
      r := OpWithin(stack);
    } else if op == OP_RIPEMD160 {
      r := OpRipemd160(stack, lib);
    } else if op == OP_SHA1 {
      r := OpSha1(stack, lib);
    } else if op == OP_SHA256 {
      r := OpSha256(stack, lib);
    } else if op == OP_HASH160 {
      r := OpHash160(stack, lib);
    } else if op == OP_HASH256 {
      r := OpHash256(stack, lib);
    } else {
      r := Err(ScriptInvalid);
    }
  }
}
