/**
 The execution loop keeps one flat list of booleans for IF nesting. Three results:
 it computes what a recursive evaluator of nested blocks computes; a script that
 succeeds is well nested; and the list is always a run of trues followed by a run
 of falses, so a depth and a count stand for it.
 */
module ControlFlow {
  import opened ByteStrings
  import opened ScriptNumbers
  import opened Stack
  import opened Semantics

  // ---------------------------------------------------------------------------
  // Nested blocks
  // ---------------------------------------------------------------------------

  datatype Block =
    | End
    | Then(item: Item, rest: Block)
    | Branch(opcode: Byte, body: Block, elses: Elses, rest: Block)

  /** What follows the first segment of a branch: any number of ELSE segments, then ENDIF. */
  datatype Elses =
    | EndIf
    | Else(body: Block, more: Elses)

  predicate IsFlowOpcode(op: Byte) {
    op == OP_IF || op == OP_NOTIF || op == OP_ELSE || op == OP_ENDIF
  }

  predicate IsFlow(item: Item) {
    item.data.None? && IsFlowOpcode(item.opcode)
  }

  predicate Nested(p: Block) {
    match p
    case End => true
    case Then(item, rest) => !IsFlow(item) && Nested(rest)
    case Branch(opcode, body, elses, rest) =>
      (opcode == OP_IF || opcode == OP_NOTIF) && Nested(body) && NestedElses(elses) && Nested(rest)
  }

  predicate NestedElses(e: Elses) {
    match e
    case EndIf => true
    case Else(body, more) => Nested(body) && NestedElses(more)
  }

  function Flatten(p: Block): seq<Item> {
    match p
    case End => []
    case Then(item, rest) => [item] + Flatten(rest)
    case Branch(opcode, body, elses, rest) =>
      [Item(opcode, None)] + (Flatten(body) + (FlattenElses(elses) + Flatten(rest)))
  }

  function FlattenElses(e: Elses): seq<Item> {
    match e
    case EndIf => [Item(OP_ENDIF, None)]
    case Else(body, more) => [Item(OP_ELSE, None)] + (Flatten(body) + FlattenElses(more))
  }

  // ---------------------------------------------------------------------------
  // The recursive evaluator
  // ---------------------------------------------------------------------------

  /** Stacks and op count; there is no condition list. */
  type Progress = (Stacks, nat)

  /** A dead item still counts and still meets the guard, unless it is a data push. */
  function EvalItem(item: Item, live: bool, s: Stacks, ops: nat, ctx: Context): Result<Progress>
    requires !IsFlow(item)
  {
    if item.data.Some? then
      match PushData(item.data.value, live, s)
      case Err(e) => Err(e)
      case Ok(s') => Ok((s', ops))
    else
      match Guard(item.opcode, s, ops)
      case Err(e) => Err(e)
      case Ok(ops') =>
        if !live then Ok((s, ops'))
        else
          match Live(item.opcode, s, ctx)
          case Err(e) => Err(e)
          case Ok(s') => Ok((s', ops'))
  }

  /** The condition is popped only where the branch is live; a dead branch chooses nothing. */
  function Choose(opcode: Byte, live: bool, s: Stacks): Result<(Stacks, bool)> {
    if live then PopCondition(opcode, s) else Ok((s, false))
  }

  function Eval(p: Block, live: bool, s: Stacks, ops: nat, ctx: Context): Result<Progress>
    requires Nested(p)
  {
    match p
    case End => Ok((s, ops))
    case Then(item, rest) =>
      var r := EvalItem(item, live, s, ops, ctx);
      if r.Err? then r else Eval(rest, live, r.value.0, r.value.1, ctx)
    case Branch(opcode, body, elses, rest) =>
      var g := Guard(opcode, s, ops);
      if g.Err? then Err(g.error) else
      var c := Choose(opcode, live, s);
      if c.Err? then Err(c.error) else
      var r := Eval(body, live && c.value.1, c.value.0, g.value, ctx);
      if r.Err? then r else
      var r' := EvalElses(elses, live, c.value.1, r.value.0, r.value.1, ctx);
      if r'.Err? then r' else Eval(rest, live, r'.value.0, r'.value.1, ctx)
  }

  /** Each ELSE runs the segment the previous one did not. */
  function EvalElses(e: Elses, live: bool, taken: bool, s: Stacks, ops: nat, ctx: Context): Result<Progress>
    requires NestedElses(e)
  {
    match e
    case EndIf =>
      var g := Guard(OP_ENDIF, s, ops);
      if g.Err? then Err(g.error) else Ok((s, g.value))
    case Else(body, more) =>
      var g := Guard(OP_ELSE, s, ops);
      if g.Err? then Err(g.error) else
      var r := Eval(body, live && !taken, s, g.value, ctx);
      if r.Err? then r else EvalElses(more, live, !taken, r.value.0, r.value.1, ctx)
  }

  // ---------------------------------------------------------------------------
  // The flat loop agrees with it
  // ---------------------------------------------------------------------------

  function Resumed(r: Result<Progress>, cond: seq<bool>): Result<Config> {
    match r
    case Err(e) => Err(e)
    case Ok((s, ops)) => Ok(Config(s, cond, ops))
  }

  lemma ExecutingSnoc(outer: seq<bool>, b: bool)
    ensures Executing(outer + [b]) <==> Executing(outer) && b
  {
    assert b in outer + [b];
    assert forall x :: x in outer ==> x in outer + [b];
  }

  lemma {:induction false} FlatRunsBlock(p: Block, cond: seq<bool>, s: Stacks, ops: nat, ctx: Context)
    requires Nested(p)
    ensures Run(Flatten(p), Config(s, cond, ops), ctx) == Resumed(Eval(p, Executing(cond), s, ops, ctx), cond)
    decreases p
  {
    var live, start := Executing(cond), Config(s, cond, ops);
    match p
    case End =>
    case Then(item, rest) =>
      RunCons(item, Flatten(rest), start, ctx);
      var r := EvalItem(item, live, s, ops, ctx);
      assert Step(item, start, ctx) == Resumed(r, cond);
      if r.Ok? {
        FlatRunsBlock(rest, cond, r.value.0, r.value.1, ctx);
      }
    case Branch(opcode, body, elses, rest) =>
      var tail := FlattenElses(elses) + Flatten(rest);
      RunCons(Item(opcode, None), Flatten(body) + tail, start, ctx);
      var g, c := Guard(opcode, s, ops), Choose(opcode, live, s);
      if g.Ok? && c.Ok? {
        var inner := cond + [live && c.value.1];
        ExecutingSnoc(cond, live && c.value.1);
        assert Step(Item(opcode, None), start, ctx) == Ok(Config(c.value.0, inner, g.value));
        FlatRunsBlock(body, inner, c.value.0, g.value, ctx);
        RunAppend(Flatten(body), tail, Config(c.value.0, inner, g.value), ctx);
        var r := Eval(body, live && c.value.1, c.value.0, g.value, ctx);
        if r.Ok? {
          FlatRunsElses(elses, cond, c.value.1, r.value.0, r.value.1, ctx);
          RunAppend(FlattenElses(elses), Flatten(rest), Config(r.value.0, inner, r.value.1), ctx);
          var r' := EvalElses(elses, live, c.value.1, r.value.0, r.value.1, ctx);
          if r'.Ok? {
            FlatRunsBlock(rest, cond, r'.value.0, r'.value.1, ctx);
          }
        }
      }
  }

  lemma {:induction false} FlatRunsElses(
    e: Elses, outer: seq<bool>, taken: bool, s: Stacks, ops: nat, ctx: Context)
    requires NestedElses(e)
    ensures var live := Executing(outer);
      Run(FlattenElses(e), Config(s, outer + [live && taken], ops), ctx)
      == Resumed(EvalElses(e, live, taken, s, ops, ctx), outer)
    decreases e
  {
    var live := Executing(outer);
    var cond := outer + [live && taken];
    var start := Config(s, cond, ops);
    assert cond[..|cond| - 1] == outer;
    match e
    case EndIf =>
      var close := Item(OP_ENDIF, None);
      assert [close] == [close] + [];
      RunCons(close, [], start, ctx);
    case Else(body, more) =>
      RunCons(Item(OP_ELSE, None), Flatten(body) + FlattenElses(more), start, ctx);
      var g := Guard(OP_ELSE, s, ops);
      if g.Ok? {
        var cond' := outer + [live && !taken];
        assert live || cond' == cond;
        ExecutingSnoc(outer, live && !taken);
        FlatRunsBlock(body, cond', s, g.value, ctx);
        RunAppend(Flatten(body), FlattenElses(more), Config(s, cond', g.value), ctx);
        var r := Eval(body, live && !taken, s, g.value, ctx);
        if r.Ok? {
          FlatRunsElses(more, outer, !taken, r.value.0, r.value.1, ctx);
        }
      }
  }

  // ---------------------------------------------------------------------------
  // Which branch is taken
  // ---------------------------------------------------------------------------

  /** An executing IF or NOTIF pops a number, and opens a branch by whether it is zero. */
  lemma IfStep(op: Byte, x: Element, base: seq<Element>, alt: seq<Element>, cond: seq<bool>, ops: nat, ctx: Context)
    requires (op == 0x63 || op == 0x64) && forall b :: b in cond ==> b
    ensures Step(Item(op, None), Config(Stacks(base + [x], alt), cond, ops), ctx) ==
      if ops >= 201 then Err(OpCount)
      else if |base| + 1 + |alt| > 1000 then Err(StackSize)
      else Ok(Config(Stacks(base, alt), cond + [if op == 0x63 then Decode(x) != 0 else Decode(x) == 0], ops + 1))
  {
  }

  /** The counter after items that are passed unexecuted: data is skipped, all else is counted and guarded. */
  function Passed(items: seq<Item>, s: Stacks, ops: nat): Result<nat> {
    if items == [] then Ok(ops)
    else
      var next :- PassedOne(items[0], s, ops);
      Passed(items[1..], s, next)
  }

  function PassedOne(item: Item, s: Stacks, ops: nat): Result<nat> {
    if item.data.Some? then Ok(ops)
    else if item.opcode > 0x60 && ops >= 201 then Err(OpCount)
    else if |s.main| + |s.alt| > 1000 then Err(StackSize)
    else Ok(if item.opcode > 0x60 then ops + 1 else ops)
  }

  /** Pass more unless already stopped. */
  function PassOn(r: Result<nat>, items: seq<Item>, s: Stacks): Result<nat> {
    if r.Err? then r else Passed(items, s, r.value)
  }

  lemma PassedCons(item: Item, rest: seq<Item>, s: Stacks, ops: nat)
    ensures Passed([item] + rest, s, ops) == PassOn(PassedOne(item, s, ops), rest, s)
  {
  }

  lemma {:induction false} PassedAppend(a: seq<Item>, b: seq<Item>, s: Stacks, ops: nat)
    ensures Passed(a + b, s, ops) == PassOn(Passed(a, s, ops), b, s)
  {
    if a == [] {
      assert a + b == b;
    } else {
      assert (a + b)[0] == a[0] && (a + b)[1..] == a[1..] + b;
      var next := PassedOne(a[0], s, ops);
      if next.Ok? {
        PassedAppend(a[1..], b, s, next.value);
      }
    }
  }

  /** The stacks stay, the counter goes on. */
  function Still(s: Stacks, r: Result<nat>): Result<Progress> {
    match r
    case Err(e) => Err(e)
    case Ok(ops) => Ok((s, ops))
  }

  /** A dead block is passed. */
  lemma {:induction false} DeadBlock(p: Block, s: Stacks, ops: nat, ctx: Context)
    requires Nested(p)
    ensures Eval(p, false, s, ops, ctx) == Still(s, Passed(Flatten(p), s, ops))
    decreases p
  {
    match p
    case End =>
    case Then(item, rest) =>
      PassedCons(item, Flatten(rest), s, ops);
      var next := PassedOne(item, s, ops);
      if next.Ok? {
        DeadBlock(rest, s, next.value, ctx);
      }
    case Branch(opcode, body, elses, rest) =>
      var tail := FlattenElses(elses) + Flatten(rest);
      PassedCons(Item(opcode, None), Flatten(body) + tail, s, ops);
      var next := PassedOne(Item(opcode, None), s, ops);
      if next.Ok? {
        PassedAppend(Flatten(body), tail, s, next.value);
        DeadBlock(body, s, next.value, ctx);
        var inner := Passed(Flatten(body), s, next.value);
        if inner.Ok? {
          PassedAppend(FlattenElses(elses), Flatten(rest), s, inner.value);
          DeadElses(elses, false, s, inner.value, ctx);
          var last := Passed(FlattenElses(elses), s, inner.value);
          if last.Ok? {
            DeadBlock(rest, s, last.value, ctx);
          }
        }
      }
  }

  lemma {:induction false} DeadElses(e: Elses, taken: bool, s: Stacks, ops: nat, ctx: Context)
    requires NestedElses(e)
    ensures EvalElses(e, false, taken, s, ops, ctx) == Still(s, Passed(FlattenElses(e), s, ops))
    decreases e
  {
    match e
    case EndIf =>
      PassedCons(Item(OP_ENDIF, None), [], s, ops);
      assert [Item(OP_ENDIF, None)] + [] == [Item(OP_ENDIF, None)];
    case Else(body, more) =>
      PassedCons(Item(OP_ELSE, None), Flatten(body) + FlattenElses(more), s, ops);
      var next := PassedOne(Item(OP_ELSE, None), s, ops);
      if next.Ok? {
        PassedAppend(Flatten(body), FlattenElses(more), s, next.value);
        DeadBlock(body, s, next.value, ctx);
        var inner := Passed(Flatten(body), s, next.value);
        if inner.Ok? {
          DeadElses(more, !taken, s, inner.value, ctx);
        }
      }
  }

  /** After a run, back under these conditions, with more items passed. */
  function ThenPass(r: Result<Config>, items: seq<Item>, cond: seq<bool>): Result<Config> {
    match r
    case Err(e) => Err(e)
    case Ok(c) =>
      match Passed(items, c.stacks, c.ops)
      case Err(e) => Err(e)
      case Ok(ops) => Ok(Config(c.stacks, cond, ops))
  }

  /** A run from a counter, unless there is none. */
  function RunFrom(start: Result<nat>, items: seq<Item>, s: Stacks, ctx: Context): Result<Config> {
    match start
    case Err(e) => Err(e)
    case Ok(ops) => Run(items, Config(s, [], ops), ctx)
  }

  function ThenElses(r: Result<Progress>, e: Elses, taken: bool, ctx: Context): Result<Progress>
    requires NestedElses(e)
  {
    if r.Err? then r else EvalElses(e, true, taken, r.value.0, r.value.1, ctx)
  }

  /** IF a ELSE b ENDIF, or with NOTIF. */
  function IfElse(op: Byte, a: Block, b: Block): seq<Item> {
    [Item(op, None)] + (Flatten(a) + ([Item(0x67, None)] + (Flatten(b) + [Item(0x68, None)])))
  }

  lemma PassedLast(op: Byte, s: Stacks, ops: nat)
    ensures Passed([Item(op, None)], s, ops) == PassedOne(Item(op, None), s, ops)
  {
    PassedCons(Item(op, None), [], s, ops);
    assert [Item(op, None)] + [] == [Item(op, None)];
  }

  /** After a taken segment, ELSE, the other segment and ENDIF are passed. */
  lemma ElsePassed(b: Block, s: Stacks, ops: nat, ctx: Context)
    requires Nested(b)
    ensures EvalElses(Else(b, EndIf), true, true, s, ops, ctx)
      == Still(s, Passed([Item(0x67, None)] + (Flatten(b) + [Item(0x68, None)]), s, ops))
  {
    PassedCons(Item(0x67, None), Flatten(b) + [Item(0x68, None)], s, ops);
    var next := PassedOne(Item(0x67, None), s, ops);
    if next.Ok? {
      PassedAppend(Flatten(b), [Item(0x68, None)], s, next.value);
      DeadBlock(b, s, next.value, ctx);
      if Passed(Flatten(b), s, next.value).Ok? {
        PassedLast(0x68, s, Passed(Flatten(b), s, next.value).value);
      }
    }
  }

  /** After a segment that was passed, ELSE is passed, the other segment runs, and ENDIF is passed. */
  lemma ElseRuns(b: Block, s: Stacks, ops: nat, cond: seq<bool>, ctx: Context)
    requires Nested(b)
    ensures Resumed(EvalElses(Else(b, EndIf), true, false, s, ops, ctx), cond) ==
      ThenPass(RunFrom(Passed([Item(0x67, None)], s, ops), Flatten(b), s, ctx), [Item(0x68, None)], cond)
  {
    PassedLast(0x67, s, ops);
    var next := PassedOne(Item(0x67, None), s, ops);
    if next.Ok? {
      FlatRunsBlock(b, [], s, next.value, ctx);
      var r := Eval(b, true, s, next.value, ctx);
      if r.Ok? {
        PassedLast(0x68, r.value.0, r.value.1);
      }
    }
  }

  /** With the counter and the guard passed, a branch is its body and its elses in turn. */
  lemma BranchEval(op: Byte, x: Element, s: Stacks, ops: nat, a: Block, e: Elses, ctx: Context)
    requires (op == 0x63 || op == 0x64) && Nested(a) && NestedElses(e)
    requires ops < 201 && |s.main| + 1 + |s.alt| <= 1000
    ensures var val := (op == 0x63) == (Decode(x) != 0);
      Eval(Branch(op, a, e, End), true, s.(main := s.main + [x]), ops, ctx) ==
        ThenElses(Eval(a, val, s, ops + 1, ctx), e, val, ctx)
  {
    assert Below(s.main + [x]) == s.main;
  }

  lemma IfElseIsBranch(op: Byte, a: Block, b: Block)
    ensures Flatten(Branch(op, a, Else(b, EndIf), End)) == IfElse(op, a, b)
  {
    var last := [Item(0x67, None)] + (Flatten(b) + [Item(0x68, None)]);
    assert FlattenElses(EndIf) == [Item(0x68, None)] && FlattenElses(Else(b, EndIf)) == last;
    assert Flatten(End) == [] && last + [] == last;
  }

  lemma TakesFirst(a: Block, b: Block, s: Stacks, ops: nat, cond: seq<bool>, ctx: Context)
    requires Nested(a) && Nested(b)
    ensures Resumed(ThenElses(Eval(a, true, s, ops, ctx), Else(b, EndIf), true, ctx), cond)
      == ThenPass(Run(Flatten(a), Config(s, [], ops), ctx),
                  [Item(0x67, None)] + (Flatten(b) + [Item(0x68, None)]), cond)
  {
    FlatRunsBlock(a, [], s, ops, ctx);
    var r := Eval(a, true, s, ops, ctx);
    if r.Ok? {
      ElsePassed(b, r.value.0, r.value.1, ctx);
    }
  }

  lemma TakesSecond(a: Block, b: Block, s: Stacks, ops: nat, cond: seq<bool>, ctx: Context)
    requires Nested(a) && Nested(b)
    ensures Resumed(ThenElses(Eval(a, false, s, ops, ctx), Else(b, EndIf), false, ctx), cond)
      == ThenPass(RunFrom(Passed(Flatten(a) + [Item(0x67, None)], s, ops), Flatten(b), s, ctx),
                  [Item(0x68, None)], cond)
  {
    DeadBlock(a, s, ops, ctx);
    PassedAppend(Flatten(a), [Item(0x67, None)], s, ops);
    var n := Passed(Flatten(a), s, ops);
    if n.Ok? {
      ElseRuns(b, s, n.value, cond, ctx);
    }
  }

  /**
   IF a ELSE b ENDIF on a number that is not zero does what a does without it, and passes
   b; on zero it passes a and does what b does. NOTIF is the reverse.
   */
  lemma IfElseRuns(op: Byte, x: Element, s: Stacks, cond: seq<bool>, ops: nat, a: Block, b: Block, ctx: Context)
    requires (op == 0x63 || op == 0x64) && Nested(a) && Nested(b) && forall c :: c in cond ==> c
    requires ops < 201 && |s.main| + 1 + |s.alt| <= 1000
    ensures var r := Run(IfElse(op, a, b), Config(s.(main := s.main + [x]), cond, ops), ctx);
      if (op == 0x63) == (Decode(x) != 0) then
        r == ThenPass(Run(Flatten(a), Config(s, [], ops + 1), ctx),
                      [Item(0x67, None)] + (Flatten(b) + [Item(0x68, None)]), cond)
      else
        r == ThenPass(RunFrom(Passed(Flatten(a) + [Item(0x67, None)], s, ops + 1), Flatten(b), s, ctx),
                      [Item(0x68, None)], cond)
  {
    var start := s.(main := s.main + [x]);
    var p := Branch(op, a, Else(b, EndIf), End);
    IfElseIsBranch(op, a, b);
    FlatRunsBlock(p, cond, start, ops, ctx);
    BranchEval(op, x, s, ops, a, Else(b, EndIf), ctx);
    if (op == 0x63) == (Decode(x) != 0) {
      TakesFirst(a, b, s, ops + 1, cond, ctx);
    } else {
      TakesSecond(a, b, s, ops + 1, cond, ctx);
    }
  }

  // ---------------------------------------------------------------------------
  // Success implies nesting
  // ---------------------------------------------------------------------------

  /** The IF depth after the items, or nothing if an ELSE or ENDIF has no IF. */
  function Depth(items: seq<Item>, d: nat): Option<nat> {
    if items == [] then Some(d)
    else if !IsFlow(items[0]) then Depth(items[1..], d)
    else if items[0].opcode == OP_ELSE then
      if d == 0 then None else Depth(items[1..], d)
    else if items[0].opcode == OP_ENDIF then
      if d == 0 then None else Depth(items[1..], d - 1)
    else Depth(items[1..], d + 1)
  }

  lemma {:induction false} RunTracksDepth(items: seq<Item>, c: Config, ctx: Context)
    requires Run(items, c, ctx).Ok?
    ensures Depth(items, |c.cond|) == Some(|Run(items, c, ctx).value.cond|)
  {
    if items != [] {
      RunTracksDepth(items[1..], Step(items[0], c, ctx).value, ctx);
    }
  }

  predicate Closes(items: seq<Item>) {
    items != [] && IsFlow(items[0]) && (items[0].opcode == OP_ELSE || items[0].opcode == OP_ENDIF)
  }

  /** Read one block off the front, up to the ELSE or ENDIF that ends it. */
  lemma {:induction false} ReadBlock(items: seq<Item>, d: nat) returns (p: Block, rest: seq<Item>)
    requires Depth(items, d).Some? && Depth(items, d).value <= d
    ensures Nested(p) && items == Flatten(p) + rest && |rest| <= |items|
    ensures rest == [] || Closes(rest)
    ensures Depth(rest, d) == Depth(items, d)
    decreases |items|
  {
    if items == [] || Closes(items) {
      p, rest := End, items;
      assert items == [] + items;
    } else if !IsFlow(items[0]) {
      p, rest := ReadBlock(items[1..], d);
      assert items == [items[0]] + items[1..];
      p := Then(items[0], p);
    } else {
      var body, afterBody := ReadBlock(items[1..], d + 1);
      var elses, afterElses := ReadElses(afterBody, d);
      var next, last := ReadBlock(afterElses, d);
      p, rest := Branch(items[0].opcode, body, elses, next), last;
      JoinBranch(items, body, elses, next, rest);
    }
  }

  lemma JoinBranch(items: seq<Item>, body: Block, elses: Elses, next: Block, rest: seq<Item>)
    requires items != [] && items[0].data.None?
    requires items[1..] == Flatten(body) + (FlattenElses(elses) + (Flatten(next) + rest))
    ensures items == Flatten(Branch(items[0].opcode, body, elses, next)) + rest
  {
  }

  lemma {:induction false} ReadElses(items: seq<Item>, d: nat) returns (e: Elses, rest: seq<Item>)
    requires Closes(items)
    requires Depth(items, d + 1).Some? && Depth(items, d + 1).value <= d
    ensures NestedElses(e) && items == FlattenElses(e) + rest && |rest| < |items|
    ensures Depth(rest, d) == Depth(items, d + 1)
    decreases |items|
  {
    assert items == [items[0]] + items[1..];
    if items[0].opcode == OP_ENDIF {
      e, rest := EndIf, items[1..];
    } else {
      var body, afterBody := ReadBlock(items[1..], d + 1);
      var more, last := ReadElses(afterBody, d);
      e, rest := Else(body, more), last;
      assert FlattenElses(e) + rest == [items[0]] + (Flatten(body) + (FlattenElses(more) + rest));
    }
  }

  lemma BalancedIsNested(items: seq<Item>) returns (p: Block)
    requires Depth(items, 0) == Some(0)
    ensures Nested(p) && Flatten(p) == items
  {
    var rest;
    p, rest := ReadBlock(items, 0);
    assert rest == [];
    assert Flatten(p) + [] == Flatten(p);
  }

  ghost predicate EvaluatesTo(items: seq<Item>, s: Stacks, s': Stacks, ctx: Context) {
    exists p :: Nested(p) && Flatten(p) == items
      && Eval(p, true, s, 0, ctx).Ok? && Eval(p, true, s, 0, ctx).value.0 == s'
  }

  /**
   The loop accepts a script exactly when it is short enough, parses to its end,
   and its items are a nesting of blocks that evaluates; the stacks are the same.
   */
  lemma ScriptRunsNested(script: Bytes, s: Stacks, s': Stacks, ctx: Context)
    ensures RunScript(script, s, ctx) == Ok(s') <==>
      && |script| <= MAX_SCRIPT_SIZE
      && !ctx.lib.parse(script).truncated
      && EvaluatesTo(ctx.lib.parse(script).items, s, s', ctx)
  {
    var items := ctx.lib.parse(script).items;
    if RunScript(script, s, ctx) == Ok(s') {
      RunTracksDepth(items, Config(s, [], 0), ctx);
      var p := BalancedIsNested(items);
      FlatRunsBlock(p, [], s, 0, ctx);
    }
    if EvaluatesTo(items, s, s', ctx) {
      var p :| Nested(p) && Flatten(p) == items
        && Eval(p, true, s, 0, ctx).Ok? && Eval(p, true, s, 0, ctx).value.0 == s';
      FlatRunsBlock(p, [], s, 0, ctx);
    }
  }

  // ---------------------------------------------------------------------------
  // Depth and live depth stand for the list
  // ---------------------------------------------------------------------------

  /** `depth` open branches, of which the outermost `live` are being executed. */
  datatype Nest = Nest(depth: nat, live: nat) {
    ghost predicate Valid() {
      live <= depth
    }
    /** The list this stands for: trues, then falses. */
    function List(): seq<bool> {
      seq(depth, i => i < live)
    }
    function Open(taken: bool): Nest {
      Nest(depth + 1, if live == depth && taken then live + 1 else live)
    }
    function Toggle(): Nest
      requires depth > 0
    {
      if live == depth then Nest(depth, live - 1)
      else if live == depth - 1 then Nest(depth, depth)
      else this
    }
    function Close(): Nest
      requires depth > 0
    {
      Nest(depth - 1, if live == depth then live - 1 else live)
    }
  }

  datatype NestConfig = NestConfig(stacks: Stacks, nest: Nest, ops: nat) {
    function Flat(): Config {
      Config(stacks, nest.List(), ops)
    }
  }

  function FlatResult(r: Result<NestConfig>): Result<Config> {
    match r
    case Err(e) => Err(e)
    case Ok(c) => Ok(c.Flat())
  }

  /** The loop body with the list replaced by the two numbers. */
  function NestStep(item: Item, c: NestConfig, ctx: Context): Result<NestConfig> {
    var live := c.nest.live == c.nest.depth;
    if !IsFlow(item) then
      var r := EvalItem(item, live, c.stacks, c.ops, ctx);
      if r.Err? then Err(r.error) else Ok(NestConfig(r.value.0, c.nest, r.value.1))
    else
      var g := Guard(item.opcode, c.stacks, c.ops);
      if g.Err? then Err(g.error)
      else if item.opcode == OP_ELSE then
        if c.nest.depth == 0 then Err(Unbalanced) else Ok(NestConfig(c.stacks, c.nest.Toggle(), g.value))
      else if item.opcode == OP_ENDIF then
        if c.nest.depth == 0 then Err(Unbalanced) else Ok(NestConfig(c.stacks, c.nest.Close(), g.value))
      else
        var r := Choose(item.opcode, live, c.stacks);
        if r.Err? then Err(r.error) else Ok(NestConfig(r.value.0, c.nest.Open(r.value.1), g.value))
  }

  function NestRun(items: seq<Item>, c: NestConfig, ctx: Context): Result<NestConfig> {
    if items == [] then Ok(c)
    else
      var r := NestStep(items[0], c, ctx);
      if r.Err? then r else NestRun(items[1..], r.value, ctx)
  }

  lemma NestLaws(n: Nest)
    requires n.Valid()
    ensures Executing(n.List()) <==> n.live == n.depth
    ensures forall taken: bool ::
      (n.Open(taken).Valid() && n.Open(taken).List() == n.List() + [n.live == n.depth && taken])
    ensures n.depth > 0 ==>
      && n.Close().Valid()
      && n.Close().List() == n.List()[..n.depth - 1]
      && n.Toggle().Valid()
      && n.Toggle().List() ==
         if Executing(n.Close().List()) then n.Close().List() + [!n.List()[n.depth - 1]] else n.List()
  {
    LiveList(n);
    if n.depth > 0 {
      LiveList(n.Close());
    }
  }

  lemma LiveList(n: Nest)
    requires n.Valid()
    ensures Executing(n.List()) <==> n.live == n.depth
  {
    if n.live < n.depth {
      assert n.List()[n.live] in n.List();
    }
  }

  lemma NestStepRefines(item: Item, c: NestConfig, ctx: Context)
    requires c.nest.Valid()
    ensures NestStep(item, c, ctx).Ok? ==> NestStep(item, c, ctx).value.nest.Valid()
    ensures Step(item, c.Flat(), ctx) == FlatResult(NestStep(item, c, ctx))
  {
    NestLaws(c.nest);
  }

  /** From the empty list, the condition list of every reachable state is trues then falses. */
  lemma {:induction false} NestRefines(items: seq<Item>, c: NestConfig, ctx: Context)
    requires c.nest.Valid()
    ensures NestRun(items, c, ctx).Ok? ==> NestRun(items, c, ctx).value.nest.Valid()
    ensures Run(items, c.Flat(), ctx) == FlatResult(NestRun(items, c, ctx))
  {
    if items != [] {
      NestStepRefines(items[0], c, ctx);
      var r := NestStep(items[0], c, ctx);
      if r.Ok? {
        NestRefines(items[1..], r.value, ctx);
      }
    }
  }

  /** Read on the list itself: once an entry is false, everything above it is false. */
  lemma ConditionShape(items: seq<Item>, s: Stacks, ctx: Context)
    requires Run(items, Config(s, [], 0), ctx).Ok?
    ensures var cond := Run(items, Config(s, [], 0), ctx).value.cond;
      forall i, j :: 0 <= i < j < |cond| && cond[j] ==> cond[i]
  {
    var c := NestConfig(s, Nest(0, 0), 0);
    assert c.Flat() == Config(s, [], 0);
    NestRefines(items, c, ctx);
  }
}
