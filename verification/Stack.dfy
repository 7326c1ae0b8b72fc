/** The two stacks a script works on, as the object every opcode handler mutates. */
module Stack {
  import opened ByteStrings

  type Element = Bytes

  datatype ScriptError =
    | StackUnderflow
    | VerifyFailed
    | OpDisabled
    | ScriptInvalid
    | PushSize
    | OpCount
    | StackSize
    | ScriptSize
    | Unbalanced

  /** A Python call that returns a value or raises. */
  datatype Result<+T> = Ok(value: T) | Err(error: ScriptError) {
    predicate IsFailure() {
      Err?
    }
    function PropagateFailure<U>(): Result<U>
      requires Err?
    {
      Err(error)
    }
    function Extract(): T
      requires Ok?
    {
      value
    }
  }

  function Top(m: seq<Element>): Element
    requires m != []
  {
    m[|m| - 1]
  }

  function Below(m: seq<Element>): seq<Element>
    requires m != []
  {
    m[..|m| - 1]
  }

  /** The contents of both stacks, bottom first. */
  datatype Stacks = Stacks(main: seq<Element>, alt: seq<Element>)

  /**
   What a handler does to the stacks: on success exactly what `spec` says; when
   it raises, it has only popped from the main stack, so a prefix is left.
   */
  ghost predicate Performs(spec: Result<Stacks>, r: Result<()>, before: Stacks, after: Stacks) {
    match spec
    case Ok(s) => r.Ok? && after == s
    case Err(e) => r == Err(e) && after.main <= before.main && after.alt == before.alt
  }

  class ScriptStack {
    var main: seq<Element>
    var alt: seq<Element>

    constructor ()
      ensures main == [] && alt == []
    {
      main, alt := [], [];
    }

    ghost function View(): Stacks
      reads this
    {
      Stacks(main, alt)
    }

    method Push(element: Element)
      modifies this
      ensures main == old(main) + [element] && alt == old(alt)
    {
      main := main + [element];
    }

    method Pop() returns (r: Result<Element>)
      modifies this
      ensures old(main) == [] ==> r == Err(StackUnderflow) && main == old(main) && alt == old(alt)
      ensures old(main) != [] ==>
        && r == Ok(Top(old(main)))
        && main == Below(old(main))
        && alt == old(alt)
    {
      if main == [] {
        return Err(StackUnderflow);
      }
      var top := main[|main| - 1];
      main := main[..|main| - 1];
      return Ok(top);
    }

    /** Python indexing: -1 is the top, 0 the bottom; out of range raises. */
    method Peek(index: int) returns (r: Result<Element>)
      ensures r == At(main, index)
    {
      if 0 <= index < |main| {
        return Ok(main[index]);
      } else if -|main| <= index < 0 {
        return Ok(main[|main| + index]);
      }
      return Err(StackUnderflow);
    }

    method PushAlt(element: Element)
      modifies this
      ensures main == old(main) && alt == old(alt) + [element]
    {
      alt := alt + [element];
    }

    method PopAlt() returns (r: Result<Element>)
      modifies this
      ensures old(alt) == [] ==> r == Err(StackUnderflow) && main == old(main) && alt == old(alt)
      ensures old(alt) != [] ==>
        && r == Ok(Top(old(alt)))
        && alt == Below(old(alt))
        && main == old(main)
    {
      if alt == [] {
        return Err(StackUnderflow);
      }
      var top := alt[|alt| - 1];
      alt := alt[..|alt| - 1];
      return Ok(top);
    }
  }

  function At(s: seq<Element>, index: int): Result<Element> {
    if 0 <= index < |s| then Ok(s[index])
    else if -|s| <= index < 0 then Ok(s[|s| + index])
    else Err(StackUnderflow)
  }
}
