/**
 * The calculator of chapter5/calculator-5-4: a line is either a memory write
 * `memX+` / `memX-`, which adds the previous result to, or subtracts it from,
 * slot `X`, or a single binary operation `left op right` whose operands are
 * numbers or memory reads `memX`.
 *
 * Values are reals; a division by zero, which f64 turns into an infinity or a
 * NaN, is the outcome NotFinite. Every panic of the source (an index past the
 * end, `unreachable!()`, an `unwrap` on a number that does not parse) is the
 * outcome Panic. Number parsing (`str::parse::<f64>`) is the parameter `number`.
 */
module Calculator54 {
  import opened Wrappers
  import opened Whitespace
  import opened Slots
  import opened Console

  /** The slot named by a write token `memX+` / `memX-`: what lies between `mem` and the sign. */
  function WriteSlot(token: string): (name: string)
    requires |token| >= 4
    ensures token == token[..3] + name + [token[|token| - 1]]
  {
    token[3..|token| - 1]
  }

  /** The slot named by a read token `memX`: what follows `mem`. */
  function ReadSlot(token: string): (name: string)
    requires |token| >= 3
    ensures token == token[..3] + name
  {
    token[3..]
  }

  /** A write token and the matching read token name the same slot. */
  lemma SlotNames(name: string, sign: char)
    ensures WriteSlot("mem" + name + [sign]) == ReadSlot("mem" + name) == name
  {
    assert ("mem" + name + [sign])[3..|name| + 3] == name;
  }

  /** The memory of the calculator (`struct Memory`), addressed by whole tokens. */
  class Memory {
    var slots: map<string, real>

    constructor ()
      ensures slots == map[]
    {
      slots := map[];
    }

    /** `Memory::add`: adds `prevResult` to the slot the write token names and returns the new total. */
    method Add(token: string, prevResult: real) returns (total: real)
      requires |token| >= 4
      modifies this
      ensures slots == Accumulated(old(slots), WriteSlot(token), prevResult)
      ensures total == Lookup(old(slots), WriteSlot(token)) + prevResult
    {
      var slotName := token[3..|token| - 1];
      if slotName in slots {
        slots := slots[slotName := slots[slotName] + prevResult];
        total := slots[slotName];
      } else {
        slots := slots[slotName := prevResult];
        total := prevResult;
      }
    }

    /** `Memory::get`: the value of the slot the read token names, or 0 for a slot never written. */
    function Get(token: string): (v: real)
      requires |token| >= 3
      reads this
      ensures ReadSlot(token) in slots ==> v == slots[ReadSlot(token)]
      ensures ReadSlot(token) !in slots ==> v == 0.0
    {
      Lookup(slots, token[3..])
    }
  }

  /** `eval_token`: a memory read, or a number; None where the number parse panics. */
  function EvalToken(token: string, slots: map<string, real>, number: string -> Option<real>): (r: Option<real>)
    ensures StartsWithMem(token) ==> r.Some? && r.value == Lookup(slots, ReadSlot(token))
    ensures !StartsWithMem(token) ==> r == number(token)
  {
    if StartsWithMem(token) then Some(Lookup(slots, token[3..])) else number(token)
  }

  /** The result of one binary operation. */
  datatype Outcome = Ok(value: real) | Panic | NotFinite

  predicate IsOperator(op: string)
  {
    op == "+" || op == "-" || op == "*" || op == "/"
  }

  /** `eval_expression`: one of the four operators, `unreachable!()` for anything else. */
  function EvalExpression(left: real, op: string, right: real): (r: Outcome)
    ensures r.Panic? <==> !IsOperator(op)
    ensures r.NotFinite? <==> op == "/" && right == 0.0
    ensures op == "/" && r.Ok? ==> r.value * right == left
  {
    match op
    case "+" => Ok(left + right)
    case "-" => Ok(left - right)
    case "*" => Ok(left * right)
    case "/" => if right == 0.0 then NotFinite else Ok(left / right)
    case _ => Panic
  }

  /** A write token: `mem` followed by anything, ending in `sign`. */
  predicate IsWrite(token: string, sign: char)
  {
    StartsWithMem(token) && token[|token| - 1] == sign
  }

  /** A write `memX+` / `memX-`: slot `X` gains the previous result, or loses it, and is printed. */
  function Written(token: string, sign: char, slots: map<string, real>, prev: real): (r: Step)
    requires IsWrite(token, sign) && sign != 'm'
    ensures r.prev == prev
    ensures r.reply == Output(Lookup(slots, WriteSlot(token)) + (if sign == '+' then prev else -prev))
    ensures r.slots == Accumulated(slots, WriteSlot(token), if sign == '+' then prev else -prev)
  {
    assert token[2] == token[..3][2];
    var name := WriteSlot(token);
    var delta := if sign == '+' then prev else -prev;
    Step(Output(Lookup(slots, name) + delta), Accumulated(slots, name, delta), prev)
  }

  /** `left op right`: both operands evaluated, then the operation; the result is printed and kept. */
  function Evaluated(tokens: seq<string>, slots: map<string, real>, prev: real, number: string -> Option<real>): (r: Step)
    requires tokens != []
    ensures r.slots == slots
    ensures r.prev != prev ==> r.reply == Output(r.prev)
    ensures r.reply.Output? <==> (|tokens| >= 3 && EvalToken(tokens[0], slots, number).Some?
      && EvalToken(tokens[2], slots, number).Some?
      && EvalExpression(EvalToken(tokens[0], slots, number).value, tokens[1], EvalToken(tokens[2], slots, number).value).Ok?)
    ensures r.reply.Output? ==>
      Ok(r.reply.value) == EvalExpression(EvalToken(tokens[0], slots, number).value, tokens[1], EvalToken(tokens[2], slots, number).value)
  {
    match EvalToken(tokens[0], slots, number)
    case None => Step(Panicked, slots, prev)
    case Some(left) =>
      if |tokens| < 3 then Step(Panicked, slots, prev)
      else match EvalToken(tokens[2], slots, number)
        case None => Step(Panicked, slots, prev)
        case Some(right) =>
          match EvalExpression(left, tokens[1], right)
          case Ok(v) => Step(Output(v), slots, v)
          case Panic => Step(Panicked, slots, prev)
          case NotFinite => Step(NonFinite, slots, prev)
  }

  /**
   * One pass of the loop in `main`: an empty line stops; a line whose first
   * piece is `memX+` or `memX-` writes the memory and prints the slot; any
   * other line is `left op right`, evaluated, printed, and kept as the
   * previous result.
   */
  function Respond(line: string, slots: map<string, real>, prev: real, number: string -> Option<real>): (r: Step)
    ensures r.reply.Stop? <==> line == []
    ensures slots.Keys <= r.slots.Keys
    ensures r.slots != slots ==> r.prev == prev && r.reply.Output?
    ensures r.prev != prev ==> r.slots == slots && r.reply == Output(r.prev)
  {
    if line == [] then Step(Stop, slots, prev)
    else
      var tokens := Pieces(line);
      if IsWrite(tokens[0], '+') then Written(tokens[0], '+', slots, prev)
      else if IsWrite(tokens[0], '-') then Written(tokens[0], '-', slots, prev)
      else Evaluated(tokens, slots, prev, number)
  }

  lemma NoWhitespaceConcat(a: string, b: string)
    requires NoWhitespace(a) && NoWhitespace(b)
    ensures NoWhitespace(a + b)
  {
    forall i | 0 <= i < |a + b| ensures !IsWhitespace((a + b)[i]) {
      if i >= |a| {
        assert (a + b)[i] == b[i - |a|];
      }
    }
  }

  /** The write line of `WriteThenRead` is a single piece. */
  lemma WritePieces(name: string)
    requires NoWhitespace(name)
    ensures Pieces("mem" + name + "+") == ["mem" + name + "+"]
  {
    NoWhitespaceConcat("mem", name);
    NoWhitespaceConcat("mem" + name, "+");
    PiecesOfWord("mem" + name + "+");
  }

  /** Three words without whitespace, separated by single spaces, are three pieces. */
  lemma ThreePieces(a: string, op: string, b: string)
    requires NoWhitespace(a) && NoWhitespace(op) && NoWhitespace(b)
    ensures Pieces(a + " " + op + " " + b) == [a, op, b]
  {
    var tail := op + [' '] + b;
    PiecesOfWord(b);
    PiecesOfWordThenSeparator(op, ' ', b);
    assert Pieces(tail) == [op, b];
    PiecesOfWordThenSeparator(a, ' ', tail);
    assert a + " " + op + " " + b == a + [' '] + tail;
  }

  /** The read line of `WriteThenRead` is three pieces. */
  lemma ReadPieces(name: string)
    requires NoWhitespace(name)
    ensures Pieces("mem" + name + " + 0") == ["mem" + name, "+", "0"]
  {
    NoWhitespaceConcat("mem", name);
    assert NoWhitespace("+") && NoWhitespace("0");
    ThreePieces("mem" + name, "+", "0");
    assert "mem" + name + " + 0" == "mem" + name + " " + "+" + " " + "0";
  }

  /**
   * A line `left op right` whose first piece is not a memory write: both
   * operands are evaluated, then the operation; its value is printed and kept
   * as the previous result, and the memory is left alone.
   */
  lemma ExpressionLine(left: string, op: string, right: string, slots: map<string, real>, prev: real,
                       number: string -> Option<real>)
    requires NoWhitespace(left) && NoWhitespace(op) && NoWhitespace(right)
    requires !IsWrite(left, '+') && !IsWrite(left, '-')
    ensures var l, r := EvalToken(left, slots, number), EvalToken(right, slots, number);
      Respond(left + " " + op + " " + right, slots, prev, number) ==
        if l.None? || r.None? then Step(Panicked, slots, prev)
        else match EvalExpression(l.value, op, r.value)
          case Ok(v) => Step(Output(v), slots, v)
          case Panic => Step(Panicked, slots, prev)
          case NotFinite => Step(NonFinite, slots, prev)
  {
    ThreePieces(left, op, right);
  }

  /** `memX+` prints the new total of slot `X`, and `memX + 0` afterwards prints that total again. */
  lemma WriteThenRead(slots: map<string, real>, prev: real, name: string, number: string -> Option<real>)
    requires NoWhitespace(name) && PlainName(name)
    requires number("0") == Some(0.0)
    ensures var total := Lookup(slots, name) + prev;
      var written := Respond("mem" + name + "+", slots, prev, number);
      written == Step(Output(total), Accumulated(slots, name, prev), prev)
      && Respond("mem" + name + " + 0", written.slots, prev, number) == Step(Output(total), written.slots, total)
  {
    var read := "mem" + name;
    var write := read + "+";
    assert read[..3] == "mem";
    assert write[..3] == "mem";
    WritePieces(name);
    ReadPieces(name);
    SlotNames(name, '+');
    assert write == "mem" + name + "+";
    if name != [] {
      assert read[|read| - 1] == name[|name| - 1];
    }
    assert !IsWrite(read, '+') && !IsWrite(read, '-');
    var written := Respond(write, slots, prev, number);
    assert written == Written(write, '+', slots, prev);
    assert EvalToken(read, written.slots, number) == Some(Lookup(slots, name) + prev);
  }

  /** The loop body of `main`, over the memory object and the previous result. */
  method ProcessLine(line: string, memory: Memory, prevResult: real, number: string -> Option<real>)
    returns (reply: Reply, newPrev: real)
    modifies memory
    ensures Step(reply, memory.slots, newPrev) == Respond(line, old(memory.slots), prevResult, number)
  {
    if line == [] {
      return Stop, prevResult;
    }
    var tokens := Pieces(line);
    var first := tokens[0];
    var isMemory := StartsWithMem(first);
    newPrev := prevResult;
    if isMemory && first[|first| - 1] == '+' {
      assert first[2] == first[..3][2];
      var total := memory.Add(first, prevResult);
      return Output(total), newPrev;
    } else if isMemory && first[|first| - 1] == '-' {
      assert first[2] == first[..3][2];
      var total := memory.Add(first, -prevResult);
      return Output(total), newPrev;
    }
    assert Respond(line, old(memory.slots), prevResult, number) == Evaluated(tokens, memory.slots, prevResult, number);
    reply, newPrev := EvaluateTokens(tokens, memory, prevResult, number);
  }

  /** `eval_token` on the memory object: a `mem` token is read through `Memory.Get`. */
  method ReadToken(token: string, memory: Memory, number: string -> Option<real>) returns (r: Option<real>)
    ensures r == EvalToken(token, memory.slots, number)
  {
    if StartsWithMem(token) {
      r := Some(memory.Get(token));
    } else {
      r := number(token);
    }
  }

  /** A line that is not a memory write: `eval_token` on both operands, then `eval_expression`. */
  method EvaluateTokens(tokens: seq<string>, memory: Memory, prevResult: real, number: string -> Option<real>)
    returns (reply: Reply, newPrev: real)
    requires tokens != []
    ensures Step(reply, memory.slots, newPrev) == Evaluated(tokens, memory.slots, prevResult, number)
  {
    newPrev := prevResult;
    var left := ReadToken(tokens[0], memory, number);
    if left.None? || |tokens| < 3 {
      return Panicked, newPrev;
    }
    var right := ReadToken(tokens[2], memory, number);
    if right.None? {
      return Panicked, newPrev;
    }
    var result := EvalExpression(left.value, tokens[1], right.value);
    match result
    case Ok(v) =>
      reply, newPrev := Output(v), v;
    case Panic =>
      reply := Panicked;
    case NotFinite =>
      reply := NonFinite;
  }
}
