/**
 * The calculator of chapter5/calculator-5-5: a line is split into tokens,
 * evaluated by recursive descent with `*` and `/` binding tighter than `+`
 * and `-`, and `memX+` / `memX-` lines add the previous result to, or
 * subtract it from, memory slot `X`.
 *
 * Values are reals. A division by zero, which f64 turns into an infinity or a
 * NaN, gives the non-finite value None, which evaluation carries to the end of
 * the line, so that a later syntax error still panics. Every panic of the source
 * (an index past the end, `unreachable!()`, a failing `assert_eq!`, an
 * `unwrap` on a number that does not parse) is the outcome Panic.
 * Number parsing (`str::parse::<f64>`) is the parameter `number`.
 */
module Calculator55 {
  import opened Wrappers
  import opened Whitespace
  import opened Slots
  import opened Console

  datatype Token =
    | Number(value: real)
    | MemoryRef(name: string)
    | MemoryPlus(name: string)
    | MemoryMinus(name: string)
    | Plus
    | Minus
    | Asterisk
    | Slash
    | LParen
    | RParen

  /** The six one-character operator spellings. */
  predicate IsOperatorText(value: string)
  {
    value == "+" || value == "-" || value == "*" || value == "/" || value == "(" || value == ")"
  }

  /** `Token::parse`; None where the source's `unwrap` on the number parse panics. */
  function ParseToken(value: string, number: string -> Option<real>): (r: Option<Token>)
    ensures r.None? <==> !IsOperatorText(value) && !StartsWithMem(value) && number(value).None?
    ensures r.Some? && r.value.Number? <==>
      !IsOperatorText(value) && !StartsWithMem(value) && number(value).Some?
    ensures r.Some? && r.value.Number? ==> number(value) == Some(r.value.value)
  {
    if value == "+" then Some(Plus)
    else if value == "-" then Some(Minus)
    else if value == "*" then Some(Asterisk)
    else if value == "/" then Some(Slash)
    else if value == "(" then Some(LParen)
    else if value == ")" then Some(RParen)
    else if StartsWithMem(value) then
      var name := value[3..];
      assert value[2] == value[..3][2] == 'm';
      if value[|value| - 1] == '+' then Some(MemoryPlus(name[..|name| - 1]))
      else if value[|value| - 1] == '-' then Some(MemoryMinus(name[..|name| - 1]))
      else Some(MemoryRef(name))
    else match number(value)
      case Some(v) => Some(Number(v))
      case None => None
  }

  /** The spelling of a token other than a number: the inverse of ParseToken. */
  function Text(t: Token): string
    requires !t.Number?
  {
    match t
    case Plus => "+"
    case Minus => "-"
    case Asterisk => "*"
    case Slash => "/"
    case LParen => "("
    case RParen => ")"
    case MemoryRef(name) => "mem" + name
    case MemoryPlus(name) => "mem" + name + "+"
    case MemoryMinus(name) => "mem" + name + "-"
  }

  /** Every non-number token is recognised from its spelling. */
  lemma ParseText(t: Token, number: string -> Option<real>)
    requires !t.Number?
    requires t.MemoryRef? ==> PlainName(t.name)
    ensures ParseToken(Text(t), number) == Some(t)
  {
    match t
    case MemoryRef(name) =>
      var v := "mem" + name;
      assert v[..3] == "mem" && v[3..] == name;
      if name != [] {
        assert v[|v| - 1] == name[|name| - 1];
      }
    case MemoryPlus(name) =>
      var v := "mem" + name + "+";
      assert v[..3] == "mem" && v[3..] == name + "+";
      assert (name + "+")[..|name|] == name;
    case MemoryMinus(name) =>
      var v := "mem" + name + "-";
      assert v[..3] == "mem" && v[3..] == name + "-";
      assert (name + "-")[..|name|] == name;
    case _ =>
  }

  /** A spelling that is recognised as a non-number token is exactly that token's spelling. */
  lemma TextOfParsed(value: string, number: string -> Option<real>)
    requires ParseToken(value, number).Some? && !ParseToken(value, number).value.Number?
    ensures Text(ParseToken(value, number).value) == value
  {
    if !IsOperatorText(value) {
      assert value == value[..3] + value[3..];
      if value[|value| - 1] == '+' || value[|value| - 1] == '-' {
        var name := value[3..];
        assert name == name[..|name| - 1] + [value[|value| - 1]];
      }
    }
  }

  /** `Token::split`: one token per whitespace-separated piece, in order; None if any piece fails. */
  function ParseAll(pieces: seq<string>, number: string -> Option<real>): (r: Option<seq<Token>>)
    ensures r.Some? ==> |r.value| == |pieces|
    ensures r.Some? ==> forall i :: 0 <= i < |pieces| ==> ParseToken(pieces[i], number) == Some(r.value[i])
    ensures r.None? ==> exists i :: 0 <= i < |pieces| && ParseToken(pieces[i], number).None?
  {
    if pieces == [] then Some([])
    else match ParseToken(pieces[0], number)
      case None => None
      case Some(t) =>
        match ParseAll(pieces[1..], number)
        case None =>
          assert exists i :: 0 <= i < |pieces[1..]| && ParseToken(pieces[1..][i], number).None?;
          var i :| 0 <= i < |pieces[1..]| && ParseToken(pieces[1..][i], number).None?;
          assert ParseToken(pieces[i + 1], number).None?;
          None
        case Some(ts) => Some([t] + ts)
  }

  /** `Token::split`: the whitespace pieces of the line, each parsed; None where a piece does not parse. */
  function SplitTokens(text: string, number: string -> Option<real>): Option<seq<Token>>
  {
    ParseAll(Pieces(text), number)
  }

  /** A line of exactly-spelled tokens separated by single spaces is tokenised back to those tokens. */
  lemma SplitJoined(ts: seq<Token>, number: string -> Option<real>)
    requires |ts| >= 1
    requires forall i :: 0 <= i < |ts| ==> !ts[i].Number? && !(ts[i].MemoryRef? && !PlainName(ts[i].name))
    requires forall i :: 0 <= i < |ts| ==> NoWhitespace(Text(ts[i]))
    ensures SplitTokens(JoinSpaces(seq(|ts|, i requires 0 <= i < |ts| => Text(ts[i]))), number) == Some(ts)
  {
    var words := seq(|ts|, i requires 0 <= i < |ts| => Text(ts[i]));
    PiecesOfJoin(words);
    var r := ParseAll(words, number);
    forall i | 0 <= i < |ts| ensures ParseToken(words[i], number) == Some(ts[i]) {
      ParseText(ts[i], number);
    }
    assert r.Some?;
    assert r.value == ts;
  }

  /** The memory of the calculator (`struct Memory`). */
  class Memory {
    var slots: map<string, real>

    constructor ()
      ensures slots == map[]
    {
      slots := map[];
    }

    /** `Memory::add`: adds `prevResult` to the slot (creating it if absent) and returns the new total. */
    method Add(slotName: string, prevResult: real) returns (total: real)
      modifies this
      ensures slots == Accumulated(old(slots), slotName, prevResult)
      ensures total == Lookup(old(slots), slotName) + prevResult
    {
      if slotName in slots {
        slots := slots[slotName := slots[slotName] + prevResult];
        total := slots[slotName];
      } else {
        slots := slots[slotName := prevResult];
        total := prevResult;
      }
    }

    /** `Memory::get`: the stored value, or 0 for a slot never written. */
    function Get(slotName: string): (v: real)
      reads this
      ensures slotName in slots ==> v == slots[slotName]
      ensures slotName !in slots ==> v == 0.0
    {
      Lookup(slots, slotName)
    }
  }

  /**
   * The value of an f64 computation: Some finite real, or None once a division
   * by zero has made it an infinity or a NaN. A non-finite operand makes the
   * result non-finite, and evaluation goes on reading the rest of the line.
   */
  type Float = Option<real>

  function Sum(a: Float, b: Float): (r: Float)
    ensures r.Some? <==> a.Some? && b.Some?
    ensures r.Some? ==> r.value == a.value + b.value
  {
    if a.Some? && b.Some? then Some(a.value + b.value) else None
  }

  function Difference(a: Float, b: Float): (r: Float)
    ensures r.Some? <==> a.Some? && b.Some?
    ensures r.Some? ==> r.value == a.value - b.value
  {
    if a.Some? && b.Some? then Some(a.value - b.value) else None
  }

  /** Multiplication (the product stays one term for the solver). */
  function Product(a: Float, b: Float): (r: Float)
    ensures r.Some? <==> a.Some? && b.Some?
  {
    if a.Some? && b.Some? then Some(a.value * b.value) else None
  }

  /** Division: a zero divisor gives the non-finite value. */
  function Quotient(a: Float, b: Float): (r: Float)
    ensures r.Some? <==> a.Some? && b.Some? && b.value != 0.0
    ensures r.Some? ==> r.value * b.value == a.value
  {
    if a.Some? && b.Some? && b.value != 0.0 then Some(a.value / b.value) else None
  }

  /** The result of evaluating from a position: a value and the index just past what was read, or a panic. */
  datatype Outcome = Ok(value: Float, next: nat) | Panic

  /** `eval_primary_expression` as a function of the slot contents. */
  function Primary(tokens: seq<Token>, index: nat, slots: map<string, real>): (r: Outcome)
    requires index <= |tokens|
    ensures r.Ok? ==> index < r.next <= |tokens|
    decreases |tokens| - index, 0
  {
    if index == |tokens| then Panic
    else match tokens[index]
      case LParen =>
        (match Additive(tokens, index + 1, slots)
         case Ok(v, next) => if next < |tokens| && tokens[next] == RParen then Ok(v, next + 1) else Panic
         case failed => failed)
      case Number(v) => Ok(Some(v), index + 1)
      case MemoryRef(name) => Ok(Some(Lookup(slots, name)), index + 1)
      case _ => Panic
  }

  /** The `while` loop of `eval_multiplicative_expression`, from accumulated value `acc` at `index`. */
  function MultiplicativeTail(tokens: seq<Token>, acc: Float, index: nat, slots: map<string, real>): (r: Outcome)
    requires index <= |tokens|
    ensures r.Ok? ==> index <= r.next <= |tokens|
    decreases |tokens| - index, 3
  {
    if index < |tokens| && (tokens[index].Asterisk? || tokens[index].Slash?) then
      match Primary(tokens, index + 1, slots)
      case Ok(v, next) =>
        MultiplicativeTail(tokens, if tokens[index].Asterisk? then Product(acc, v) else Quotient(acc, v), next, slots)
      case failed => failed
    else Ok(acc, index)
  }

  /** `eval_multiplicative_expression`. */
  function Multiplicative(tokens: seq<Token>, index: nat, slots: map<string, real>): (r: Outcome)
    requires index <= |tokens|
    ensures r.Ok? ==> index < r.next <= |tokens|
    decreases |tokens| - index, 1
  {
    match Primary(tokens, index, slots)
    case Ok(v, next) => MultiplicativeTail(tokens, v, next, slots)
    case failed => failed
  }

  /** The `while` loop of `eval_additive_expression`, from accumulated value `acc` at `index`. */
  function AdditiveTail(tokens: seq<Token>, acc: Float, index: nat, slots: map<string, real>): (r: Outcome)
    requires index <= |tokens|
    ensures r.Ok? ==> index <= r.next <= |tokens|
    decreases |tokens| - index, 3
  {
    if index < |tokens| && (tokens[index].Plus? || tokens[index].Minus?) then
      match Multiplicative(tokens, index + 1, slots)
      case Ok(v, next) =>
        AdditiveTail(tokens, if tokens[index].Plus? then Sum(acc, v) else Difference(acc, v), next, slots)
      case failed => failed
    else Ok(acc, index)
  }

  /** `eval_additive_expression`. */
  function Additive(tokens: seq<Token>, index: nat, slots: map<string, real>): (r: Outcome)
    requires index <= |tokens|
    ensures r.Ok? ==> index < r.next <= |tokens|
    decreases |tokens| - index, 2
  {
    match Multiplicative(tokens, index, slots)
    case Ok(v, next) => AdditiveTail(tokens, v, next, slots)
    case failed => failed
  }

  /** `eval_expression`: the whole token list must be consumed. */
  function Expression(tokens: seq<Token>, slots: map<string, real>): (r: Outcome)
    ensures r.Ok? ==> r.next == |tokens| && Additive(tokens, 0, slots) == r
    ensures Additive(tokens, 0, slots).Ok? && Additive(tokens, 0, slots).next < |tokens| ==> r == Panic
  {
    match Additive(tokens, 0, slots)
    case Ok(v, next) => if next == |tokens| then Ok(v, next) else Panic
    case failed => failed
  }

  method EvalExpression(tokens: seq<Token>, memory: Memory) returns (r: Outcome)
    ensures r == Expression(tokens, memory.slots)
  {
    r := EvalAdditiveExpression(tokens, 0, memory);
    if r.Ok? && r.next != |tokens| {
      r := Panic;
    }
  }

  method EvalAdditiveExpression(tokens: seq<Token>, index: nat, memory: Memory) returns (r: Outcome)
    requires index <= |tokens|
    ensures r == Additive(tokens, index, memory.slots)
    decreases |tokens| - index, 2
  {
    r := EvalMultiplicativeExpression(tokens, index, memory);
    if !r.Ok? {
      return;
    }
    var result, i := r.value, r.next;
    while i < |tokens|
      invariant index < i <= |tokens|
      invariant AdditiveTail(tokens, result, i, memory.slots) == Additive(tokens, index, memory.slots)
      decreases |tokens| - i
    {
      match tokens[i]
      case Plus =>
        var operand := EvalMultiplicativeExpression(tokens, i + 1, memory);
        if !operand.Ok? {
          return operand;
        }
        result, i := Sum(result, operand.value), operand.next;
      case Minus =>
        var operand := EvalMultiplicativeExpression(tokens, i + 1, memory);
        if !operand.Ok? {
          return operand;
        }
        result, i := Difference(result, operand.value), operand.next;
      case _ =>
        break;
    }
    return Ok(result, i);
  }

  method EvalMultiplicativeExpression(tokens: seq<Token>, index: nat, memory: Memory) returns (r: Outcome)
    requires index <= |tokens|
    ensures r == Multiplicative(tokens, index, memory.slots)
    decreases |tokens| - index, 1
  {
    r := EvalPrimaryExpression(tokens, index, memory);
    if !r.Ok? {
      return;
    }
    var result, i := r.value, r.next;
    while i < |tokens|
      invariant index < i <= |tokens|
      invariant MultiplicativeTail(tokens, result, i, memory.slots) == Multiplicative(tokens, index, memory.slots)
      decreases |tokens| - i
    {
      match tokens[i]
      case Asterisk =>
        var operand := EvalPrimaryExpression(tokens, i + 1, memory);
        if !operand.Ok? {
          return operand;
        }
        result, i := Product(result, operand.value), operand.next;
      case Slash =>
        var operand := EvalPrimaryExpression(tokens, i + 1, memory);
        if !operand.Ok? {
          return operand;
        }
        result, i := Quotient(result, operand.value), operand.next;
      case _ =>
        break;
    }
    return Ok(result, i);
  }

  method EvalPrimaryExpression(tokens: seq<Token>, index: nat, memory: Memory) returns (r: Outcome)
    requires index <= |tokens|
    ensures r == Primary(tokens, index, memory.slots)
    decreases |tokens| - index, 0
  {
    if index == |tokens| {
      return Panic;
    }
    match tokens[index]
    case LParen =>
      r := EvalAdditiveExpression(tokens, index + 1, memory);
      if r.Ok? {
        if r.next < |tokens| && tokens[r.next] == RParen {
          r := Ok(r.value, r.next + 1);
        } else {
          r := Panic;
        }
      }
    case Number(v) =>
      r := Ok(Some(v), index + 1);
    case MemoryRef(name) =>
      r := Ok(Some(memory.Get(name)), index + 1);
    case _ =>
      r := Panic;
  }

  /**
   * One pass of the loop in `main`: an empty line stops; a line whose first
   * token is `memX+` or `memX-` adds the previous result to, or subtracts it
   * from, slot `X` and prints the slot; any other line is evaluated, printed,
   * and becomes the previous result.
   */
  function Respond(line: string, slots: map<string, real>, prev: real, number: string -> Option<real>): (r: Step)
    ensures r.reply.Stop? <==> line == []
    ensures slots.Keys <= r.slots.Keys
    ensures r.slots != slots ==> r.prev == prev && r.reply.Output?
    ensures r.prev != prev ==> r.slots == slots && r.reply == Output(r.prev)
  {
    if line == [] then Step(Stop, slots, prev)
    else match SplitTokens(line, number)
      case None => Step(Panicked, slots, prev)
      case Some(tokens) =>
        assert |tokens| == |Pieces(line)| >= 1;
        RespondTokens(tokens, slots, prev)
  }

  /** A tokenised line: a memory write when the first token is one, an expression otherwise. */
  function RespondTokens(tokens: seq<Token>, slots: map<string, real>, prev: real): (r: Step)
    requires |tokens| >= 1
    ensures !r.reply.Stop?
    ensures slots.Keys <= r.slots.Keys
    ensures r.slots != slots ==> r.prev == prev && r.reply.Output?
    ensures r.prev != prev ==> r.slots == slots && r.reply == Output(r.prev)
  {
    match tokens[0]
    case MemoryPlus(name) =>
      Step(Output(Lookup(slots, name) + prev), Accumulated(slots, name, prev), prev)
    case MemoryMinus(name) =>
      Step(Output(Lookup(slots, name) + -prev), Accumulated(slots, name, -prev), prev)
    case _ =>
      match Expression(tokens, slots)
      case Ok(Some(v), _) => Step(Output(v), slots, v)
      case Ok(None, _) => Step(NonFinite, slots, prev)
      case Panic => Step(Panicked, slots, prev)
  }

  /** `memX+` prints the new total of slot `X`, and reading `memX` afterwards gives that total. */
  lemma WriteThenRead(slots: map<string, real>, prev: real, name: string, number: string -> Option<real>)
    requires NoWhitespace(name) && PlainName(name)
    ensures var total := Lookup(slots, name) + prev;
      var written := Respond("mem" + name + "+", slots, prev, number);
      written == Step(Output(total), Accumulated(slots, name, prev), prev)
      && Respond("mem" + name, written.slots, prev, number) == Step(Output(total), written.slots, total)
  {
    var w, r := "mem" + name + "+", "mem" + name;
    assert Text(MemoryPlus(name)) == w && Text(MemoryRef(name)) == r;
    assert NoWhitespace(w) by {
      forall i | 0 <= i < |w| ensures !IsWhitespace(w[i]) {
        if 3 <= i < |w| - 1 {
          assert w[i] == name[i - 3];
        }
      }
    }
    assert NoWhitespace(r) by {
      forall i | 0 <= i < |r| ensures !IsWhitespace(r[i]) {
        if 3 <= i {
          assert r[i] == name[i - 3];
        }
      }
    }
    PiecesOfWord(w);
    PiecesOfWord(r);
    ParseText(MemoryPlus(name), number);
    ParseText(MemoryRef(name), number);
    ParseSingle(w, number);
    ParseSingle(r, number);
    var after, ts := Accumulated(slots, name, prev), [MemoryRef(name)];
    assert Lookup(after, name) == Lookup(slots, name) + prev;
    assert Primary(ts, 0, after) == Ok(Some(Lookup(after, name)), 1);
    assert Multiplicative(ts, 0, after) == Ok(Some(Lookup(after, name)), 1);
    assert Additive(ts, 0, after) == Ok(Some(Lookup(after, name)), 1);
  }

  /** A single piece is tokenised to the single token it parses to. */
  lemma ParseSingle(piece: string, number: string -> Option<real>)
    requires ParseToken(piece, number).Some?
    ensures ParseAll([piece], number) == Some([ParseToken(piece, number).value])
  {
    var t := ParseToken(piece, number).value;
    assert [piece][0] == piece && [piece][1..] == [];
    assert ParseAll([], number) == Some([]);
    assert [t] + [] == [t];
  }

  /** The loop body of `main`, over the memory object and the previous result. */
  method ProcessLine(line: string, memory: Memory, prevResult: real, number: string -> Option<real>)
    returns (reply: Reply, newPrev: real)
    modifies memory
    ensures Step(reply, memory.slots, newPrev) == Respond(line, old(memory.slots), prevResult, number)
  {
    if line == [] {
      return Stop, prevResult;
    }
    var split := SplitTokens(line, number);
    if split.None? {
      return Panicked, prevResult;
    }
    var tokens := split.value;
    assert |tokens| == |Pieces(line)| >= 1;
    assert Respond(line, old(memory.slots), prevResult, number) == RespondTokens(tokens, old(memory.slots), prevResult);
    reply, newPrev := ProcessTokens(tokens, memory, prevResult);
  }

  /** The loop body of `main` once the line is tokenised: a memory write, or an evaluation. */
  method ProcessTokens(tokens: seq<Token>, memory: Memory, prevResult: real) returns (reply: Reply, newPrev: real)
    requires |tokens| >= 1
    modifies memory
    ensures Step(reply, memory.slots, newPrev) == RespondTokens(tokens, old(memory.slots), prevResult)
  {
    newPrev := prevResult;
    match tokens[0]
    case MemoryPlus(name) =>
      var total := memory.Add(name, prevResult);
      reply := Output(total);
    case MemoryMinus(name) =>
      var total := memory.Add(name, -prevResult);
      reply := Output(total);
    case _ =>
      var r := EvalExpression(tokens, memory);
      match r
      case Ok(Some(v), _) =>
        reply, newPrev := Output(v), v;
      case Ok(None, _) =>
        reply := NonFinite;
      case Panic =>
        reply := Panicked;
  }
}
