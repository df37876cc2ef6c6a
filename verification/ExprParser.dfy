/** The recursive-descent evaluator of the expression engine: every parse function returns a value. */
module ExprParser {
  import opened Outcomes
  import opened Strings
  import opened ExprLexer

  /** A float64, known only by its bits: all arithmetic is a parameter, so nothing is rounded away. */
  datatype Float64 = Float64(bits: nat)

  datatype Value =
    | Null
    | Bool(b: bool)
    | Num(f: Float64)
    | Str(s: string)
    | Arr(items: seq<Value>)
    | Obj(fields: map<string, Value>)

  datatype Op = Add | Sub | Mul | Div

  /** Floating-point arithmetic, number syntax, %v formatting and the function table. */
  datatype Engine = Engine(
    arith: (Op, Float64, Float64) -> Float64,
    neg: Float64 -> Float64,
    isZero: Float64 -> bool,
    zero: Float64,
    one: Float64,
    parseFloat: string -> Option<Float64>,
    format: Value -> string,
    funcs: map<string, seq<Value> -> Option<Value>>)

  function ToFloat(en: Engine, v: Value): Option<Float64> {
    match v
    case Num(f) => Some(f)
    case Str(s) => en.parseFloat(s)
    case Bool(b) => Some(if b then en.one else en.zero)
    case Null => Some(en.zero)
    case _ => None
  }

  /** + joins text when either side is a string; the other operators want numbers; None is an error. */
  function Apply(en: Engine, op: Op, left: Value, right: Value): Option<Value> {
    if op == Add && (left.Str? || right.Str?) then
      var ls := if left.Str? then left.s else en.format(left);
      var rs := if right.Str? then right.s else en.format(right);
      Some(Str(ls + rs))
    else
      match (ToFloat(en, left), ToFloat(en, right))
      case (Some(lf), Some(rf)) => if op == Div && en.isZero(rf) then None else Some(Num(en.arith(op, lf, rf)))
      case _ => None
  }

  function Negate(en: Engine, v: Value): Option<Value> {
    match ToFloat(en, v)
    case Some(f) => Some(Num(en.neg(f)))
    case None => None
  }

  function Call(en: Engine, name: string, args: seq<Value>): Option<Value> {
    if name in en.funcs then en.funcs[name](args) else None
  }

  /** Walks a path through nested objects; anything missing is null. */
  function Walk(current: Value, parts: seq<string>): Value {
    if parts == [] then current
    else if current.Obj? && parts[0] in current.fields then Walk(current.fields[parts[0]], parts[1..])
    else Null
  }

  function Resolve(data: map<string, Value>, path: string): Value {
    Walk(Obj(data), Split(path, '.'))
  }

  method ResolveField(data: map<string, Value>, path: string) returns (v: Value)
    ensures v == Resolve(data, path)
  {
    var parts := Split(path, '.');
    var current := Obj(data);
    for i := 0 to |parts|
      invariant Walk(current, parts[i..]) == Resolve(data, path)
    {
      if !current.Obj? || parts[i] !in current.fields {
        return Null;
      }
      current := current.fields[parts[i]];
    }
    return current;
  }

  const RESERVED := {"true", "false", "null", "nil"}

  function Literal(name: string): Value
    requires name in RESERVED
  {
    if name == "true" then Bool(true) else if name == "false" then Bool(false) else Null
  }

  // ----- What each parse function answers at a token position -----

  datatype Parsed = Fail | Done(v: Value, pos: nat)
  datatype ParsedArgs = FailArgs | DoneArgs(args: seq<Value>, pos: nat)

  datatype Input = Input(tokens: seq<Token>, data: map<string, Value>, en: Engine)

  /** peek */
  function TypeAt(inp: Input, p: nat): TokenType {
    if p < |inp.tokens| then inp.tokens[p].typ else TokEOF
  }

  function Of(v: Option<Value>, pos: nat): Parsed {
    match v
    case None => Fail
    case Some(x) => Done(x, pos)
  }

  function ExprAt(inp: Input, p: nat): (r: Parsed)
    ensures r.Done? ==> p < r.pos <= |inp.tokens|
    decreases |inp.tokens| - p, 4
  {
    match TermAt(inp, p)
    case Fail => Fail
    case Done(v, q) => ExprLoop(inp, v, q)
  }

  function ExprLoop(inp: Input, left: Value, p: nat): (r: Parsed)
    requires p <= |inp.tokens|
    ensures r.Done? ==> p <= r.pos <= |inp.tokens|
    decreases |inp.tokens| - p, 3
  {
    if TypeAt(inp, p) != TokPlus && TypeAt(inp, p) != TokMinus then Done(left, p)
    else
      match TermAt(inp, p + 1)
      case Fail => Fail
      case Done(right, q) =>
        match Apply(inp.en, if TypeAt(inp, p) == TokPlus then Add else Sub, left, right)
        case None => Fail
        case Some(v) => ExprLoop(inp, v, q)
  }

  function TermAt(inp: Input, p: nat): (r: Parsed)
    ensures r.Done? ==> p < r.pos <= |inp.tokens|
    decreases |inp.tokens| - p, 3
  {
    match UnaryAt(inp, p)
    case Fail => Fail
    case Done(v, q) => TermLoop(inp, v, q)
  }

  function TermLoop(inp: Input, left: Value, p: nat): (r: Parsed)
    requires p <= |inp.tokens|
    ensures r.Done? ==> p <= r.pos <= |inp.tokens|
    decreases |inp.tokens| - p, 2
  {
    if TypeAt(inp, p) != TokStar && TypeAt(inp, p) != TokSlash then Done(left, p)
    else
      match UnaryAt(inp, p + 1)
      case Fail => Fail
      case Done(right, q) =>
        match Apply(inp.en, if TypeAt(inp, p) == TokStar then Mul else Div, left, right)
        case None => Fail
        case Some(v) => TermLoop(inp, v, q)
  }

  function UnaryAt(inp: Input, p: nat): (r: Parsed)
    ensures r.Done? ==> p < r.pos <= |inp.tokens|
    decreases |inp.tokens| - p, 2
  {
    if TypeAt(inp, p) == TokMinus then
      match PrimaryAt(inp, p + 1)
      case Fail => Fail
      case Done(v, q) => Of(Negate(inp.en, v), q)
    else PrimaryAt(inp, p)
  }

  function PrimaryAt(inp: Input, p: nat): (r: Parsed)
    ensures r.Done? ==> p < r.pos <= |inp.tokens|
    decreases |inp.tokens| - p, 1
  {
    match TypeAt(inp, p)
    case TokNumber =>
      (match inp.en.parseFloat(inp.tokens[p].val)
       case None => Fail
       case Some(f) => Done(Num(f), p + 1))
    case TokString => Done(Str(inp.tokens[p].val), p + 1)
    case TokField => Done(Resolve(inp.data, inp.tokens[p].val), p + 1)
    case TokIdent => WordAt(inp, p)
    case TokLParen =>
      (match ExprAt(inp, p + 1)
       case Fail => Fail
       case Done(v, q) => if TypeAt(inp, q) == TokRParen then Done(v, q + 1) else Fail)
    case _ => Fail
  }

  /** A reserved word or a call, from the identifier at p. */
  function WordAt(inp: Input, p: nat): (r: Parsed)
    requires p < |inp.tokens|
    ensures r.Done? ==> p < r.pos <= |inp.tokens|
    decreases |inp.tokens| - p, 0
  {
    var name := inp.tokens[p].val;
    if name in RESERVED then Done(Literal(name), p + 1)
    else if TypeAt(inp, p + 1) != TokLParen then Fail
    else if TypeAt(inp, p + 2) == TokRParen then Of(Call(inp.en, name, []), p + 3)
    else
      match ArgsAt(inp, p + 2)
      case FailArgs => Fail
      case DoneArgs(args, q) => if TypeAt(inp, q) == TokRParen then Of(Call(inp.en, name, args), q + 1) else Fail
  }

  function ArgsAt(inp: Input, p: nat): (r: ParsedArgs)
    ensures r.DoneArgs? ==> p < r.pos <= |inp.tokens|
    decreases |inp.tokens| - p, 5
  {
    match ExprAt(inp, p)
    case Fail => FailArgs
    case Done(v, q) =>
      if TypeAt(inp, q) != TokComma then DoneArgs([v], q)
      else
        match ArgsAt(inp, q + 1)
        case FailArgs => FailArgs
        case DoneArgs(vs, r) => DoneArgs([v] + vs, r)
  }

  // ----- The parser -----

  class Parser {
    const inp: Input
    var pos: nat

    constructor (inp: Input)
      ensures this.inp == inp && pos == 0
    {
      this.inp := inp;
      pos := 0;
    }

    /** The method's outcome is the parse function's, and on success so is the position. */
    ghost predicate Agrees(spec: Parsed, r: Option<Value>)
      reads this
    {
      match spec
      case Fail => r == None
      case Done(v, q) => r == Some(v) && pos == q
    }

    method Peek() returns (t: Token)
      ensures t.typ == TypeAt(inp, pos) && (pos < |inp.tokens| ==> t == inp.tokens[pos])
    {
      if pos < |inp.tokens| {
        return inp.tokens[pos];
      }
      return Token(TokEOF, "");
    }

    method Advance()
      modifies this
      ensures pos == if old(pos) < |inp.tokens| then old(pos) + 1 else old(pos)
    {
      if pos < |inp.tokens| {
        pos := pos + 1;
      }
    }

    method ParseExpression() returns (r: Option<Value>)
      modifies this
      ensures Agrees(ExprAt(inp, old(pos)), r)
      decreases |inp.tokens| - pos, 4
    {
      ghost var start := pos;
      r := ParseTerm();
      if r.None? {
        return;
      }
      var left := r.value;
      while true
        invariant start < pos <= |inp.tokens|
        invariant ExprAt(inp, start) == ExprLoop(inp, left, pos)
        decreases |inp.tokens| - pos
      {
        var t := Peek();
        if t.typ != TokPlus && t.typ != TokMinus {
          break;
        }
        Advance();
        var right := ParseTerm();
        if right.None? {
          return None;
        }
        var v := Apply(inp.en, if t.typ == TokPlus then Add else Sub, left, right.value);
        if v.None? {
          return None;
        }
        left := v.value;
      }
      return Some(left);
    }

    method ParseTerm() returns (r: Option<Value>)
      modifies this
      ensures Agrees(TermAt(inp, old(pos)), r)
      decreases |inp.tokens| - pos, 3
    {
      ghost var start := pos;
      r := ParseUnary();
      if r.None? {
        return;
      }
      var left := r.value;
      while true
        invariant start < pos <= |inp.tokens|
        invariant TermAt(inp, start) == TermLoop(inp, left, pos)
        decreases |inp.tokens| - pos
      {
        var t := Peek();
        if t.typ != TokStar && t.typ != TokSlash {
          break;
        }
        Advance();
        var right := ParseUnary();
        if right.None? {
          return None;
        }
        var v := Apply(inp.en, if t.typ == TokStar then Mul else Div, left, right.value);
        if v.None? {
          return None;
        }
        left := v.value;
      }
      return Some(left);
    }

    method ParseUnary() returns (r: Option<Value>)
      modifies this
      ensures Agrees(UnaryAt(inp, old(pos)), r)
      decreases |inp.tokens| - pos, 2
    {
      var t := Peek();
      if t.typ == TokMinus {
        Advance();
        r := ParsePrimary();
        if r.None? {
          return;
        }
        return Negate(inp.en, r.value);
      }
      r := ParsePrimary();
    }

    method ParsePrimary() returns (r: Option<Value>)
      modifies this
      ensures Agrees(PrimaryAt(inp, old(pos)), r)
      decreases |inp.tokens| - pos, 1
    {
      var t := Peek();
      match t.typ {
        case TokNumber =>
          Advance();
          match inp.en.parseFloat(t.val) {
            case None => return None;
            case Some(f) => return Some(Num(f));
          }
        case TokString =>
          Advance();
          return Some(Str(t.val));
        case TokField =>
          Advance();
          var v := ResolveField(inp.data, t.val);
          return Some(v);
        case TokIdent =>
          r := ParseWord();
        case TokLParen =>
          Advance();
          r := ParseExpression();
          if r.None? {
            return;
          }
          var close := Peek();
          if close.typ != TokRParen {
            return None;
          }
          Advance();
        case _ =>
          return None;
      }
    }

    /** The argument loop of parsePrimary. */
    method ParseArgs() returns (r: Option<seq<Value>>)
      requires pos <= |inp.tokens|
      modifies this
      ensures match ArgsAt(inp, old(pos))
              case FailArgs => r == None
              case DoneArgs(args, q) => r == Some(args) && pos == q
      decreases |inp.tokens| - pos, 5
    {
      var args: seq<Value> := [];
      ghost var start := pos;
      PrependNone(ArgsAt(inp, pos));
      while true
        invariant start <= pos <= |inp.tokens|
        invariant ArgsAt(inp, start) == PrependArgs(args, ArgsAt(inp, pos))
        decreases |inp.tokens| - pos
      {
        var arg := ParseExpression();
        if arg.None? {
          return None;
        }
        var t := Peek();
        if t.typ != TokComma {
          return Some(args + [arg.value]);
        }
        PrependOne(args, arg.value, ArgsAt(inp, pos + 1));
        args := args + [arg.value];
        Advance();
      }
    }

    /** The identifier case of parsePrimary. */
    method ParseWord() returns (r: Option<Value>)
      requires pos < |inp.tokens|
      modifies this
      ensures Agrees(WordAt(inp, old(pos)), r)
      decreases |inp.tokens| - pos, 0
    {
      var name := inp.tokens[pos].val;
      Advance();
      if name in RESERVED {
        return Some(Literal(name));
      }
      var open := Peek();
      if open.typ != TokLParen {
        return None;
      }
      Advance();
      var args: seq<Value> := [];
      var next := Peek();
      if next.typ != TokRParen {
        var parsed := ParseArgs();
        if parsed.None? {
          return None;
        }
        args := parsed.value;
      }
      var close := Peek();
      if close.typ != TokRParen {
        return None;
      }
      Advance();
      return Call(inp.en, name, args);
    }
  }

  ghost function PrependArgs(args: seq<Value>, rest: ParsedArgs): ParsedArgs {
    match rest
    case FailArgs => FailArgs
    case DoneArgs(vs, q) => DoneArgs(args + vs, q)
  }

  lemma PrependNone(rest: ParsedArgs)
    ensures PrependArgs([], rest) == rest
  {
    if rest.DoneArgs? {
      assert [] + rest.args == rest.args;
    }
  }

  lemma PrependOne(args: seq<Value>, v: Value, rest: ParsedArgs)
    ensures PrependArgs(args, PrependArgs([v], rest)) == PrependArgs(args + [v], rest)
  {
    if rest.DoneArgs? {
      assert args + ([v] + rest.args) == args + [v] + rest.args;
    }
  }

  // ----- Evaluate -----

  function TrimLeft(s: string): string {
    if s != "" && IsSpace(s[0]) then TrimLeft(s[1..]) else s
  }

  function TrimRight(s: string): string {
    if s != "" && IsSpace(s[|s| - 1]) then TrimRight(s[..|s| - 1]) else s
  }

  function TrimSpace(s: string): string {
    TrimRight(TrimLeft(s))
  }

  /** Trailing tokens are not looked at. */
  function Evaluation(expr: string, data: map<string, Value>, en: Engine, cc: CharClass): Option<Value> {
    var trimmed := TrimSpace(expr);
    if trimmed == "" then None
    else
      match Lex(trimmed, None, cc)
      case None => None
      case Some(tokens) =>
        match ExprAt(Input(tokens, data, en), 0)
        case Fail => None
        case Done(v, _) => Some(v)
  }

  method Evaluate(expr: string, data: map<string, Value>, en: Engine, cc: CharClass) returns (r: Option<Value>)
    ensures r == Evaluation(expr, data, en, cc)
  {
    var trimmed := TrimSpace(expr);
    if trimmed == "" {
      return None;
    }
    var tokens := Tokenize(trimmed, cc);
    if tokens.None? {
      return None;
    }
    var p := new Parser(Input(tokens.value, data, en));
    r := p.ParseExpression();
  }
}
