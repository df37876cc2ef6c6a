/** Expression trees: what they denote, how they are printed, and that evaluating the printed
    text gives what the tree denotes. */
module ExprRoundTrip {
  import opened Outcomes
  import opened Strings
  import opened ExprLexer
  import opened ExprParser

  datatype Tree =
    | NumLit(text: string)
    | StrLit(text: string)
    | FieldRef(path: string)
    | Word(name: string)
    | CallTree(name: string, args: seq<Tree>)
    | NegTree(arg: Tree)
    | GroupTree(inner: Tree)
    | BinTree(op: Op, left: Tree, right: Tree)

  // ----- Denotation -----

  function Denote(e: Tree, data: map<string, Value>, en: Engine): Option<Value>
    decreases e, 1
  {
    match e
    case NumLit(t) => (match en.parseFloat(t) case None => None case Some(f) => Some(Num(f)))
    case StrLit(s) => Some(Str(s))
    case FieldRef(path) => Some(Resolve(data, path))
    case Word(name) => if name in RESERVED then Some(Literal(name)) else None
    case CallTree(name, args) =>
      (match DenoteAll(args, data, en)
       case None => None
       case Some(vs) => Call(en, name, vs))
    case NegTree(a) =>
      (match Denote(a, data, en)
       case None => None
       case Some(v) => Negate(en, v))
    case GroupTree(a) => Denote(a, data, en)
    case BinTree(op, l, r) =>
      (match (Denote(l, data, en), Denote(r, data, en))
       case (Some(lv), Some(rv)) => Apply(en, op, lv, rv)
       case _ => None)
  }

  function DenoteAll(args: seq<Tree>, data: map<string, Value>, en: Engine): Option<seq<Value>>
    decreases args, 0
  {
    if args == [] then Some([])
    else
      match (Denote(args[0], data, en), DenoteAll(args[1..], data, en))
      case (Some(v), Some(vs)) => Some([v] + vs)
      case _ => None
  }

  // ----- Printing -----

  /** The binding strength of a tree's own form: 0 sum, 1 product, 2 negation, 3 operand. */
  function Strength(e: Tree): nat {
    match e
    case BinTree(Add, _, _) => 0
    case BinTree(Sub, _, _) => 0
    case BinTree(_, _, _) => 1
    case NegTree(_) => 2
    case _ => 3
  }

  function OpToken(op: Op): Token {
    match op
    case Add => Token(TokPlus, "+")
    case Sub => Token(TokMinus, "-")
    case Mul => Token(TokStar, "*")
    case Div => Token(TokSlash, "/")
  }

  const LPAREN := Token(TokLParen, "(")
  const RPAREN := Token(TokRParen, ")")
  const COMMA := Token(TokComma, ",")

  /** The tokens of a tree where strength level is wanted: in parentheses if its own form is weaker. */
  function Tokens(e: Tree, level: nat): seq<Token>
    decreases e, 1
  {
    if Strength(e) < level then [LPAREN] + Body(e) + [RPAREN] else Body(e)
  }

  function Body(e: Tree): seq<Token>
    decreases e, 0
  {
    match e
    case NumLit(t) => [Token(TokNumber, t)]
    case StrLit(s) => [Token(TokString, s)]
    case FieldRef(path) => [Token(TokField, path)]
    case Word(name) => [Token(TokIdent, name)]
    case CallTree(name, args) => [Token(TokIdent, name), LPAREN] + ArgTokens(args) + [RPAREN]
    case NegTree(a) => [OpToken(Sub)] + Tokens(a, 3)
    case GroupTree(a) => [LPAREN] + Tokens(a, 0) + [RPAREN]
    case BinTree(op, l, r) => Tokens(l, Strength(e)) + [OpToken(op)] + Tokens(r, Strength(e) + 1)
  }

  function ArgTokens(args: seq<Tree>): seq<Token>
    decreases args, 0
  {
    if args == [] then []
    else if |args| == 1 then Tokens(args[0], 0)
    else Tokens(args[0], 0) + [COMMA] + ArgTokens(args[1..])
  }

  function Print(e: Tree): string {
    Render(Tokens(e, 0))
  }

  /** Literals, names and paths are ones the language can write. */
  ghost predicate Writable(cc: CharClass, e: Tree)
    decreases e
  {
    match e
    case NumLit(t) => Printable(cc, Token(TokNumber, t), None)
    case StrLit(s) => Printable(cc, Token(TokString, s), None)
    case FieldRef(path) => Printable(cc, Token(TokField, path), None)
    case Word(name) => name in RESERVED
    case CallTree(name, args) =>
      && name !in RESERVED && Printable(cc, Token(TokIdent, name), None)
      && forall i :: 0 <= i < |args| ==> Writable(cc, args[i])
    case NegTree(a) => Writable(cc, a)
    case GroupTree(a) => Writable(cc, a)
    case BinTree(_, l, r) => Writable(cc, l) && Writable(cc, r)
  }

  /** No word or function name clashes: all the parser needs to know of a tree. */
  ghost predicate WellNamed(e: Tree)
    decreases e
  {
    match e
    case Word(name) => name in RESERVED
    case CallTree(name, args) => name !in RESERVED && forall i :: 0 <= i < |args| ==> WellNamed(args[i])
    case NegTree(a) => WellNamed(a)
    case GroupTree(a) => WellNamed(a)
    case BinTree(_, l, r) => WellNamed(l) && WellNamed(r)
    case _ => true
  }

  // ----- Parsing the printed tokens -----

  ghost predicate Follows(inp: Input, p: nat, ts: seq<Token>) {
    p + |ts| <= |inp.tokens| && inp.tokens[p..p + |ts|] == ts
  }

  /** Reading from p at a strength level gives v and stands at q; the loops of a level may go on from there. */
  ghost predicate Reads(inp: Input, p: nat, q: nat, v: Option<Value>, level: nat) {
    q <= |inp.tokens| &&
    if level == 3 then PrimaryAt(inp, p) == Of(v, q) && TypeAt(inp, p) != TokMinus
    else if level == 2 then UnaryAt(inp, p) == Of(v, q)
    else if level == 1 then TermAt(inp, p) == (if v.None? then Fail else TermLoop(inp, v.value, q))
    else
      TypeAt(inp, q) != TokStar && TypeAt(inp, q) != TokSlash ==>
        ExprAt(inp, p) == if v.None? then Fail else ExprLoop(inp, v.value, q)
  }

  lemma ReadsWeaker(inp: Input, p: nat, q: nat, v: Option<Value>, strong: nat, weak: nat)
    requires weak <= strong <= 3 && Reads(inp, p, q, v, strong)
    ensures Reads(inp, p, q, v, weak)
    decreases strong
  {
    if weak < strong {
      ReadsOneWeaker(inp, p, q, v, strong);
      ReadsWeaker(inp, p, q, v, strong - 1, weak);
    }
  }

  lemma ReadsOneWeaker(inp: Input, p: nat, q: nat, v: Option<Value>, level: nat)
    requires 0 < level <= 3 && Reads(inp, p, q, v, level)
    ensures Reads(inp, p, q, v, level - 1)
  {
  }

  lemma FollowsParts(inp: Input, p: nat, a: seq<Token>, b: seq<Token>)
    requires Follows(inp, p, a + b)
    ensures Follows(inp, p, a) && Follows(inp, p + |a|, b)
  {
    var ts := inp.tokens[p..p + |a + b|];
    assert inp.tokens[p..p + |a|] == ts[..|a|] == a;
    assert inp.tokens[p + |a|..p + |a| + |b|] == ts[|a|..] == b;
  }

  lemma FollowsOne(inp: Input, p: nat, t: Token)
    requires Follows(inp, p, [t])
    ensures p < |inp.tokens| && inp.tokens[p] == t && TypeAt(inp, p) == t.typ
  {
    assert inp.tokens[p..p + 1][0] == inp.tokens[p];
  }

  /** A tree's own form reads back at its own strength. */
  lemma {:induction false} BodyReads(inp: Input, p: nat, e: Tree)
    requires WellNamed(e) && Follows(inp, p, Body(e))
    ensures Reads(inp, p, p + |Body(e)|, Denote(e, inp.data, inp.en), Strength(e))
    decreases e, 0
  {
    hide Reads, Denote, Tokens, ArgTokens, Follows;
    match e
    case CallTree(name, args) => CallReads(inp, p, name, args);
    case NegTree(a) => NegReads(inp, p, a);
    case GroupTree(a) => GroupTreeReads(inp, p, a);
    case BinTree(op, l, r) =>
      if op == Add || op == Sub {
        SumReads(inp, p, op, l, r);
      } else {
        ProductReads(inp, p, op, l, r);
      }
    case _ => LeafReads(inp, p, e);
  }

  lemma LeafReads(inp: Input, p: nat, e: Tree)
    requires !e.CallTree? && !e.NegTree? && !e.GroupTree? && !e.BinTree? && WellNamed(e) && Follows(inp, p, Body(e))
    ensures Reads(inp, p, p + 1, Denote(e, inp.data, inp.en), 3) && |Body(e)| == 1
  {
    hide Follows, Resolve;
    assert Body(e) == [Body(e)[0]];
    FollowsOne(inp, p, Body(e)[0]);
    match e
    case Word(name) => assert PrimaryAt(inp, p) == WordAt(inp, p) == Done(Literal(name), p + 1);
    case _ =>
  }

  /** A tree printed for a level reads back at that level. */
  lemma {:induction false} TreeReads(inp: Input, p: nat, e: Tree, level: nat)
    requires level <= 3 && WellNamed(e) && Follows(inp, p, Tokens(e, level))
    ensures Reads(inp, p, p + |Tokens(e, level)|, Denote(e, inp.data, inp.en), level)
    decreases e, 1
  {
    hide Reads, Denote, Body;
    var v := Denote(e, inp.data, inp.en);
    if Strength(e) < level {
      FollowsParts(inp, p, [LPAREN] + Body(e), [RPAREN]);
      FollowsParts(inp, p, [LPAREN], Body(e));
      FollowsOne(inp, p, LPAREN);
      FollowsOne(inp, p + 1 + |Body(e)|, RPAREN);
      BodyReads(inp, p + 1, e);
      ReadsWeaker(inp, p + 1, p + 1 + |Body(e)|, v, Strength(e), 0);
      GroupReads(inp, p, p + 1 + |Body(e)|, v);
      ReadsWeaker(inp, p, p + |Tokens(e, level)|, v, 3, level);
    } else {
      BodyReads(inp, p, e);
      ReadsWeaker(inp, p, p + |Body(e)|, v, Strength(e), level);
    }
  }

  lemma GroupReads(inp: Input, p: nat, q: nat, v: Option<Value>)
    requires TypeAt(inp, p) == TokLParen && TypeAt(inp, q) == TokRParen && Reads(inp, p + 1, q, v, 0)
    ensures Reads(inp, p, q + 1, v, 3)
  {
    assert q < |inp.tokens|;
  }

  lemma NegUnfolds(a: Tree, data: map<string, Value>, en: Engine)
    ensures Body(NegTree(a)) == [OpToken(Sub)] + Tokens(a, 3)
    ensures Denote(NegTree(a), data, en)
            == if Denote(a, data, en).Some? then Negate(en, Denote(a, data, en).value) else None
  {
    hide Negate;
  }

  lemma GroupUnfolds(a: Tree, data: map<string, Value>, en: Engine)
    ensures var e := GroupTree(a);
            && Body(e) == [LPAREN] + Tokens(a, 0) + [RPAREN] == Tokens(e, 3)
            && Denote(e, data, en) == Denote(a, data, en)
            && Strength(e) == 3 && (WellNamed(a) ==> WellNamed(e))
  {
  }

  /** A minus sign before what has been read as an operand. */
  lemma NegStep(inp: Input, p: nat, q: nat, v: Option<Value>)
    requires p < |inp.tokens| && TypeAt(inp, p) == TokMinus && Reads(inp, p + 1, q, v, 3)
    ensures Reads(inp, p, q, if v.Some? then Negate(inp.en, v.value) else None, 2)
  {
    hide Negate, PrimaryAt;
  }

  lemma {:induction false} NegReads(inp: Input, p: nat, a: Tree)
    requires WellNamed(a) && Follows(inp, p, Body(NegTree(a)))
    ensures Reads(inp, p, p + |Body(NegTree(a))|, Denote(NegTree(a), inp.data, inp.en), 2)
    decreases a, 2
  {
    hide Reads, Tokens, Denote, Body, Negate, Follows;
    NegUnfolds(a, inp.data, inp.en);
    FollowsParts(inp, p, [OpToken(Sub)], Tokens(a, 3));
    FollowsOne(inp, p, OpToken(Sub));
    TreeReads(inp, p + 1, a, 3);
    NegStep(inp, p, p + 1 + |Tokens(a, 3)|, Denote(a, inp.data, inp.en));
  }

  lemma {:induction false} GroupTreeReads(inp: Input, p: nat, a: Tree)
    requires WellNamed(a) && Follows(inp, p, Body(GroupTree(a)))
    ensures Reads(inp, p, p + |Body(GroupTree(a))|, Denote(GroupTree(a), inp.data, inp.en), 3)
    decreases a, 2
  {
    hide Reads, Tokens, Denote, Body, Follows;
    GroupUnfolds(a, inp.data, inp.en);
    var q := p + 1 + |Tokens(a, 0)|;
    FollowsParts(inp, p, [LPAREN] + Tokens(a, 0), [RPAREN]);
    FollowsParts(inp, p, [LPAREN], Tokens(a, 0));
    FollowsOne(inp, p, LPAREN);
    FollowsOne(inp, q, RPAREN);
    TreeReads(inp, p + 1, a, 0);
    GroupReads(inp, p, q, Denote(a, inp.data, inp.en));
  }

  lemma {:induction false} SumReads(inp: Input, p: nat, op: Op, l: Tree, r: Tree)
    requires op == Add || op == Sub
    requires WellNamed(l) && WellNamed(r) && Follows(inp, p, Body(BinTree(op, l, r)))
    ensures Reads(inp, p, p + |Body(BinTree(op, l, r))|, Denote(BinTree(op, l, r), inp.data, inp.en), 0)
    decreases BinTree(op, l, r), 0, 0
  {
    hide Tokens, Denote, Body, Reads, Follows, Apply;
    BinUnfolds(op, l, r, inp.data, inp.en);
    var lt, rt := Tokens(l, 0), Tokens(r, 1);
    var m, q := p + |lt|, p + |lt| + 1 + |rt|;
    FollowsParts(inp, p, lt + [OpToken(op)], rt);
    FollowsParts(inp, p, lt, [OpToken(op)]);
    FollowsOne(inp, m, OpToken(op));
    TreeReads(inp, p, l, 0);
    TreeReads(inp, m + 1, r, 1);
    SumStep(inp, p, m, q, op, Denote(l, inp.data, inp.en), Denote(r, inp.data, inp.en));
  }

  lemma BinUnfolds(op: Op, l: Tree, r: Tree, data: map<string, Value>, en: Engine)
    ensures var e := BinTree(op, l, r);
            var (lv, rv) := (Denote(l, data, en), Denote(r, data, en));
            && Body(e) == Tokens(l, Strength(e)) + [OpToken(op)] + Tokens(r, Strength(e) + 1)
            && Denote(e, data, en) == if lv.Some? && rv.Some? then Apply(en, op, lv.value, rv.value) else None
  {
    hide Apply;
  }

  /** One round of the sum loop, after the left side has been read. */
  lemma SumStep(inp: Input, p: nat, m: nat, q: nat, op: Op, lv: Option<Value>, rv: Option<Value>)
    requires (op == Add || op == Sub) && m < |inp.tokens| && TypeAt(inp, m) == OpToken(op).typ
    requires Reads(inp, p, m, lv, 0) && Reads(inp, m + 1, q, rv, 1)
    ensures Reads(inp, p, q, if lv.Some? && rv.Some? then Apply(inp.en, op, lv.value, rv.value) else None, 0)
  {
    hide Apply;
  }

  lemma {:induction false} ProductReads(inp: Input, p: nat, op: Op, l: Tree, r: Tree)
    requires op == Mul || op == Div
    requires WellNamed(l) && WellNamed(r) && Follows(inp, p, Body(BinTree(op, l, r)))
    ensures Reads(inp, p, p + |Body(BinTree(op, l, r))|, Denote(BinTree(op, l, r), inp.data, inp.en), 1)
    decreases BinTree(op, l, r), 0, 0
  {
    hide Tokens, Denote, Body, Reads, Follows, Apply;
    BinUnfolds(op, l, r, inp.data, inp.en);
    var lt, rt := Tokens(l, 1), Tokens(r, 2);
    var m, q := p + |lt|, p + |lt| + 1 + |rt|;
    FollowsParts(inp, p, lt + [OpToken(op)], rt);
    FollowsParts(inp, p, lt, [OpToken(op)]);
    FollowsOne(inp, m, OpToken(op));
    TreeReads(inp, p, l, 1);
    TreeReads(inp, m + 1, r, 2);
    ProductStep(inp, p, m, q, op, Denote(l, inp.data, inp.en), Denote(r, inp.data, inp.en));
  }

  lemma ProductStep(inp: Input, p: nat, m: nat, q: nat, op: Op, lv: Option<Value>, rv: Option<Value>)
    requires (op == Mul || op == Div) && m < |inp.tokens| && TypeAt(inp, m) == OpToken(op).typ
    requires Reads(inp, p, m, lv, 1) && Reads(inp, m + 1, q, rv, 2)
    ensures Reads(inp, p, q, if lv.Some? && rv.Some? then Apply(inp.en, op, lv.value, rv.value) else None, 1)
  {
    hide Apply;
  }

  lemma {:induction false} CallReads(inp: Input, p: nat, name: string, args: seq<Tree>)
    requires name !in RESERVED && forall i :: 0 <= i < |args| ==> WellNamed(args[i])
    requires Follows(inp, p, Body(CallTree(name, args)))
    ensures Reads(inp, p, p + |Body(CallTree(name, args))|, Denote(CallTree(name, args), inp.data, inp.en), 3)
    decreases CallTree(name, args), 0, 0
  {
    hide Tokens, Denote, DenoteAll, Reads, ArgTokens, WellNamed;
    var open := [Token(TokIdent, name), LPAREN];
    var q := p + 2 + |ArgTokens(args)|;
    CallUnfolds(name, args, inp.data, inp.en);
    FollowsParts(inp, p, open + ArgTokens(args), [RPAREN]);
    FollowsParts(inp, p, open, ArgTokens(args));
    FollowsParts(inp, p, [Token(TokIdent, name)], [LPAREN]);
    assert open == [Token(TokIdent, name)] + [LPAREN];
    FollowsOne(inp, p, Token(TokIdent, name));
    FollowsOne(inp, p + 1, LPAREN);
    FollowsOne(inp, q, RPAREN);
    if args != [] {
      ArgsRead(inp, p + 2, args);
      FirstArgToken(inp, p + 2, args);
    }
    CallStep(inp, p, name, q, DenoteAll(args, inp.data, inp.en), args == []);
  }

  lemma CallUnfolds(name: string, args: seq<Tree>, data: map<string, Value>, en: Engine)
    ensures var e := CallTree(name, args);
            var vs := DenoteAll(args, data, en);
            && Body(e) == [Token(TokIdent, name), LPAREN] + ArgTokens(args) + [RPAREN]
            && Denote(e, data, en) == (if vs.Some? then Call(en, name, vs.value) else None)
            && (args == [] ==> ArgTokens(args) == [] && vs == Some([]))
  {
  }

  /** The identifier case of the parser, after its arguments have been read. */
  lemma CallStep(inp: Input, p: nat, name: string, q: nat, vs: Option<seq<Value>>, none: bool)
    requires p < |inp.tokens| && inp.tokens[p] == Token(TokIdent, name) && name !in RESERVED
    requires TypeAt(inp, p + 1) == TokLParen && TypeAt(inp, q) == TokRParen
    requires if none then q == p + 2 && vs == Some([])
             else TypeAt(inp, p + 2) != TokRParen && ArgsAt(inp, p + 2) == OfArgs(vs, q)
    ensures Reads(inp, p, q + 1, if vs.Some? then Call(inp.en, name, vs.value) else None, 3)
  {
    hide ArgsAt, Call;
    var v := if vs.Some? then Call(inp.en, name, vs.value) else None;
    assert WordAt(inp, p) == Of(v, q + 1);
    assert PrimaryAt(inp, p) == WordAt(inp, p);
  }

  /** Arguments do not start with a closing parenthesis. */
  lemma {:induction false} FirstToken(e: Tree, level: nat)
    ensures |Tokens(e, level)| > 0 && Tokens(e, level)[0].typ !in {TokRParen, TokComma, TokEOF, TokStar, TokSlash}
    decreases e
  {
    if e.BinTree? {
      FirstToken(e.left, Strength(e));
    }
  }

  lemma FirstArgToken(inp: Input, p: nat, args: seq<Tree>)
    requires args != [] && Follows(inp, p, ArgTokens(args))
    ensures TypeAt(inp, p) != TokRParen
  {
    FirstToken(args[0], 0);
    assert inp.tokens[p] == inp.tokens[p..p + |ArgTokens(args)|][0] == Tokens(args[0], 0)[0];
  }

  lemma {:induction false} ArgsRead(inp: Input, p: nat, args: seq<Tree>)
    requires args != [] && (forall i :: 0 <= i < |args| ==> WellNamed(args[i]))
    requires Follows(inp, p, ArgTokens(args)) && TypeAt(inp, p + |ArgTokens(args)|) == TokRParen
    ensures ArgsAt(inp, p) == OfArgs(DenoteAll(args, inp.data, inp.en), p + |ArgTokens(args)|)
    decreases args, 2
  {
    hide Tokens, Denote, DenoteAll, ExprAt, ArgsAt, Reads, WellNamed, Follows, ArgTokens, OfArgs, PrependArgs;
    ArgTokensUnfold(args);
    var first, rest := Tokens(args[0], 0), args[1..];
    var q, end := p + |first|, p + |ArgTokens(args)|;
    var v := Denote(args[0], inp.data, inp.en);
    DenoteAllUnfolds(args, inp.data, inp.en);
    if |args| == 1 {
      TreeReads(inp, p, args[0], 0);
      ArgReads(inp, p, q, v);
      LastArg(v, q);
    } else {
      FollowsParts(inp, p, first + [COMMA], ArgTokens(rest));
      FollowsParts(inp, p, first, [COMMA]);
      FollowsOne(inp, q, COMMA);
      TreeReads(inp, p, args[0], 0);
      assert forall i :: 0 <= i < |rest| ==> rest[i] == args[i + 1];
      ArgsRead(inp, q + 1, rest);
      ArgReads(inp, p, q, v);
      MoreOfArgs(v, DenoteAll(rest, inp.data, inp.en), end);
    }
  }

  lemma ArgTokensUnfold(args: seq<Tree>)
    requires args != []
    ensures ArgTokens(args)
            == if |args| == 1 then Tokens(args[0], 0) else Tokens(args[0], 0) + [COMMA] + ArgTokens(args[1..])
  {
    hide Tokens;
  }

  lemma LastArg(v: Option<Value>, q: nat)
    ensures (if v.None? then FailArgs else DoneArgs([v.value], q))
            == OfArgs(if v.Some? then Some([v.value] + []) else None, q)
  {
  }

  lemma MoreOfArgs(v: Option<Value>, vs: Option<seq<Value>>, q: nat)
    ensures (if v.None? then FailArgs else PrependArgs([v.value], OfArgs(vs, q)))
            == OfArgs(if v.Some? && vs.Some? then Some([v.value] + vs.value) else None, q)
  {
  }

  ghost function OfArgs(vs: Option<seq<Value>>, q: nat): ParsedArgs {
    if vs.None? then FailArgs else DoneArgs(vs.value, q)
  }

  lemma DenoteAllUnfolds(args: seq<Tree>, data: map<string, Value>, en: Engine)
    requires args != []
    ensures var (v, vs) := (Denote(args[0], data, en), DenoteAll(args[1..], data, en));
            DenoteAll(args, data, en) == if v.Some? && vs.Some? then Some([v.value] + vs.value) else None
    ensures |args| == 1 ==> DenoteAll(args[1..], data, en) == Some([])
  {
    hide Denote;
  }

  /** One round of the argument loop. */
  lemma ArgReads(inp: Input, p: nat, q: nat, v: Option<Value>)
    requires Reads(inp, p, q, v, 0) && TypeAt(inp, q) in {TokComma, TokRParen}
    ensures ArgsAt(inp, p) ==
            if v.None? then FailArgs
            else if TypeAt(inp, q) == TokRParen then DoneArgs([v.value], q)
            else PrependArgs([v.value], ArgsAt(inp, q + 1))
  {
    assert ExprAt(inp, p) == Of(v, q) by { hide ArgsAt; }
    hide ExprAt;
  }

  // ----- Printing makes tokens the tokenizer gives back -----

  /** Where an operand is due, a tree's tokens are readable one by one. */
  lemma {:induction false} TokensPrintable(cc: CharClass, e: Tree, level: nat, last: Option<TokenType>)
    requires IsUnicode(cc) && Writable(cc, e) && OperandDue(last)
    ensures AllPrintable(cc, Tokens(e, level), last)
    decreases e, 1
  {
    BodyPrintable(cc, e, last);
    if Strength(e) < level {
      BodyPrintable(cc, e, Some(TokLParen));
      GroupPrintable(cc, Body(e), last);
    }
  }

  lemma {:induction false} BodyPrintable(cc: CharClass, e: Tree, last: Option<TokenType>)
    requires IsUnicode(cc) && Writable(cc, e) && OperandDue(last)
    ensures AllPrintable(cc, Body(e), last)
    decreases e, 0
  {
    hide IsUnicode, Tokens, ArgTokens;
    match e
    case CallTree(name, args) =>
      ArgsPrintable(cc, args);
      CallPrintable(cc, name, args, last);
    case NegTree(a) =>
      TokensPrintable(cc, a, 3, Some(TokMinus));
      OnePrintable(cc, OpToken(Sub), last);
      Joined(cc, [OpToken(Sub)], Tokens(a, 3), last);
    case GroupTree(a) =>
      TokensPrintable(cc, a, 0, Some(TokLParen));
      GroupPrintable(cc, Tokens(a, 0), last);
    case BinTree(op, l, r) =>
      TokensPrintable(cc, l, Strength(e), last);
      TokensPrintable(cc, r, Strength(e) + 1, Some(OpToken(op).typ));
      BinPrintable(cc, op, Tokens(l, Strength(e)), Tokens(r, Strength(e) + 1), last);
    case Word(name) =>
      ReservedPrintable(cc, name);
    case _ =>
  }

  lemma CallPrintable(cc: CharClass, name: string, args: seq<Tree>, last: Option<TokenType>)
    requires Printable(cc, Token(TokIdent, name), None) && AllPrintable(cc, ArgTokens(args), Some(TokLParen))
    ensures AllPrintable(cc, Body(CallTree(name, args)), last)
  {
    hide ArgTokens, IsUnicode;
    var inner := ArgTokens(args) + [RPAREN];
    OnePrintable(cc, RPAREN, LastType(ArgTokens(args), Some(TokLParen)));
    OnePrintable(cc, LPAREN, Some(TokIdent));
    OnePrintable(cc, Token(TokIdent, name), last);
    Joined(cc, ArgTokens(args), [RPAREN], Some(TokLParen));
    Joined(cc, [LPAREN], inner, Some(TokIdent));
    Joined(cc, [Token(TokIdent, name)], [LPAREN] + inner, last);
    assert Body(CallTree(name, args)) == [Token(TokIdent, name)] + ([LPAREN] + inner);
  }

  lemma GroupPrintable(cc: CharClass, ts: seq<Token>, last: Option<TokenType>)
    requires AllPrintable(cc, ts, Some(TokLParen))
    ensures AllPrintable(cc, [LPAREN] + ts + [RPAREN], last)
  {
    hide IsUnicode;
    OnePrintable(cc, RPAREN, LastType(ts, Some(TokLParen)));
    OnePrintable(cc, LPAREN, last);
    Joined(cc, ts, [RPAREN], Some(TokLParen));
    Joined(cc, [LPAREN], ts + [RPAREN], last);
    assert [LPAREN] + ts + [RPAREN] == [LPAREN] + (ts + [RPAREN]);
  }

  lemma BinPrintable(cc: CharClass, op: Op, lt: seq<Token>, rt: seq<Token>, last: Option<TokenType>)
    requires AllPrintable(cc, lt, last) && AllPrintable(cc, rt, Some(OpToken(op).typ))
    ensures AllPrintable(cc, lt + [OpToken(op)] + rt, last)
  {
    hide IsUnicode;
    OnePrintable(cc, OpToken(op), LastType(lt, last));
    Joined(cc, [OpToken(op)], rt, LastType(lt, last));
    Joined(cc, lt, [OpToken(op)] + rt, last);
    assert lt + [OpToken(op)] + rt == lt + ([OpToken(op)] + rt);
  }

  lemma OnePrintable(cc: CharClass, t: Token, last: Option<TokenType>)
    requires Printable(cc, t, last)
    ensures AllPrintable(cc, [t], last)
  {
    hide Printable;
  }

  lemma ReservedPrintable(cc: CharClass, name: string)
    requires IsUnicode(cc) && name in RESERVED
    ensures Printable(cc, Token(TokIdent, name), None)
  {
    assert forall k :: 0 <= k < |name| ==> 'a' <= name[k] <= 'z' by {
      if name == "true" {
      } else if name == "false" {
      } else if name == "null" {
      }
    }
  }

  lemma {:induction false} ArgsPrintable(cc: CharClass, args: seq<Tree>)
    requires IsUnicode(cc) && forall i :: 0 <= i < |args| ==> Writable(cc, args[i])
    ensures forall last :: OperandDue(last) ==> AllPrintable(cc, ArgTokens(args), last)
    decreases args, 0
  {
    hide Tokens, AllPrintable, OperandDue, ArgTokens, Writable, IsUnicode;
    forall last | OperandDue(last) ensures AllPrintable(cc, ArgTokens(args), last) {
      if args == [] {
        NoArgsPrintable(cc, args, last);
      } else {
        ArgTokensUnfold(args);
        TokensPrintable(cc, args[0], 0, last);
        if |args| > 1 {
          var rest := args[1..];
          assert forall i :: 0 <= i < |rest| ==> rest[i] == args[i + 1];
          ArgsPrintable(cc, rest);
          CommaDue();
          CommaPrintable(cc, args, LastType(Tokens(args[0], 0), last));
          Joined(cc, Tokens(args[0], 0), [COMMA] + ArgTokens(rest), last);
          assert ArgTokens(args) == Tokens(args[0], 0) + ([COMMA] + ArgTokens(rest));
        }
      }
    }
  }

  lemma NoArgsPrintable(cc: CharClass, args: seq<Tree>, last: Option<TokenType>)
    requires args == []
    ensures AllPrintable(cc, ArgTokens(args), last)
  {
  }

  lemma CommaDue()
    ensures OperandDue(Some(TokComma))
  {
  }

  lemma CommaPrintable(cc: CharClass, args: seq<Tree>, last: Option<TokenType>)
    requires |args| > 1 && AllPrintable(cc, ArgTokens(args[1..]), Some(TokComma))
    ensures AllPrintable(cc, [COMMA] + ArgTokens(args[1..]), last)
  {
    Joined(cc, [COMMA], ArgTokens(args[1..]), last);
  }

  lemma {:induction false} Joined(cc: CharClass, a: seq<Token>, b: seq<Token>, last: Option<TokenType>)
    requires AllPrintable(cc, a, last) && AllPrintable(cc, b, LastType(a, last))
    ensures AllPrintable(cc, a + b, last)
  {
    hide Printable;
    if a == [] {
      assert a + b == b;
    } else {
      assert (a + b)[1..] == a[1..] + b;
      Joined(cc, a[1..], b, Some(a[0].typ));
    }
  }

  // ----- The round trip -----

  lemma {:induction false} WritableIsWellNamed(cc: CharClass, e: Tree)
    requires Writable(cc, e)
    ensures WellNamed(e)
    decreases e
  {
    match e
    case CallTree(name, args) =>
      forall i | 0 <= i < |args| ensures WellNamed(args[i]) {
        WritableIsWellNamed(cc, args[i]);
      }
    case NegTree(a) => WritableIsWellNamed(cc, a);
    case GroupTree(a) => WritableIsWellNamed(cc, a);
    case BinTree(_, l, r) => WritableIsWellNamed(cc, l); WritableIsWellNamed(cc, r);
    case _ =>
  }

  /** Parsing the tokens of a tree yields what the tree denotes and stops at the end marker. */
  lemma ParsePrinted(e: Tree, data: map<string, Value>, en: Engine)
    requires WellNamed(e)
    ensures var inp := Input(Tokens(e, 0) + [Token(TokEOF, "")], data, en);
            ExprAt(inp, 0) == Of(Denote(e, data, en), |Tokens(e, 0)|) && TypeAt(inp, |Tokens(e, 0)|) == TokEOF
  {
    hide Tokens, Denote;
    var inp := Input(Tokens(e, 0) + [Token(TokEOF, "")], data, en);
    assert inp.tokens[0..|Tokens(e, 0)|] == Tokens(e, 0);
    TreeReads(inp, 0, e, 0);
  }

  lemma {:induction false} TrimNothing(s: string)
    requires s != "" && !IsSpace(s[0]) && !IsSpace(s[|s| - 1])
    ensures TrimSpace(s) == s
  {
  }

  lemma TextEnds(cc: CharClass, t: Token, last: Option<TokenType>)
    requires IsUnicode(cc) && Printable(cc, t, last)
    ensures var s := Text(t); s != "" && !IsSpace(s[0]) && !IsSpace(s[|s| - 1])
  {
    match t.typ
    case TokNumber =>
      if t.val[0] == '-' {
        assert IsNumberChar(cc, t.val[1..][|t.val| - 2]);
      } else {
        assert IsNumberChar(cc, t.val[|t.val| - 1]);
      }
    case TokField => if t.val != "" { assert IsFieldChar(cc, t.val[|t.val| - 1]); }
    case TokIdent => assert IsIdentChar(cc, t.val[0]) && IsIdentChar(cc, t.val[|t.val| - 1]);
    case _ =>
  }

  lemma {:induction false} RenderEnds(cc: CharClass, ts: seq<Token>, last: Option<TokenType>)
    requires IsUnicode(cc) && ts != [] && AllPrintable(cc, ts, last)
    ensures var s := Render(ts); s != "" && !IsSpace(s[0]) && !IsSpace(s[|s| - 1])
  {
    hide IsUnicode, Printable, Text;
    TextEnds(cc, ts[0], last);
    if |ts| > 1 {
      RenderEnds(cc, ts[1..], Some(ts[0].typ));
      var s, rest := Render(ts), Render(ts[1..]);
      assert s[|s| - 1] == rest[|rest| - 1] && s[0] == Text(ts[0])[0];
    }
  }

  /** Evaluating a printed tree gives what the tree denotes; an error denotes no value. */
  lemma EvaluatePrinted(e: Tree, data: map<string, Value>, en: Engine, cc: CharClass)
    requires IsUnicode(cc) && Writable(cc, e)
    ensures Evaluation(Print(e), data, en, cc) == Denote(e, data, en)
  {
    hide IsUnicode, Writable, Tokens, Denote, Render, Printable, TrimSpace;
    FirstToken(e, 0);
    TokensPrintable(cc, e, 0, None);
    RenderEnds(cc, Tokens(e, 0), None);
    TrimNothing(Print(e));
    LexRender(cc, Tokens(e, 0), None);
    WritableIsWellNamed(cc, e);
    ParsePrinted(e, data, en);
  }

  /** So does evaluating the tokens of a tree with any white space between and around them, or none
      where they do not run together. */
  lemma EvaluateSpread(e: Tree, expr: string, gaps: seq<string>, data: map<string, Value>, en: Engine, cc: CharClass)
    requires IsUnicode(cc) && Writable(cc, e) && |gaps| == |Tokens(e, 0)| + 1 && AllSpaces(gaps)
    requires TrimSpace(expr) == Spread(Tokens(e, 0), gaps) && KeptApart(cc, Tokens(e, 0), gaps, None)
    ensures Evaluation(expr, data, en, cc) == Denote(e, data, en)
  {
    hide IsUnicode, Writable, Tokens, Denote, Spread, Printable, TrimSpace, KeptApart, AllSpaces;
    FirstToken(e, 0);
    TokensPrintable(cc, e, 0, None);
    LexSpread(cc, Tokens(e, 0), gaps, None);
    LexNothing(None, cc);
    WritableIsWellNamed(cc, e);
    ParsePrinted(e, data, en);
  }
}
