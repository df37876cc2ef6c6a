/** The converse of the round trip: whatever the parser accepts is the printing of some
    expression tree, and the value it answers is what that tree denotes. */
module ExprSoundness {
  import opened Outcomes
  import opened ExprLexer
  import opened ExprParser
  import opened ExprRoundTrip

  /** Punctuation tokens carry their own character, as the tokenizer writes them. */
  ghost predicate Canonical(t: Token) {
    t.typ in {TokLParen, TokRParen, TokComma, TokPlus, TokMinus, TokStar, TokSlash} ==>
      |t.val| == 1 && Punctuation(t.val[0]) == Some(t.typ)
  }

  ghost predicate AllCanonical(ts: seq<Token>) {
    forall i :: 0 <= i < |ts| ==> Canonical(ts[i])
  }

  /** Tree e is printed at p..q for a strength level, and denotes v. */
  ghost predicate Spans(inp: Input, p: nat, q: nat, e: Tree, level: nat, v: Value) {
    && p < q <= |inp.tokens|
    && inp.tokens[p..q] == Tokens(e, level)
    && Denote(e, inp.data, inp.en) == Some(v)
    && WellNamed(e) && Strength(e) >= level
  }

  lemma {:induction false} LexIsCanonical(s: string, last: Option<TokenType>, cc: CharClass)
    requires Lex(s, last, cc).Some?
    ensures AllCanonical(Lex(s, last, cc).value)
    decreases |s|
  {
    hide QuotedAt, FieldAt, NumberAt, IdentAt;
    if s != "" {
      match First(s, last, cc)
      case Blank => LexIsCanonical(s[1..], last, cc);
      case Bad =>
      case Lexeme(t, n) =>
        FirstIsCanonical(s, last, cc);
        LexIsCanonical(s[n..], Some(t.typ), cc);
    }
  }

  lemma FirstIsCanonical(s: string, last: Option<TokenType>, cc: CharClass)
    requires s != "" && First(s, last, cc).Lexeme?
    ensures Canonical(First(s, last, cc).token)
  {
    hide Span, QuoteEnd;
  }

  // ----- Putting trees together along the tokens -----

  lemma Slices(ts: seq<Token>, p: nat, m: nat, q: nat)
    requires p <= m <= q <= |ts|
    ensures ts[p..q] == ts[p..m] + ts[m..q]
    ensures m < q ==> ts[m..q] == [ts[m]] + ts[m + 1..q]
  {
  }

  lemma OpTokenAt(inp: Input, m: nat, op: Op)
    requires AllCanonical(inp.tokens) && TypeAt(inp, m) == OpToken(op).typ
    ensures m < |inp.tokens| && inp.tokens[m] == OpToken(op)
  {
    var t := inp.tokens[m];
    assert Canonical(t);
    assert t.val == [t.val[0]];
  }

  lemma MarkAt(inp: Input, m: nat, mark: Token)
    requires AllCanonical(inp.tokens) && mark in {LPAREN, RPAREN, COMMA} && TypeAt(inp, m) == mark.typ
    ensures m < |inp.tokens| && inp.tokens[m] == mark
  {
    var t := inp.tokens[m];
    assert Canonical(t);
    assert t.val == [t.val[0]];
  }

  /** Two sides and the operator between them. */
  lemma JoinBin(inp: Input, p: nat, m: nat, q: nat, op: Op, l: Tree, lv: Value, r: Tree, rv: Value, v: Value)
    returns (e: Tree)
    requires AllCanonical(inp.tokens) && TypeAt(inp, m) == OpToken(op).typ && Apply(inp.en, op, lv, rv) == Some(v)
    requires var level := if op == Add || op == Sub then 0 else 1;
             Spans(inp, p, m, l, level, lv) && Spans(inp, m + 1, q, r, level + 1, rv)
    ensures Spans(inp, p, q, e, if op == Add || op == Sub then 0 else 1, v)
  {
    hide Denote, Body, Tokens, Apply, AllCanonical;
    e := BinTree(op, l, r);
    BinUnfolds(op, l, r, inp.data, inp.en);
    OpTokenAt(inp, m, op);
    BinSlices(inp.tokens, p, m, q);
    BodyAtOwnLevel(e);
  }

  lemma BinSlices(ts: seq<Token>, p: nat, m: nat, q: nat)
    requires p <= m < q <= |ts|
    ensures ts[p..q] == ts[p..m] + [ts[m]] + ts[m + 1..q]
  {
  }

  lemma BodyAtOwnLevel(e: Tree)
    ensures forall level: nat :: level <= Strength(e) ==> Tokens(e, level) == Body(e)
  {
    hide Body;
  }

  /** A tree strong enough for a level is printed the same for every weaker one. */
  lemma SpansWeaker(inp: Input, p: nat, q: nat, e: Tree, strong: nat, weak: nat, v: Value)
    requires weak <= strong && Spans(inp, p, q, e, strong, v)
    ensures Spans(inp, p, q, e, weak, v)
  {
    hide Body, Denote;
  }

  // ----- Soundness of the parse functions -----

  lemma {:induction false} ExprSound(inp: Input, p: nat) returns (e: Tree)
    requires AllCanonical(inp.tokens) && ExprAt(inp, p).Done?
    ensures Spans(inp, p, ExprAt(inp, p).pos, e, 0, ExprAt(inp, p).v)
    decreases |inp.tokens| - p, 4
  {
    hide Spans;
    var left := TermSound(inp, p);
    var t := TermAt(inp, p);
    SpansWeaker(inp, p, t.pos, left, 1, 0, t.v);
    e := ExprLoopSound(inp, p, left, t.v, t.pos);
  }

  lemma {:induction false} ExprLoopSound(inp: Input, p: nat, left: Tree, lv: Value, m: nat) returns (e: Tree)
    requires AllCanonical(inp.tokens) && p < m <= |inp.tokens| && Spans(inp, p, m, left, 0, lv)
             && ExprLoop(inp, lv, m).Done?
    ensures Spans(inp, p, ExprLoop(inp, lv, m).pos, e, 0, ExprLoop(inp, lv, m).v)
    decreases |inp.tokens| - m, 3
  {
    hide Spans, Apply, AllCanonical;
    if TypeAt(inp, m) != TokPlus && TypeAt(inp, m) != TokMinus {
      e := left;
    } else {
      var op := if TypeAt(inp, m) == TokPlus then Add else Sub;
      var right := TermSound(inp, m + 1);
      var r := TermAt(inp, m + 1);
      var v := Apply(inp.en, op, lv, r.v).value;
      var joined := JoinBin(inp, p, m, r.pos, op, left, lv, right, r.v, v);
      e := ExprLoopSound(inp, p, joined, v, r.pos);
    }
  }

  lemma {:induction false} TermSound(inp: Input, p: nat) returns (e: Tree)
    requires AllCanonical(inp.tokens) && TermAt(inp, p).Done?
    ensures Spans(inp, p, TermAt(inp, p).pos, e, 1, TermAt(inp, p).v)
    decreases |inp.tokens| - p, 3
  {
    hide Spans;
    var left := UnarySound(inp, p);
    var u := UnaryAt(inp, p);
    SpansWeaker(inp, p, u.pos, left, 2, 1, u.v);
    e := TermLoopSound(inp, p, left, u.v, u.pos);
  }

  lemma {:induction false} TermLoopSound(inp: Input, p: nat, left: Tree, lv: Value, m: nat) returns (e: Tree)
    requires AllCanonical(inp.tokens) && p < m <= |inp.tokens| && Spans(inp, p, m, left, 1, lv)
             && TermLoop(inp, lv, m).Done?
    ensures Spans(inp, p, TermLoop(inp, lv, m).pos, e, 1, TermLoop(inp, lv, m).v)
    decreases |inp.tokens| - m, 2
  {
    hide Spans, Apply, AllCanonical;
    if TypeAt(inp, m) != TokStar && TypeAt(inp, m) != TokSlash {
      e := left;
    } else {
      var op := if TypeAt(inp, m) == TokStar then Mul else Div;
      var right := UnarySound(inp, m + 1);
      var r := UnaryAt(inp, m + 1);
      var v := Apply(inp.en, op, lv, r.v).value;
      var joined := JoinBin(inp, p, m, r.pos, op, left, lv, right, r.v, v);
      e := TermLoopSound(inp, p, joined, v, r.pos);
    }
  }

  lemma {:induction false} UnarySound(inp: Input, p: nat) returns (e: Tree)
    requires AllCanonical(inp.tokens) && UnaryAt(inp, p).Done?
    ensures Spans(inp, p, UnaryAt(inp, p).pos, e, 2, UnaryAt(inp, p).v)
    decreases |inp.tokens| - p, 2
  {
    hide Spans, AllCanonical;
    if TypeAt(inp, p) == TokMinus {
      var a := PrimarySound(inp, p + 1);
      e := JoinNeg(inp, p, PrimaryAt(inp, p + 1).pos, a, PrimaryAt(inp, p + 1).v, UnaryAt(inp, p).v);
    } else {
      e := PrimarySound(inp, p);
      SpansWeaker(inp, p, PrimaryAt(inp, p).pos, e, 3, 2, PrimaryAt(inp, p).v);
    }
  }

  lemma JoinNeg(inp: Input, p: nat, q: nat, a: Tree, av: Value, v: Value) returns (e: Tree)
    requires AllCanonical(inp.tokens) && TypeAt(inp, p) == TokMinus
    requires Spans(inp, p + 1, q, a, 3, av) && Negate(inp.en, av) == Some(v)
    ensures Spans(inp, p, q, e, 2, v)
  {
    e := NegTree(a);
    OpTokenAt(inp, p, Sub);
    Slices(inp.tokens, p, p, q);
    assert Tokens(e, 2) == [OpToken(Sub)] + Tokens(a, 3);
  }

  lemma {:induction false} PrimarySound(inp: Input, p: nat) returns (e: Tree)
    requires AllCanonical(inp.tokens) && PrimaryAt(inp, p).Done?
    ensures Spans(inp, p, PrimaryAt(inp, p).pos, e, 3, PrimaryAt(inp, p).v)
    decreases |inp.tokens| - p, 1
  {
    hide Spans, AllCanonical;
    match TypeAt(inp, p)
    case TokIdent => e := WordSound(inp, p);
    case TokLParen =>
      var a := ExprSound(inp, p + 1);
      e := JoinGroup(inp, p, ExprAt(inp, p + 1).pos, a, ExprAt(inp, p + 1).v);
    case _ => e := LeafSound(inp, p);
  }

  lemma JoinGroup(inp: Input, p: nat, q: nat, a: Tree, v: Value) returns (e: Tree)
    requires AllCanonical(inp.tokens) && TypeAt(inp, p) == TokLParen && TypeAt(inp, q) == TokRParen
    requires Spans(inp, p + 1, q, a, 0, v)
    ensures Spans(inp, p, q + 1, e, 3, v)
  {
    e := GroupTree(a);
    MarkAt(inp, p, LPAREN);
    MarkAt(inp, q, RPAREN);
    GroupSlices(inp.tokens, p, q);
    GroupUnfolds(a, inp.data, inp.en);
    hide Body, Tokens, Denote, AllCanonical;
  }

  lemma GroupSlices(ts: seq<Token>, p: nat, q: nat)
    requires p < q < |ts|
    ensures ts[p..q + 1] == [ts[p]] + ts[p + 1..q] + [ts[q]]
  {
  }

  lemma LeafSound(inp: Input, p: nat) returns (e: Tree)
    requires TypeAt(inp, p) !in {TokIdent, TokLParen} && PrimaryAt(inp, p).Done?
    ensures Spans(inp, p, PrimaryAt(inp, p).pos, e, 3, PrimaryAt(inp, p).v)
  {
    hide Resolve;
    var t := inp.tokens[p];
    assert t == Token(TypeAt(inp, p), t.val);
    assert inp.tokens[p..p + 1] == [t];
    if t.typ == TokNumber {
      e := NumLit(t.val);
      assert Body(e) == [t];
    } else if t.typ == TokString {
      e := StrLit(t.val);
      assert Body(e) == [t];
    } else {
      e := FieldRef(t.val);
      assert Body(e) == [t];
    }
  }

  lemma {:induction false} WordSound(inp: Input, p: nat) returns (e: Tree)
    requires AllCanonical(inp.tokens) && TypeAt(inp, p) == TokIdent && WordAt(inp, p).Done?
    ensures Spans(inp, p, WordAt(inp, p).pos, e, 3, WordAt(inp, p).v)
    decreases |inp.tokens| - p, 0
  {
    hide Spans, AllCanonical, Call;
    var name := inp.tokens[p].val;
    if name in RESERVED {
      e := ReservedSound(inp, p);
    } else if TypeAt(inp, p + 2) == TokRParen {
      e := JoinCall(inp, p, p + 2, [], [], WordAt(inp, p).v);
    } else {
      var args := ArgsSound(inp, p + 2);
      var a := ArgsAt(inp, p + 2);
      e := JoinCall(inp, p, a.pos, args, a.args, WordAt(inp, p).v);
    }
  }

  lemma ReservedSound(inp: Input, p: nat) returns (e: Tree)
    requires TypeAt(inp, p) == TokIdent && inp.tokens[p].val in RESERVED
    ensures Spans(inp, p, p + 1, e, 3, Literal(inp.tokens[p].val))
  {
    e := Word(inp.tokens[p].val);
    assert inp.tokens[p..p + 1] == [inp.tokens[p]];
  }

  /** The argument trees printed at p..q with commas between, and their values. */
  ghost predicate SpansArgs(inp: Input, p: nat, q: nat, args: seq<Tree>, vs: seq<Value>) {
    && p <= q <= |inp.tokens|
    && inp.tokens[p..q] == ArgTokens(args)
    && DenoteAll(args, inp.data, inp.en) == Some(vs)
    && forall i :: 0 <= i < |args| ==> WellNamed(args[i])
  }

  lemma JoinCall(inp: Input, p: nat, q: nat, args: seq<Tree>, vs: seq<Value>, v: Value) returns (e: Tree)
    requires AllCanonical(inp.tokens) && TypeAt(inp, p) == TokIdent && inp.tokens[p].val !in RESERVED
    requires TypeAt(inp, p + 1) == TokLParen && TypeAt(inp, q) == TokRParen
    requires args == [] ==> q == p + 2 && vs == []
    requires args != [] ==> SpansArgs(inp, p + 2, q, args, vs)
    requires Call(inp.en, inp.tokens[p].val, vs) == Some(v)
    ensures Spans(inp, p, q + 1, e, 3, v)
  {
    var name := inp.tokens[p].val;
    e := CallTree(name, args);
    hide Call, Denote, DenoteAll, ArgTokens;
    CallUnfolds(name, args, inp.data, inp.en);
    BodyAtOwnLevel(e);
    MarkAt(inp, p + 1, LPAREN);
    MarkAt(inp, q, RPAREN);
    CallSlices(inp.tokens, p, q);
    ArgsOrNone(inp, p + 2, q, args, vs);
    assert inp.tokens[p] == Token(TokIdent, name);
    hide AllCanonical, Tokens, Body, SpansArgs;
  }

  lemma CallSlices(ts: seq<Token>, p: nat, q: nat)
    requires p + 1 < q < |ts|
    ensures ts[p..q + 1] == [ts[p], ts[p + 1]] + ts[p + 2..q] + [ts[q]]
  {
  }

  lemma ArgsOrNone(inp: Input, p: nat, q: nat, args: seq<Tree>, vs: seq<Value>)
    requires q <= |inp.tokens|
    requires args == [] ==> q == p && vs == []
    requires args != [] ==> SpansArgs(inp, p, q, args, vs)
    ensures p <= q && inp.tokens[p..q] == ArgTokens(args) && DenoteAll(args, inp.data, inp.en) == Some(vs)
    ensures forall i :: 0 <= i < |args| ==> WellNamed(args[i])
  {
  }

  lemma {:induction false} ArgsSound(inp: Input, p: nat) returns (args: seq<Tree>)
    requires AllCanonical(inp.tokens) && ArgsAt(inp, p).DoneArgs?
    ensures args != [] && SpansArgs(inp, p, ArgsAt(inp, p).pos, args, ArgsAt(inp, p).args)
    decreases |inp.tokens| - p, 5
  {
    hide Spans, AllCanonical, SpansArgs;
    var first := ExprSound(inp, p);
    var x := ExprAt(inp, p);
    if TypeAt(inp, x.pos) != TokComma {
      args := [first];
      OneArg(inp, p, x.pos, first, x.v);
    } else {
      var rest := ArgsSound(inp, x.pos + 1);
      var a := ArgsAt(inp, x.pos + 1);
      args := [first] + rest;
      MoreArgs(inp, p, x.pos, a.pos, first, x.v, rest, a.args);
    }
  }

  lemma OneArg(inp: Input, p: nat, q: nat, e: Tree, v: Value)
    requires Spans(inp, p, q, e, 0, v)
    ensures SpansArgs(inp, p, q, [e], [v])
  {
    hide Tokens, Denote;
    DenoteAllUnfolds([e], inp.data, inp.en);
    assert [v] + [] == [v];
    assert ArgTokens([e]) == Tokens(e, 0);
  }

  lemma MoreArgs(inp: Input, p: nat, m: nat, q: nat, e: Tree, v: Value, rest: seq<Tree>, vs: seq<Value>)
    requires AllCanonical(inp.tokens) && TypeAt(inp, m) == TokComma && rest != []
    requires Spans(inp, p, m, e, 0, v) && SpansArgs(inp, m + 1, q, rest, vs)
    ensures SpansArgs(inp, p, q, [e] + rest, [v] + vs)
  {
    hide Tokens, Denote, DenoteAll;
    var args := [e] + rest;
    assert args[1..] == rest;
    DenoteAllUnfolds(args, inp.data, inp.en);
    MarkAt(inp, m, COMMA);
    Slices(inp.tokens, p, m, q);
    assert ArgTokens(args) == Tokens(e, 0) + [COMMA] + ArgTokens(rest);
  }

  // ----- What Evaluate answers, exactly -----

  /** The tokens start with a tree's tokens, followed by no operator that would carry the tree on. */
  ghost predicate StartsWithTree(ts: seq<Token>, e: Tree) {
    && WellNamed(e)
    && |Tokens(e, 0)| < |ts| && ts[..|Tokens(e, 0)|] == Tokens(e, 0)
    && ts[|Tokens(e, 0)|].typ !in {TokPlus, TokMinus, TokStar, TokSlash}
  }

  /** A successful evaluation is the denotation of a tree that the text starts with. */
  lemma EvaluateSound(expr: string, data: map<string, Value>, en: Engine, cc: CharClass) returns (e: Tree)
    requires Evaluation(expr, data, en, cc).Some?
    ensures StartsWithTree(Lex(TrimSpace(expr), None, cc).value, e)
    ensures Denote(e, data, en) == Evaluation(expr, data, en, cc)
  {
    hide Denote, Lex, TrimSpace, Tokens, WellNamed;
    var tokens := Lex(TrimSpace(expr), None, cc).value;
    var inp := Input(tokens, data, en);
    LexIsCanonical(TrimSpace(expr), None, cc);
    LexEnds(TrimSpace(expr), None, cc);
    e := ExprSound(inp, 0);
    ExprStops(inp, 0);
    TreeHasNoEnd(e, 0);
    assert tokens[0..ExprAt(inp, 0).pos] == tokens[..ExprAt(inp, 0).pos];
  }

  ghost predicate NoEnd(ts: seq<Token>) {
    forall i :: 0 <= i < |ts| ==> ts[i].typ != TokEOF
  }

  lemma {:induction false} TreeHasNoEnd(e: Tree, level: nat)
    ensures NoEnd(Tokens(e, level))
    decreases e, 1
  {
    hide NoEnd, ArgTokens;
    BodyHasNoEnd(e);
    NoEndOf([LPAREN], Body(e), [RPAREN]);
    NoEndOne();
  }

  lemma {:induction false} BodyHasNoEnd(e: Tree)
    ensures NoEnd(Body(e))
    decreases e, 0
  {
    match e
    case NegTree(a) =>
      TreeHasNoEnd(a, 3);
    case GroupTree(a) =>
      TreeHasNoEnd(a, 0);
    case BinTree(op, l, r) =>
      TreeHasNoEnd(l, Strength(e));
      TreeHasNoEnd(r, Strength(e) + 1);
      NoEndOf(Tokens(l, Strength(e)), [OpToken(op)], Tokens(r, Strength(e) + 1));
      assert NoEnd([OpToken(op)]);
      hide NoEnd, Tokens;
    case CallTree(name, args) =>
      ArgsHaveNoEnd(args);
    case _ =>
  }

  lemma {:induction false} ArgsHaveNoEnd(args: seq<Tree>)
    ensures NoEnd(ArgTokens(args))
    decreases args, 0
  {
    hide NoEnd, Tokens;
    NoEndOne();
    if args != [] {
      TreeHasNoEnd(args[0], 0);
      ArgsHaveNoEnd(args[1..]);
      NoEndOf(Tokens(args[0], 0), [COMMA], ArgTokens(args[1..]));
    }
  }

  lemma NoEndOf(a: seq<Token>, b: seq<Token>, c: seq<Token>)
    ensures NoEnd(a) && NoEnd(b) && NoEnd(c) ==> NoEnd(a + b + c)
  {
  }

  lemma NoEndOne()
    ensures NoEnd([]) && NoEnd([LPAREN]) && NoEnd([RPAREN]) && NoEnd([COMMA])
  {
  }

  /** A tree that the text starts with is what the evaluation denotes. */
  lemma EvaluateComplete(expr: string, e: Tree, data: map<string, Value>, en: Engine, cc: CharClass)
    requires TrimSpace(expr) != "" && Lex(TrimSpace(expr), None, cc).Some?
    requires StartsWithTree(Lex(TrimSpace(expr), None, cc).value, e)
    ensures Evaluation(expr, data, en, cc) == Denote(e, data, en)
  {
    hide Denote, Lex, TrimSpace, Tokens, WellNamed;
    var tokens := Lex(TrimSpace(expr), None, cc).value;
    var inp := Input(tokens, data, en);
    assert tokens[0..|Tokens(e, 0)|] == Tokens(e, 0);
    TreeReads(inp, 0, e, 0);
  }

  /** The text is the tokens of a tree and nothing else. */
  ghost predicate IsWhole(tokens: seq<Token>) {
    exists e :: WellNamed(e) && tokens == Tokens(e, 0) + [Token(TokEOF, "")]
  }

  /** A text that evaluates is a whole expression if and only if the end marker follows the tree it
      starts with. */
  lemma WholeIff(expr: string, e: Tree, data: map<string, Value>, en: Engine, cc: CharClass)
    requires Evaluation(expr, data, en, cc).Some?
    requires StartsWithTree(Lex(TrimSpace(expr), None, cc).value, e)
    ensures IsWhole(Lex(TrimSpace(expr), None, cc).value)
            <==> Lex(TrimSpace(expr), None, cc).value[|Tokens(e, 0)|].typ == TokEOF
  {
    hide Denote, Lex, TrimSpace, Tokens, WellNamed;
    var tokens := Lex(TrimSpace(expr), None, cc).value;
    LexEnds(TrimSpace(expr), None, cc);
    LexIsCanonical(TrimSpace(expr), None, cc);
    var n := |Tokens(e, 0)|;
    if tokens[n].typ == TokEOF {
      assert n == |tokens| - 1;
      assert tokens == tokens[..n] + [tokens[n]];
    } else if IsWhole(tokens) {
      var whole :| WellNamed(whole) && tokens == Tokens(whole, 0) + [Token(TokEOF, "")];
      StopsBehind(tokens, e, data, en);
      StopsBehind(tokens, whole, data, en);
    }
  }

  /** A parse that succeeds stops behind the tree that the tokens start with. */
  lemma StopsBehind(tokens: seq<Token>, e: Tree, data: map<string, Value>, en: Engine)
    requires StartsWithTree(tokens, e) && ExprAt(Input(tokens, data, en), 0).Done?
    ensures ExprAt(Input(tokens, data, en), 0).pos == |Tokens(e, 0)|
  {
    hide Denote, Tokens, WellNamed;
    assert tokens[0..|Tokens(e, 0)|] == Tokens(e, 0);
    TreeReads(Input(tokens, data, en), 0, e, 0);
  }

  /** Two numbers side by side: the evaluation takes the first and ignores the second. */
  lemma TrailingTokenIgnored(data: map<string, Value>, en: Engine, cc: CharClass)
    requires IsUnicode(cc) && cc.isDigit('1') && cc.isDigit('2')
    ensures Lex("1 2", None, cc) == Some([Token(TokNumber, "1"), Token(TokNumber, "2"), Token(TokEOF, "")])
    ensures Evaluation("1 2", data, en, cc) == Denote(NumLit("1"), data, en)
  {
    hide Lex, IsUnicode, TrimSpace, Render, AllPrintable, Denote, Tokens;
    var tokens := [Token(TokNumber, "1"), Token(TokNumber, "2"), Token(TokEOF, "")];
    var two := [Token(TokNumber, "1"), Token(TokNumber, "2")];
    TwoNumbers(cc);
    LexRender(cc, two, None);
    assert two + [Token(TokEOF, "")] == tokens;
    TrimNothing("1 2");
    OneNumber("1");
    assert tokens[..1] == [Token(TokNumber, "1")];
    EvaluateComplete("1 2", NumLit("1"), data, en, cc);
  }

  lemma OneNumber(t: string)
    ensures Tokens(NumLit(t), 0) == [Token(TokNumber, t)] && WellNamed(NumLit(t))
  {
  }

  lemma TwoNumbers(cc: CharClass)
    requires cc.isDigit('1') && cc.isDigit('2')
    ensures var two := [Token(TokNumber, "1"), Token(TokNumber, "2")];
            Render(two) == "1 2" && AllPrintable(cc, two, None)
  {
    var two := [Token(TokNumber, "1"), Token(TokNumber, "2")];
    assert two[1..] == [Token(TokNumber, "2")] && two[1..][1..] == [];
    assert IsDigits(cc, "1") && IsDigits(cc, "2");
    assert Render(two) == "1" + " " + "2";
  }

  lemma {:induction false} LexEnds(s: string, last: Option<TokenType>, cc: CharClass)
    requires Lex(s, last, cc).Some?
    ensures var ts := Lex(s, last, cc).value;
            ts != [] && ts[|ts| - 1] == Token(TokEOF, "")
    ensures var ts := Lex(s, last, cc).value; forall i :: 0 <= i < |ts| - 1 ==> ts[i].typ != TokEOF
    decreases |s|
  {
    hide QuotedAt, FieldAt, NumberAt, IdentAt;
    if s != "" {
      match First(s, last, cc)
      case Blank => LexEnds(s[1..], last, cc);
      case Bad =>
      case Lexeme(t, n) =>
        FirstIsNotEnd(s, last, cc);
        LexEnds(s[n..], Some(t.typ), cc);
    }
  }

  lemma FirstIsNotEnd(s: string, last: Option<TokenType>, cc: CharClass)
    requires s != "" && First(s, last, cc).Lexeme?
    ensures First(s, last, cc).token.typ != TokEOF
  {
    hide Span, QuoteEnd;
  }

  /** Where the parser stops no operator follows. */
  lemma {:induction false} ExprStops(inp: Input, p: nat)
    requires ExprAt(inp, p).Done?
    ensures TypeAt(inp, ExprAt(inp, p).pos) !in {TokPlus, TokMinus, TokStar, TokSlash}
  {
    TermStops(inp, p);
    ExprLoopStops(inp, TermAt(inp, p).v, TermAt(inp, p).pos);
  }

  lemma {:induction false} ExprLoopStops(inp: Input, left: Value, p: nat)
    requires p <= |inp.tokens| && ExprLoop(inp, left, p).Done? && TypeAt(inp, p) !in {TokStar, TokSlash}
    ensures TypeAt(inp, ExprLoop(inp, left, p).pos) !in {TokPlus, TokMinus, TokStar, TokSlash}
    decreases |inp.tokens| - p
  {
    hide Apply;
    if TypeAt(inp, p) == TokPlus || TypeAt(inp, p) == TokMinus {
      TermStops(inp, p + 1);
      var r := TermAt(inp, p + 1);
      ExprLoopStops(inp, Apply(inp.en, if TypeAt(inp, p) == TokPlus then Add else Sub, left, r.v).value, r.pos);
    }
  }

  lemma {:induction false} TermStops(inp: Input, p: nat)
    requires TermAt(inp, p).Done?
    ensures TypeAt(inp, TermAt(inp, p).pos) !in {TokStar, TokSlash}
  {
    TermLoopStops(inp, UnaryAt(inp, p).v, UnaryAt(inp, p).pos);
  }

  lemma {:induction false} TermLoopStops(inp: Input, left: Value, p: nat)
    requires p <= |inp.tokens| && TermLoop(inp, left, p).Done?
    ensures TypeAt(inp, TermLoop(inp, left, p).pos) !in {TokStar, TokSlash}
    decreases |inp.tokens| - p
  {
    hide Apply;
    if TypeAt(inp, p) == TokStar || TypeAt(inp, p) == TokSlash {
      var r := UnaryAt(inp, p + 1);
      TermLoopStops(inp, Apply(inp.en, if TypeAt(inp, p) == TokStar then Mul else Div, left, r.v).value, r.pos);
    }
  }
}
