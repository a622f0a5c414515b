/**
 * The recursive-descent parser of the adder compiler
 * (`adder/compiler/co_parser.c`): a cursor over the token list of
 * `tokenizer_analyze`, an error record that keeps only its first error, and
 * one parse function per construct, each answering nothing (the construct
 * does not start here), a node, or a build error.
 *
 * The parse is first given as functions over the parser state `St` (cursor,
 * error code, error location); the class `Parser` then does the same work
 * step by step on its fields, each method proved equal to its function.
 *
 * A read of a token past the last one is the abort `OutOfBounds`, and once a
 * run aborts nothing else happens: every function hands an abort straight
 * back. `par_out_of_tokens` is declared and defined nowhere in this
 * revision; it is modelled as the fourth kind `OutOfTokens`, which none of
 * `par_is_nothing`, `par_is_node` and `par_is_error` accept.
 *
 * `pa_peek_token` clamps the look-ahead to the number of tokens left, which
 * reads the slot just past the last token; `reading` selects that text
 * (`AsWritten`) or the clamp to the last token (`Corrected`).
 */
module CoParser {
  import opened Wrappers
  import opened CoTypes
  import CoAst
  import CoUtils
  import CoCres
  import TokenList
  import AdderTokenizer

  /** `ast_value_type_t` of this revision's `co_ast.h`. */
  datatype ValueType = VtNone | VtNumber | VtBool | VtString

  /**
   * The nodes `co_ast.h` builds for the parser. A number keeps its source
   * text (the float conversion is not modelled); lists of statements,
   * arguments and parameters are blocks.
   */
  datatype Ast =
    | NumberLit(ref: SrcRef)
    | BoolLit(truth: bool)
    | StringLit(ref: SrcRef)
    | VarRef(ref: SrcRef)
    | VarDecl(ref: SrcRef, vtype: ValueType)
    | Block(items: seq<Ast>)
    | ArrayLit(items: seq<Ast>)
    | Return(value: Ast)
    | Break
    | FunSign(ref: SrcRef, rettype: ValueType)
    | FunDecl(sign: Ast, args: Ast, body: Ast)
    | FunCall(ref: SrcRef, args: Ast)
    | IfChain(cond: Ast, ifTrue: Ast, next: Ast)
    | Foreach(decl: Ast, collection: Ast, body: Ast)
    | Binop(op: CoAst.BinopType, lhs: Ast, rhs: Ast)
    | Unop(uop: CoAst.UnopType, inner: Ast)
    | Assign(target: Ast, value: Ast)

  /** `pa_result_t`, with the out-of-tokens result and the aborts. */
  datatype Res = Nothing | Parsed(node: Ast) | BuildError | OutOfTokens | Crash(abort: Abort)

  /** The parser's cursor and the code and location of its result record. */
  datatype St = St(pos: nat, code: CresCode, loc: SrcRef)

  /** A parse result with the state it leaves. */
  datatype Out = Out(res: Res, st: St)

  /** `par_is_error`, with an abort counted as an error so that it is handed back at once. */
  predicate Stops(r: Out) {
    r.res.BuildError? || r.res.Crash?
  }

  function Next(st: St): St {
    st.(pos := st.pos + 1)
  }

  /** The cursor moves forward and stays inside the list, and a recorded error is never replaced. */
  predicate Keeps(ts: seq<Token>, st: St, r: Out) {
    st.pos <= r.st.pos <= |ts| &&
    (st.code != ROk ==> r.st.code == st.code && r.st.loc == st.loc)
  }

  /** `Keeps`, and a node is never made of no tokens. */
  predicate Follows(ts: seq<Token>, st: St, r: Out) {
    Keeps(ts, st, r) && (r.res.Parsed? ==> st.pos < r.st.pos)
  }

  /** `Follows`, and nothing means that the state is as it was. */
  predicate Tries(ts: seq<Token>, st: St, r: Out) {
    Follows(ts, st, r) && (r.res.Nothing? ==> r.st == st)
  }

  /**
   * `cres_set_error` followed, when the code was taken, by
   * `cres_set_src_location`: only the first error is recorded.
   */
  function Raise(st: St, code: CresCode, loc: SrcRef): (s: St)
    ensures s.pos == st.pos
    ensures st.code == ROk ==> s.code == code && s.loc == loc
    ensures st.code != ROk ==> s == st
  {
    if st.code == ROk then St(st.pos, code, loc) else st
  }

  /**
   * `pa_peek_token`: the token `lookahead` places after the cursor. Near the
   * end the look-ahead is cut to the tokens left, which as written lands one
   * past the last token; corrected, it lands on the last one.
   */
  function Peek(ts: seq<Token>, pos: nat, lookahead: nat, reading: Reading): (r: Result<Token, Abort>)
    requires pos <= |ts|
    ensures pos + lookahead < |ts| ==> r == Ok(ts[pos + lookahead])
    ensures reading == AsWritten && |ts| <= pos + lookahead ==> r == Err(OutOfBounds)
    ensures reading == Corrected && 0 < |ts| <= pos + lookahead ==> r == Ok(ts[|ts| - 1])
    ensures reading == Corrected && |ts| == 0 ==> r == Err(OutOfBounds)
  {
    var diff := |ts| - pos;
    var la := match reading
      case AsWritten => if diff < lookahead then diff else lookahead
      case Corrected => if diff <= lookahead then diff - 1 else lookahead;
    var i := pos + la;
    if 0 <= i < |ts| then Ok(ts[i]) else Err(OutOfBounds)
  }

  /**
   * `pa_consume`: with an error already recorded, a build error; at the end,
   * out of tokens; a token of another type records `R_ERR_TOKEN` at it; the
   * expected token is stepped over.
   */
  function ConsumeAt(ts: seq<Token>, st: St, expected: TokenType): (r: Out)
    requires st.pos <= |ts|
    ensures r.res.Nothing? || r.res.BuildError? || r.res.OutOfTokens?
    ensures r.res.Nothing? <==> st.code == ROk && st.pos < |ts| && ts[st.pos].kind == expected
    ensures r.res.Nothing? ==> r.st == Next(st)
    ensures r.res.OutOfTokens? <==> st.code == ROk && st.pos == |ts|
    ensures !r.res.Nothing? ==> r.st.pos == st.pos
    ensures r.res.BuildError? && st.code == ROk ==> r.st.code == RErrToken && r.st.loc == ts[st.pos].ref
    ensures Follows(ts, st, r)
  {
    if st.code != ROk then Out(BuildError, st)
    else if st.pos >= |ts| then Out(OutOfTokens, st)
    else if ts[st.pos].kind != expected then Out(BuildError, Raise(st, RErrToken, ts[st.pos].ref))
    else Out(Nothing, Next(st))
  }

  /** `pa_value_type`: the type a type name stands for. */
  function ValueTypeOf(ref: SrcRef): (vt: ValueType)
    ensures vt == VtNumber <==> CoUtils.EqualsString(ref, "num")
    ensures vt == VtBool ==> CoUtils.EqualsString(ref, "bol")
    ensures vt == VtString ==> CoUtils.EqualsString(ref, "str")
    ensures vt == VtNone <==> !CoUtils.EqualsString(ref, "num") && !CoUtils.EqualsString(ref, "bol") && !CoUtils.EqualsString(ref, "str")
  {
    if CoUtils.EqualsString(ref, "num") then VtNumber
    else if CoUtils.EqualsString(ref, "bol") then VtBool
    else if CoUtils.EqualsString(ref, "str") then VtString
    else VtNone
  }

  /** `ast_binop_type_t` of a binary operator token, as `pa_parse_expression` pairs them. */
  function BinopOf(tt: TokenType): Option<CoAst.BinopType> {
    if tt.TtBinopAnd? then Some(CoAst.And)
    else if tt.TtBinopOr? then Some(CoAst.Or)
    else if tt.TtBinopMul? then Some(CoAst.Mul)
    else if tt.TtBinopDiv? then Some(CoAst.Div)
    else if tt.TtBinopMod? then Some(CoAst.Mod)
    else if tt.TtBinopMinus? then Some(CoAst.Sub)
    else if tt.TtBinopPlus? then Some(CoAst.Add)
    else if tt.TtCmpEq? then Some(CoAst.Eq)
    else if tt.TtCmpNeq? then Some(CoAst.Neq)
    else if tt.TtCmpLt? then Some(CoAst.Lt)
    else if tt.TtCmpGt? then Some(CoAst.Gt)
    else if tt.TtCmpGtEq? then Some(CoAst.GtEq)
    else if tt.TtCmpLtEq? then Some(CoAst.LtEq)
    else None
  }

  // ---------------------------------------------------------------- values

  /** `pa_parse_number`: a number token becomes a number node. */
  function NumberAt(ts: seq<Token>, st: St): (r: Out)
    requires st.pos <= |ts|
    ensures Follows(ts, st, r) && !r.res.Nothing?
    ensures r.res.Parsed? <==> st.code == ROk && st.pos < |ts| && ts[st.pos].kind == TtNumber
    ensures r.res.Parsed? ==> r == Out(Parsed(NumberLit(ts[st.pos].ref)), Next(st))
  {
    if st.pos >= |ts| then Out(Crash(OutOfBounds), st)
    else
      var token := ts[st.pos];
      var c := ConsumeAt(ts, st, TtNumber);
      if !c.res.Nothing? then c
      else Out(Parsed(NumberLit(token.ref)), c.st)
  }

  /**
   * `pa_parse_boolean`: a boolean token whose text is `true` or `false`
   * becomes its truth; any other text records `R_ERR_TOKEN` at the token.
   */
  function BooleanAt(ts: seq<Token>, st: St): (r: Out)
    requires st.pos <= |ts|
    ensures Follows(ts, st, r) && !r.res.Nothing?
    ensures r.res.Parsed? <==> st.code == ROk && st.pos < |ts| && ts[st.pos].kind == TtBoolean && CoUtils.AsBool(ts[st.pos].ref).Some?
    ensures r.res.Parsed? ==> r == Out(Parsed(BoolLit(CoUtils.AsBool(ts[st.pos].ref).value)), Next(st))
  {
    if st.pos >= |ts| then Out(Crash(OutOfBounds), st)
    else
      var token := ts[st.pos];
      var c := ConsumeAt(ts, st, TtBoolean);
      if !c.res.Nothing? then c
      else match CoUtils.AsBool(token.ref)
        case Some(v) => Out(Parsed(BoolLit(v)), c.st)
        case None => Out(BuildError, Raise(c.st, RErrToken, token.ref))
  }

  /** `pa_parse_string`: a string token becomes a string node over its text. */
  function StringAt(ts: seq<Token>, st: St): (r: Out)
    requires st.pos <= |ts|
    ensures Follows(ts, st, r) && !r.res.Nothing?
    ensures r.res.Parsed? <==> st.code == ROk && st.pos < |ts| && ts[st.pos].kind == TtString
    ensures r.res.Parsed? ==> r == Out(Parsed(StringLit(ts[st.pos].ref)), Next(st))
  {
    if st.pos >= |ts| then Out(Crash(OutOfBounds), st)
    else
      var token := ts[st.pos];
      var c := ConsumeAt(ts, st, TtString);
      if !c.res.Nothing? then c
      else Out(Parsed(StringLit(token.ref)), c.st)
  }

  /** `pa_try_parse_value`: a boolean, number or string literal, or nothing. */
  function ValueAt(ts: seq<Token>, st: St): (r: Out)
    requires st.pos <= |ts|
    ensures Tries(ts, st, r)
    ensures st.pos < |ts| ==> (r.res.Nothing? <==> ts[st.pos].kind !in {TtBoolean, TtNumber, TtString})
  {
    if st.pos >= |ts| then Out(Crash(OutOfBounds), st)
    else
      var kind := ts[st.pos].kind;
      if kind == TtBoolean then BooleanAt(ts, st)
      else if kind == TtNumber then NumberAt(ts, st)
      else if kind == TtString then StringAt(ts, st)
      else Out(Nothing, st)
  }

  /** `pa_try_parse_var_name`: a symbol becomes a variable reference. */
  function VarNameAt(ts: seq<Token>, st: St): (r: Out)
    requires st.pos <= |ts|
    ensures Tries(ts, st, r)
    ensures st.pos < |ts| && ts[st.pos].kind == TtSymbol ==> r == Out(Parsed(VarRef(ts[st.pos].ref)), Next(st))
    ensures st.pos < |ts| && ts[st.pos].kind != TtSymbol ==> r == Out(Nothing, st)
  {
    if st.pos >= |ts| then Out(Crash(OutOfBounds), st)
    else if ts[st.pos].kind == TtSymbol then Out(Parsed(VarRef(ts[st.pos].ref)), Next(st))
    else Out(Nothing, st)
  }

  // ----------------------------------------------------------- expressions

  /**
   * `pa_try_parse_group`: an expression between parentheses is that
   * expression; a missing `)` is a build error.
   */
  function GroupAt(ts: seq<Token>, st: St, reading: Reading): (r: Out)
    requires st.pos <= |ts|
    ensures Tries(ts, st, r)
    ensures st.pos < |ts| ==> (r.res.Nothing? <==> ts[st.pos].kind != TtOpenParen)
    decreases |ts| - st.pos, 8
  {
    if st.pos >= |ts| then Out(Crash(OutOfBounds), st)
    else if ts[st.pos].kind != TtOpenParen then Out(Nothing, st)
    else
      var inner := ExpressionAt(ts, Next(st), reading);
      if Stops(inner) then inner
      else
        var c := ConsumeAt(ts, inner.st, TtCloseParen);
        if c.res.BuildError? then c else Out(inner.res, c.st)
  }

  /**
   * `pa_try_parse_func_call`: a symbol followed by `(` is a call; its
   * arguments are expressions separated by commas up to `)`.
   */
  function FuncCallAt(ts: seq<Token>, st: St, reading: Reading): (r: Out)
    requires st.pos <= |ts|
    ensures Tries(ts, st, r)
    ensures r.res.Parsed? ==> r.res.node.FunCall? && r.res.node.args.Block?
    decreases |ts| - st.pos, 8
  {
    if st.pos >= |ts| then Out(Crash(OutOfBounds), st)
    else match Peek(ts, st.pos, 1, reading)
      case Err(a) => Out(Crash(a), st)
      case Ok(openParen) =>
        var name := ts[st.pos];
        if name.kind != TtSymbol || openParen.kind != TtOpenParen then Out(Nothing, st)
        else
          // both advances succeed: the `(` is a token after the name
          var args := ClosedListAt(ts, Next(Next(st)), TtCloseParen, reading);
          match args.res
          case Parsed(block) => Out(Parsed(FunCall(name.ref, block)), args.st)
          case _ => args
  }

  /**
   * The tail shared by `pa_try_parse_func_call` and `pa_try_parse_array_def`
   * once the opening bracket is behind: the closing token `close` at once is
   * an empty block; otherwise the expressions of `ExpressionListAt` and then
   * `close`, consumed.
   */
  function ClosedListAt(ts: seq<Token>, st: St, close: TokenType, reading: Reading): (r: Out)
    requires st.pos <= |ts|
    ensures Follows(ts, st, r)
    ensures r.res.Parsed? ==> r.res.node.Block?
    decreases |ts| - st.pos, 12
  {
    if st.pos >= |ts| then Out(Crash(OutOfBounds), st)
    else if ts[st.pos].kind == close then Out(Parsed(Block([])), Next(st))
    else
      var items := ExpressionListAt(ts, st, [], reading);
      if !items.res.Parsed? then items
      else
        var c := ConsumeAt(ts, items.st, close);
        if !c.res.Nothing? then c else Out(items.res, c.st)
  }

  /**
   * The `do … while( pa_advance_if(parser, TT_SEPARATOR) )` loop of
   * `pa_try_parse_func_call` and `pa_try_parse_array_def`: expressions
   * separated by commas, after `items`, collected in a block; the first
   * result that is not a node ends the parse with that result.
   */
  function ExpressionListAt(ts: seq<Token>, st: St, items: seq<Ast>, reading: Reading): (r: Out)
    requires st.pos <= |ts|
    ensures Follows(ts, st, r)
    ensures r.res.Parsed? || r.res.BuildError? || r.res.Crash?
    ensures r.res.Parsed? ==> r.res.node.Block? && |r.res.node.items| > |items|
    decreases |ts| - st.pos, 11
  {
    var e := ExpressionAt(ts, st, reading);
    if !e.res.Parsed? then e
    else
      var more := items + [e.res.node];
      if e.st.pos >= |ts| then Out(Crash(OutOfBounds), e.st)
      else if ts[e.st.pos].kind == TtSeparator then ExpressionListAt(ts, Next(e.st), more, reading)
      else Out(Parsed(Block(more)), e.st)
  }

  /** `pa_try_parse_array_def`: expressions separated by commas between `[` and `]`. */
  function ArrayAt(ts: seq<Token>, st: St, reading: Reading): (r: Out)
    requires st.pos <= |ts|
    ensures Tries(ts, st, r)
    ensures st.pos < |ts| ==> (r.res.Nothing? <==> ts[st.pos].kind != TtOpenSbracket)
    ensures r.res.Parsed? ==> r.res.node.ArrayLit?
    decreases |ts| - st.pos, 8
  {
    if st.pos >= |ts| then Out(Crash(OutOfBounds), st)
    else if ts[st.pos].kind != TtOpenSbracket then Out(Nothing, st)
    else
      // the advance succeeds: the `[` is a token
      var items := ClosedListAt(ts, Next(st), TtCloseSbracket, reading);
      match items.res
      case Parsed(block) => Out(Parsed(ArrayLit(block.items)), items.st)
      case _ => items
  }

  // Each step lemma below unfolds one spec function once, so that the
  // method it serves compares its result against a single explicit value.

  lemma FuncCallStep(ts: seq<Token>, st: St, reading: Reading, args: Out)
    requires st.pos + 1 < |ts| && ts[st.pos].kind == TtSymbol && ts[st.pos + 1].kind == TtOpenParen
    requires args == ClosedListAt(ts, Next(Next(st)), TtCloseParen, reading)
    ensures FuncCallAt(ts, st, reading) == match args.res
      case Parsed(block) => Out(Parsed(FunCall(ts[st.pos].ref, block)), args.st)
      case _ => args
  {
  }

  lemma ClosedListStep(ts: seq<Token>, st: St, close: TokenType, reading: Reading, items: Out)
    requires st.pos < |ts| && ts[st.pos].kind != close
    requires items == ExpressionListAt(ts, st, [], reading)
    ensures ClosedListAt(ts, st, close, reading) ==
      if !items.res.Parsed? then items
      else
        var c := ConsumeAt(ts, items.st, close);
        if !c.res.Nothing? then c else Out(items.res, c.st)
  {
  }

  lemma ExpressionListStep(ts: seq<Token>, st: St, items: seq<Ast>, reading: Reading, e: Out)
    requires st.pos <= |ts|
    requires e == ExpressionAt(ts, st, reading)
    ensures ExpressionListAt(ts, st, items, reading) ==
      if !e.res.Parsed? then e
      else if e.st.pos >= |ts| then Out(Crash(OutOfBounds), e.st)
      else if ts[e.st.pos].kind == TtSeparator then ExpressionListAt(ts, Next(e.st), items + [e.res.node], reading)
      else Out(Parsed(Block(items + [e.res.node])), e.st)
  {
  }

  lemma ArrayStep(ts: seq<Token>, st: St, reading: Reading, items: Out)
    requires st.pos < |ts| && ts[st.pos].kind == TtOpenSbracket
    requires items == ClosedListAt(ts, Next(st), TtCloseSbracket, reading)
    ensures ArrayAt(ts, st, reading) == match items.res
      case Parsed(block) => Out(Parsed(ArrayLit(block.items)), items.st)
      case _ => items
  {
  }

  lemma UnaryStep(ts: seq<Token>, st: St, tt: TokenType, op: CoAst.UnopType, reading: Reading, e: Out)
    requires st.pos < |ts| && ts[st.pos].kind == tt
    requires e == ExpressionAt(ts, Next(st), reading)
    ensures UnaryAt(ts, st, tt, op, reading) == match e.res
      case Parsed(inner) => Out(Parsed(Unop(op, inner)), e.st)
      case _ => e
  {
  }

  /**
   * `pa_try_parse_unary_operation`: the operator token `tt` followed by an
   * expression. An expression is never nothing, so the source's assertion
   * holds and every result that is not a node is handed back.
   */
  function UnaryAt(ts: seq<Token>, st: St, tt: TokenType, op: CoAst.UnopType, reading: Reading): (r: Out)
    requires st.pos <= |ts|
    ensures Tries(ts, st, r)
    ensures st.pos < |ts| ==> (r.res.Nothing? <==> ts[st.pos].kind != tt)
    decreases |ts| - st.pos, 8
  {
    if st.pos >= |ts| then Out(Crash(OutOfBounds), st)
    else if ts[st.pos].kind != tt then Out(Nothing, st)
    else
      var inner := ExpressionAt(ts, Next(st), reading);
      if !inner.res.Parsed? then inner
      else Out(Parsed(Unop(op, inner.res.node)), inner.st)
  }

  /**
   * `pa_try_parse_binary_operation`: the operator token `tt` followed by an
   * expression, which becomes the right operand of `lhs`.
   */
  function BinaryAt(ts: seq<Token>, st: St, lhs: Ast, tt: TokenType, op: CoAst.BinopType, reading: Reading): (r: Out)
    requires st.pos <= |ts|
    ensures Tries(ts, st, r)
    ensures st.pos < |ts| ==> (r.res.Nothing? <==> ts[st.pos].kind != tt)
    ensures st.pos >= |ts| ==> r.res.Crash?
    ensures r.res.Parsed? ==> r.res.node.Binop? && r.res.node.op == op && r.res.node.lhs == lhs
    ensures !r.res.OutOfTokens?
    decreases |ts| - st.pos, 8
  {
    if st.pos >= |ts| then Out(Crash(OutOfBounds), st)
    else if ts[st.pos].kind != tt then Out(Nothing, st)
    else
      var rhs := ExpressionAt(ts, Next(st), reading);
      if !rhs.res.Parsed? then rhs
      else Out(Parsed(Binop(op, lhs, rhs.res.node)), rhs.st)
  }

  lemma BinaryStep(ts: seq<Token>, st: St, lhs: Ast, tt: TokenType, op: CoAst.BinopType, reading: Reading, e: Out)
    requires st.pos < |ts| && ts[st.pos].kind == tt
    requires e == ExpressionAt(ts, Next(st), reading)
    ensures BinaryAt(ts, st, lhs, tt, op, reading) == match e.res case Parsed(r) => Out(Parsed(Binop(op, lhs, r)), e.st) case _ => e
  {
  }

  /** The thirteen binary operators in the order `pa_parse_expression` tries them. */
  const BinaryOrder: seq<(TokenType, CoAst.BinopType)> := [
    (TtBinopAnd, CoAst.And), (TtBinopOr, CoAst.Or), (TtBinopMul, CoAst.Mul), (TtBinopDiv, CoAst.Div),
    (TtBinopMod, CoAst.Mod), (TtBinopMinus, CoAst.Sub), (TtBinopPlus, CoAst.Add), (TtCmpEq, CoAst.Eq),
    (TtCmpNeq, CoAst.Neq), (TtCmpLt, CoAst.Lt), (TtCmpGt, CoAst.Gt), (TtCmpGtEq, CoAst.GtEq),
    (TtCmpLtEq, CoAst.LtEq)]

  /**
   * The binary-operator half of `pa_parse_expression`: the operators of
   * `BinaryOrder` from the `i`-th on, tried in turn with `BinaryAt`; the
   * first result that is not nothing.
   */
  function OperatorAt(ts: seq<Token>, st: St, lhs: Ast, i: nat, reading: Reading): (r: Out)
    requires st.pos <= |ts| && i <= |BinaryOrder|
    ensures Tries(ts, st, r)
    ensures !r.res.OutOfTokens?
    ensures st.pos >= |ts| && i < |BinaryOrder| ==> r == Out(Crash(OutOfBounds), st)
    decreases |ts| - st.pos, 9, |BinaryOrder| - i
  {
    if i == |BinaryOrder| then Out(Nothing, st)
    else
      var b := BinaryAt(ts, st, lhs, BinaryOrder[i].0, BinaryOrder[i].1, reading);
      if !b.res.Nothing? then b else OperatorAt(ts, st, lhs, i + 1, reading)
  }

  /** Each pair of the table is an operator token and the operator `BinopOf` gives it. */
  lemma BinaryOrderPairs()
    ensures forall j :: 0 <= j < |BinaryOrder| ==> BinopOf(BinaryOrder[j].0) == Some(BinaryOrder[j].1)
  {
  }

  /** The table's token types are pairwise different. */
  lemma BinaryOrderDistinct()
    ensures forall j, k :: 0 <= j < k < |BinaryOrder| ==> BinaryOrder[j].0 != BinaryOrder[k].0
  {
  }

  /** Every token type `BinopOf` maps to an operator is in the table. */
  lemma BinaryOrderCovers(tt: TokenType) returns (j: nat)
    requires BinopOf(tt).Some?
    ensures j < |BinaryOrder| && BinaryOrder[j].0 == tt
  {
    j := if tt == TtBinopAnd then 0 else if tt == TtBinopOr then 1 else if tt == TtBinopMul then 2
      else if tt == TtBinopDiv then 3 else if tt == TtBinopMod then 4 else if tt == TtBinopMinus then 5
      else if tt == TtBinopPlus then 6 else if tt == TtCmpEq then 7 else if tt == TtCmpNeq then 8
      else if tt == TtCmpLt then 9 else if tt == TtCmpGt then 10 else if tt == TtCmpGtEq then 11 else 12;
  }

  /** A chain from `i` on gives nothing when no pair from `i` on has the token's type, and otherwise the first pair that has it. */
  lemma {:induction false} OperatorFinds(ts: seq<Token>, st: St, lhs: Ast, i: nat, reading: Reading)
    requires st.pos < |ts| && i <= |BinaryOrder|
    ensures (forall j :: i <= j < |BinaryOrder| ==> BinaryOrder[j].0 != ts[st.pos].kind) ==>
      OperatorAt(ts, st, lhs, i, reading) == Out(Nothing, st)
    ensures forall j :: (i <= j < |BinaryOrder| && BinaryOrder[j].0 == ts[st.pos].kind &&
                         forall k :: i <= k < j ==> BinaryOrder[k].0 != ts[st.pos].kind) ==>
      OperatorAt(ts, st, lhs, i, reading) == BinaryAt(ts, st, lhs, ts[st.pos].kind, BinaryOrder[j].1, reading)
    decreases |BinaryOrder| - i
  {
    if i < |BinaryOrder| {
      OperatorFinds(ts, st, lhs, i + 1, reading);
      var kind := ts[st.pos].kind;
      var b := BinaryAt(ts, st, lhs, BinaryOrder[i].0, BinaryOrder[i].1, reading);
      assert OperatorAt(ts, st, lhs, i, reading) == if !b.res.Nothing? then b else OperatorAt(ts, st, lhs, i + 1, reading);
      assert b.res.Nothing? <==> BinaryOrder[i].0 != kind;
      forall j | i <= j < |BinaryOrder| && BinaryOrder[j].0 == kind && forall k :: i <= k < j ==> BinaryOrder[k].0 != kind
        ensures OperatorAt(ts, st, lhs, i, reading) == BinaryAt(ts, st, lhs, kind, BinaryOrder[j].1, reading)
      {
        if j > i {
          assert BinaryOrder[i].0 != kind;
        }
      }
    }
  }

  /**
   * Since one token has one type, at most one of the thirteen tries applies:
   * the operator half parses the operator `BinopOf` pairs with the current
   * token's type, or gives nothing when there is none.
   */
  lemma OperatorDispatch(ts: seq<Token>, st: St, lhs: Ast, reading: Reading)
    requires st.pos < |ts|
    ensures OperatorAt(ts, st, lhs, 0, reading) ==
      match BinopOf(ts[st.pos].kind)
      case None => Out(Nothing, st)
      case Some(op) => BinaryAt(ts, st, lhs, ts[st.pos].kind, op, reading)
  {
    var kind := ts[st.pos].kind;
    OperatorFinds(ts, st, lhs, 0, reading);
    BinaryOrderPairs();
    if BinopOf(kind).Some? {
      var j := BinaryOrderCovers(kind);
      BinaryOrderDistinct();
      assert forall k :: 0 <= k < j ==> BinaryOrder[k].0 != kind;
    }
  }

  /**
   * The standard half of `pa_parse_expression`: group, call, literal value,
   * variable, array, then the unary `-` and `!`, the first that is not
   * nothing.
   */
  function PrimaryAt(ts: seq<Token>, st: St, reading: Reading): (r: Out)
    requires st.pos <= |ts|
    ensures Tries(ts, st, r)
    decreases |ts| - st.pos, 9
  {
    var g := GroupAt(ts, st, reading);
    if !g.res.Nothing? then g else
    var f := FuncCallAt(ts, st, reading);
    if !f.res.Nothing? then f else
    var v := ValueAt(ts, st);
    if !v.res.Nothing? then v else
    var n := VarNameAt(ts, st);
    if !n.res.Nothing? then n else
    var a := ArrayAt(ts, st, reading);
    if !a.res.Nothing? then a else
    var m := UnaryAt(ts, st, TtBinopMinus, CoAst.Neg, reading);
    if !m.res.Nothing? then m else
    UnaryAt(ts, st, TtUnopNot, CoAst.Not, reading)
  }

  /**
   * `pa_parse_expression`: a primary expression, or `R_ERR_EXPR` at the
   * current token when none starts here; then, when an operator follows, the
   * operator applied to it and the whole expression after the operator.
   */
  function ExpressionAt(ts: seq<Token>, st: St, reading: Reading): (r: Out)
    requires st.pos <= |ts|
    ensures Follows(ts, st, r)
    ensures r.res.Parsed? || r.res.BuildError? || r.res.Crash?
    decreases |ts| - st.pos, 10
  {
    var p := PrimaryAt(ts, st, reading);
    if Stops(p) then p
    else if !p.res.Parsed? then
      if p.st.code != ROk then Out(BuildError, p.st)
      else if p.st.pos >= |ts| then Out(Crash(OutOfBounds), p.st)
      else Out(BuildError, Raise(p.st, RErrExpr, ts[p.st.pos].ref))
    else
      var b := OperatorAt(ts, p.st, p.res.node, 0, reading);
      if !b.res.Nothing? then b else Out(p.res, b.st)
  }

  // ------------------------------------------------------------ statements

  /**
   * `pa_parse_vardecl`: a type name and a variable name, both symbols; the
   * variable is read with `pa_peek_token` before either is consumed.
   */
  function VardeclAt(ts: seq<Token>, st: St, reading: Reading): (r: Out)
    requires st.pos <= |ts|
    ensures Follows(ts, st, r)
    ensures r.res.Parsed? || r.res.BuildError? || r.res.Crash?
    ensures r.res.Parsed? ==> r.res.node.VarDecl? && r.st.pos == st.pos + 2
  {
    if st.pos >= |ts| then Out(Crash(OutOfBounds), st)
    else match Peek(ts, st.pos, 1, reading)
      case Err(a) => Out(Crash(a), st)
      case Ok(varname) =>
        var typename := ts[st.pos];
        var c := ConsumeAt(ts, st, TtSymbol);
        var c2 := if c.res.Nothing? then ConsumeAt(ts, c.st, TtSymbol) else c;
        if c2.res.BuildError? then c2
        else if !c2.res.Nothing? then Out(Crash(AssertFailed("par_is_nothing(result)")), c2.st)
        else Out(Parsed(VarDecl(varname.ref, ValueTypeOf(typename.ref))), c2.st)
  }

  /**
   * `pa_try_parse_assignment`: `name = expression` when the next token is
   * `=`, `type name = expression` when the one after it is, else nothing.
   */
  function AssignmentAt(ts: seq<Token>, st: St, reading: Reading): (r: Out)
    requires st.pos <= |ts|
    ensures Tries(ts, st, r)
    ensures !r.res.OutOfTokens? || r.st.pos == |ts|
    ensures r.res.Parsed? ==> r.res.node.Assign?
  {
    match Peek(ts, st.pos, 1, reading)
    case Err(a) => Out(Crash(a), st)
    case Ok(t1) =>
      if t1.kind == TtAssign then
        if st.pos >= |ts| then Out(Crash(OutOfBounds), st)
        else
          var name := ts[st.pos];
          var c := ConsumeAt(ts, st, TtSymbol);
          if c.res.BuildError? then c
          else if c.st.pos >= |ts| then Out(OutOfTokens, c.st)
          else
            var rhs := ExpressionAt(ts, Next(c.st), reading);
            if !rhs.res.Parsed? then rhs
            else Out(Parsed(Assign(VarRef(name.ref), rhs.res.node)), rhs.st)
      else match Peek(ts, st.pos, 2, reading)
        case Err(a) => Out(Crash(a), st)
        case Ok(t2) =>
          if t2.kind != TtAssign then Out(Nothing, st)
          else
            var decl := VardeclAt(ts, st, reading);
            if !decl.res.Parsed? then decl
            else
              var eq := ConsumeAt(ts, decl.st, TtAssign);
              if eq.res.BuildError? then eq
              else
                var rhs := ExpressionAt(ts, eq.st, reading);
                if !rhs.res.Parsed? then rhs
                else Out(Parsed(Assign(decl.res.node, rhs.res.node)), rhs.st)
  }

  /** `pa_try_parse_body_break`: the keyword `break`. */
  function BreakAt(ts: seq<Token>, st: St): (r: Out)
    requires st.pos <= |ts|
    ensures Tries(ts, st, r)
    ensures st.pos < |ts| ==> r == if ts[st.pos].kind == TtKwBreak then Out(Parsed(Break), Next(st)) else Out(Nothing, st)
  {
    if st.pos >= |ts| then Out(Crash(OutOfBounds), st)
    else if ts[st.pos].kind == TtKwBreak then Out(Parsed(Break), Next(st))
    else Out(Nothing, st)
  }

  /**
   * `pa_try_parse_body_return`: the keyword `return` and an expression. The
   * source's empty block for a missing value is never reached, since an
   * expression is never nothing.
   */
  function ReturnAt(ts: seq<Token>, st: St, reading: Reading): (r: Out)
    requires st.pos <= |ts|
    ensures Tries(ts, st, r)
    ensures !r.res.OutOfTokens?
    ensures st.pos < |ts| ==> (r.res.Nothing? <==> ts[st.pos].kind != TtKwReturn)
    ensures r.res.Parsed? ==> r.res.node.Return?
  {
    if st.pos >= |ts| then Out(Crash(OutOfBounds), st)
    else if ts[st.pos].kind != TtKwReturn then Out(Nothing, st)
    else
      var e := ExpressionAt(ts, Next(st), reading);
      if !e.res.Parsed? then e
      else Out(Parsed(Return(e.res.node)), e.st)
  }

  /**
   * `pa_try_parse_if_chain`: `if ( condition ) body`, then after `else`
   * either another chain or a last body; without `else`, an empty block.
   */
  function IfChainAt(ts: seq<Token>, st: St, reading: Reading): (r: Out)
    requires st.pos <= |ts|
    ensures Tries(ts, st, r)
    ensures !r.res.OutOfTokens?
    ensures st.pos < |ts| ==> (r.res.Nothing? <==> ts[st.pos].kind != TtKwIf)
    ensures r.res.Parsed? ==> r.res.node.IfChain? && r.res.node.ifTrue.Block? &&
                              (r.res.node.next.Block? || r.res.node.next.IfChain?)
    decreases |ts| - st.pos, 19
  {
    if st.pos >= |ts| then Out(Crash(OutOfBounds), st)
    else if ts[st.pos].kind != TtKwIf then Out(Nothing, st)
    else
      var open := ConsumeAt(ts, Next(st), TtOpenParen);
      if open.res.BuildError? then open
      else if !open.res.Nothing? then Out(Crash(AssertFailed("par_is_nothing(result)")), open.st)
      else
        var cond := ExpressionAt(ts, open.st, reading);
        if !cond.res.Parsed? then cond
        else IfBodyAt(ts, cond.st, cond.res.node, reading)
  }

  /**
   * The middle of `pa_try_parse_if_chain`, after the condition: `)` and the
   * body taken when it holds, then the rest of the chain.
   */
  function IfBodyAt(ts: seq<Token>, st: St, cond: Ast, reading: Reading): (r: Out)
    requires st.pos <= |ts|
    ensures Follows(ts, st, r)
    ensures r.res.Parsed? || r.res.BuildError? || r.res.Crash?
    ensures r.res.Parsed? ==> r.res.node.IfChain? && r.res.node.cond == cond && r.res.node.ifTrue.Block? &&
                              (r.res.node.next.Block? || r.res.node.next.IfChain?)
    decreases |ts| - st.pos, 19
  {
    var close := ConsumeAt(ts, st, TtCloseParen);
    if close.res.BuildError? then close
    else if !close.res.Nothing? then Out(Crash(AssertFailed("par_is_nothing(result)")), close.st)
    else
      var body := BodyAt(ts, close.st, reading);
      if !body.res.Parsed? then body
      else ElseAt(ts, body.st, cond, body.res.node, reading)
  }

  /**
   * The end of `pa_try_parse_if_chain`, after the first body: `else` and
   * another chain or a last body, or no `else` and an empty block.
   */
  function ElseAt(ts: seq<Token>, st: St, cond: Ast, ifTrue: Ast, reading: Reading): (r: Out)
    requires st.pos <= |ts|
    ensures Keeps(ts, st, r)
    ensures r.res.Parsed? || r.res.BuildError? || r.res.Crash?
    ensures r.res.Parsed? ==> r.res.node.IfChain? && r.res.node.cond == cond && r.res.node.ifTrue == ifTrue &&
                              (r.res.node.next.Block? || r.res.node.next.IfChain?)
    ensures st.pos < |ts| && ts[st.pos].kind != TtKwElse ==> r == Out(Parsed(IfChain(cond, ifTrue, Block([]))), st)
    decreases |ts| - st.pos, 18
  {
    if st.pos >= |ts| then Out(Crash(OutOfBounds), st)
    else if ts[st.pos].kind == TtKwElse then
      var chain := IfChainAt(ts, Next(st), reading);
      var next := if chain.res.Nothing? then BodyAt(ts, Next(st), reading) else chain;
      if !next.res.Parsed? then next
      else Out(Parsed(IfChain(cond, ifTrue, next.res.node)), next.st)
    else Out(Parsed(IfChain(cond, ifTrue, Block([]))), st)
  }

  lemma ElseStep(ts: seq<Token>, st: St, cond: Ast, ifTrue: Ast, reading: Reading, next: Out)
    requires st.pos < |ts| && ts[st.pos].kind == TtKwElse
    requires next == var chain := IfChainAt(ts, Next(st), reading);
                     if chain.res.Nothing? then BodyAt(ts, Next(st), reading) else chain
    ensures ElseAt(ts, st, cond, ifTrue, reading) ==
      if next.res.Parsed? then Out(Parsed(IfChain(cond, ifTrue, next.res.node)), next.st) else next
  {
  }

  lemma IfBodyStep(ts: seq<Token>, st: St, cond: Ast, reading: Reading, body: Out)
    requires st.code == ROk && st.pos < |ts| && ts[st.pos].kind == TtCloseParen
    requires body == BodyAt(ts, Next(st), reading)
    ensures IfBodyAt(ts, st, cond, reading) ==
      if body.res.Parsed? then ElseAt(ts, body.st, cond, body.res.node, reading) else body
  {
  }

  /** `pa_try_parse_for_stmt`: `for ( declaration in expression ) body`. */
  function ForAt(ts: seq<Token>, st: St, reading: Reading): (r: Out)
    requires st.pos <= |ts|
    ensures Tries(ts, st, r)
    ensures !r.res.OutOfTokens?
    ensures st.pos < |ts| ==> (r.res.Nothing? <==> ts[st.pos].kind != TtKwFor)
    ensures r.res.Parsed? ==> r.res.node.Foreach? && r.res.node.decl.VarDecl? && r.res.node.body.Block?
    decreases |ts| - st.pos, 19
  {
    if st.pos >= |ts| then Out(Crash(OutOfBounds), st)
    else if ts[st.pos].kind != TtKwFor then Out(Nothing, st)
    else
      var open := ConsumeAt(ts, Next(st), TtOpenParen);
      if open.res.BuildError? then open
      else if !open.res.Nothing? then Out(Crash(AssertFailed("par_is_nothing(result)")), open.st)
      else
        var decl := VardeclAt(ts, open.st, reading);
        if !decl.res.Parsed? then decl
        else
          ForTailAt(ts, decl.st, decl.res.node, reading)
  }

  /**
   * The end of `pa_try_parse_for_stmt`, after the declaration: `in`, the
   * collection, `)` and the body that loops over `decl`.
   */
  function ForTailAt(ts: seq<Token>, st: St, decl: Ast, reading: Reading): (r: Out)
    requires st.pos <= |ts|
    ensures Follows(ts, st, r)
    ensures r.res.Parsed? || r.res.BuildError? || r.res.Crash?
    ensures r.res.Parsed? ==> r.res.node.Foreach? && r.res.node.decl == decl && r.res.node.body.Block?
    decreases |ts| - st.pos, 18
  {
    var kwIn := ConsumeAt(ts, st, TtKwIn);
    if kwIn.res.BuildError? then kwIn
    else if !kwIn.res.Nothing? then Out(Crash(AssertFailed("par_is_nothing(result)")), kwIn.st)
    else
      var coll := ExpressionAt(ts, kwIn.st, reading);
      if !coll.res.Parsed? then coll
      else ForBodyAt(ts, coll.st, decl, coll.res.node, reading)
  }

  /** The last part of `pa_try_parse_for_stmt`: `)` and the body that loops over `decl` in `collection`. */
  function ForBodyAt(ts: seq<Token>, st: St, decl: Ast, collection: Ast, reading: Reading): (r: Out)
    requires st.pos <= |ts|
    ensures Follows(ts, st, r)
    ensures r.res.Parsed? || r.res.BuildError? || r.res.Crash?
    ensures r.res.Parsed? ==> r.res.node.Foreach? && r.res.node.decl == decl && r.res.node.body.Block?
    decreases |ts| - st.pos, 18
  {
    var close := ConsumeAt(ts, st, TtCloseParen);
    if close.res.BuildError? then close
    else if !close.res.Nothing? then Out(Crash(AssertFailed("par_is_nothing(result)")), close.st)
    else
      var body := BodyAt(ts, close.st, reading);
      if !body.res.Parsed? then body
      else Out(Parsed(Foreach(decl, collection, body.res.node)), body.st)
  }

  lemma ForTailStep(ts: seq<Token>, st: St, decl: Ast, reading: Reading, collection: Out)
    requires st.code == ROk && st.pos < |ts| && ts[st.pos].kind == TtKwIn
    requires collection == ExpressionAt(ts, Next(st), reading)
    ensures ForTailAt(ts, st, decl, reading) ==
      if collection.res.Parsed? then ForBodyAt(ts, collection.st, decl, collection.res.node, reading) else collection
  {
  }

  lemma ForBodyStep(ts: seq<Token>, st: St, decl: Ast, collection: Ast, reading: Reading, body: Out)
    requires st.code == ROk && st.pos < |ts| && ts[st.pos].kind == TtCloseParen
    requires body == BodyAt(ts, Next(st), reading)
    ensures ForBodyAt(ts, st, decl, collection, reading) ==
      if body.res.Parsed? then Out(Parsed(Foreach(decl, collection, body.res.node)), body.st) else body
  {
  }

  /**
   * `pa_parse_statement`: assignment, if chain, for loop, call, return or
   * break, the first that is not nothing; `R_ERR_STATEMENT` at the current
   * token when none starts here; then one optional `;` is stepped over.
   */
  function StatementAt(ts: seq<Token>, st: St, reading: Reading): (r: Out)
    requires st.pos <= |ts|
    ensures Follows(ts, st, r)
    ensures r.res.Parsed? || r.res.BuildError? || r.res.Crash?
    decreases |ts| - st.pos, 20
  {
    var a := AssignmentAt(ts, st, reading);
    var s :=
      if !a.res.Nothing? then a else
      var i := IfChainAt(ts, st, reading);
      if !i.res.Nothing? then i else
      var f := ForAt(ts, st, reading);
      if !f.res.Nothing? then f else
      var c := FuncCallAt(ts, st, reading);
      if !c.res.Nothing? then c else
      var t := ReturnAt(ts, st, reading);
      if !t.res.Nothing? then t else
      BreakAt(ts, st);
    if Stops(s) then s
    else if !s.res.Parsed? then
      if s.st.code != ROk then Out(BuildError, s.st)
      else if s.st.pos >= |ts| then Out(Crash(OutOfBounds), s.st)
      else Out(BuildError, Raise(s.st, RErrStatement, ts[s.st.pos].ref))
    else if s.st.pos >= |ts| then Out(Crash(OutOfBounds), s.st)
    else if ts[s.st.pos].kind == TtStatementEnd then Out(s.res, Next(s.st))
    else s
  }

  /**
   * The `do … while( pa_is_at_end(parser) == false )` loop of
   * `pa_parse_body`: statements after `items` up to a `}` or the end, in a
   * block; the first statement that is not a node ends the parse with it.
   */
  function StatementsAt(ts: seq<Token>, st: St, items: seq<Ast>, reading: Reading): (r: Out)
    requires st.pos <= |ts|
    ensures Keeps(ts, st, r)
    ensures r.res.Parsed? || r.res.BuildError? || r.res.Crash?
    ensures r.res.Parsed? ==> r.res.node.Block?
    ensures st.pos == |ts| ==> r.res.Crash?
    decreases |ts| - st.pos, 21
  {
    if st.pos >= |ts| then Out(Crash(OutOfBounds), st)
    else if ts[st.pos].kind == TtCloseCurly then Out(Parsed(Block(items)), st)
    else
      var s := StatementAt(ts, st, reading);
      if !s.res.Parsed? then s
      else if s.st.pos >= |ts| then Out(Parsed(Block(items + [s.res.node])), s.st)
      else StatementsAt(ts, s.st, items + [s.res.node], reading)
  }

  /** `pa_parse_body`: statements between `{` and `}`, as a block. */
  function BodyAt(ts: seq<Token>, st: St, reading: Reading): (r: Out)
    requires st.pos <= |ts|
    ensures Follows(ts, st, r)
    ensures r.res.Parsed? || r.res.BuildError? || r.res.Crash?
    ensures r.res.Parsed? ==> r.res.node.Block?
    decreases |ts| - st.pos, 22
  {
    var open := ConsumeAt(ts, st, TtOpenCurly);
    if open.res.BuildError? then open
    else
      var s := StatementsAt(ts, open.st, [], reading);
      if !s.res.Parsed? then s
      else
        var close := ConsumeAt(ts, s.st, TtCloseCurly);
        if close.res.BuildError? then close else Out(s.res, close.st)
  }

  // ---------------------------------------------------------- declarations

  /** `pa_parse_funsign`: the return type name and the function name, both symbols. */
  function FunsignAt(ts: seq<Token>, st: St): (r: Out)
    requires st.pos <= |ts|
    ensures Follows(ts, st, r)
    ensures r.res.Parsed? || r.res.BuildError? || r.res.Crash?
    ensures r.res.Parsed? ==> st.pos + 2 <= |ts| && r == Out(Parsed(FunSign(ts[st.pos + 1].ref, ValueTypeOf(ts[st.pos].ref))), St(st.pos + 2, st.code, st.loc))
  {
    if st.pos >= |ts| then Out(Crash(OutOfBounds), st)
    else
      var rettype := ts[st.pos];
      var c := ConsumeAt(ts, st, TtSymbol);
      if c.res.BuildError? then c
      else if c.st.pos >= |ts| then Out(Crash(OutOfBounds), c.st)
      else
        var funname := ts[c.st.pos];
        var c2 := ConsumeAt(ts, c.st, TtSymbol);
        if c2.res.BuildError? then c2
        else Out(Parsed(FunSign(funname.ref, ValueTypeOf(rettype.ref))), c2.st)
  }

  /**
   * The `do … while( pa_advance_if(parser, TT_SEPARATOR) )` loop of
   * `pa_try_parse_fundecl`: parameter declarations after `items` separated
   * by commas, stopping before a `)`.
   */
  function ParametersAt(ts: seq<Token>, st: St, items: seq<Ast>, reading: Reading): (r: Out)
    requires st.pos <= |ts|
    ensures Keeps(ts, st, r)
    ensures r.res.Parsed? || r.res.BuildError? || r.res.Crash?
    ensures r.res.Parsed? ==> r.res.node.Block?
    decreases |ts| - st.pos
  {
    if st.pos >= |ts| then Out(Crash(OutOfBounds), st)
    else if ts[st.pos].kind == TtCloseParen then Out(Parsed(Block(items)), st)
    else
      var d := VardeclAt(ts, st, reading);
      if !d.res.Parsed? then d
      else
        var more := items + [d.res.node];
        if d.st.pos >= |ts| then Out(Crash(OutOfBounds), d.st)
        else if ts[d.st.pos].kind == TtSeparator then ParametersAt(ts, Next(d.st), more, reading)
        else Out(Parsed(Block(more)), d.st)
  }

  /**
   * `pa_try_parse_fundecl`: when two symbols and `(` come next, a signature,
   * parameters between parentheses and a body.
   */
  function FundeclAt(ts: seq<Token>, st: St, reading: Reading): (r: Out)
    requires st.pos <= |ts|
    ensures Tries(ts, st, r)
    ensures r.res.Parsed? ==> r.res.node.FunDecl?
  {
    match Peek(ts, st.pos, 0, reading)
    case Err(a) => Out(Crash(a), st)
    case Ok(t0) =>
      if t0.kind != TtSymbol then Out(Nothing, st) else
      match Peek(ts, st.pos, 1, reading)
      case Err(a) => Out(Crash(a), st)
      case Ok(t1) =>
        if t1.kind != TtSymbol then Out(Nothing, st) else
        match Peek(ts, st.pos, 2, reading)
        case Err(a) => Out(Crash(a), st)
        case Ok(t2) =>
          if t2.kind != TtOpenParen then Out(Nothing, st)
          else
            var sign := FunsignAt(ts, st);
            if !sign.res.Parsed? then sign
            else
              var open := ConsumeAt(ts, sign.st, TtOpenParen);
              if open.res.BuildError? then open
              else
                var params := ParametersAt(ts, open.st, [], reading);
                if !params.res.Parsed? then params
                else
                  var close := ConsumeAt(ts, params.st, TtCloseParen);
                  if close.res.BuildError? then close
                  else
                    var body := BodyAt(ts, close.st, reading);
                    if !body.res.Parsed? then body
                    else Out(Parsed(FunDecl(sign.res.node, params.res.node, body.res.node)), body.st)
  }

  /** Every declaration of a program is a function declaration. */
  predicate AllFunDecls(items: seq<Ast>) {
    forall i :: 0 <= i < |items| ==> items[i].FunDecl?
  }

  /** The declarations loop of `pa_parse_program`: what it collected and the result that ended it. */
  datatype Decls = Decls(items: seq<Ast>, last: Res, st: St)

  /**
   * The `do … while( pa_is_at_end(parser) == false )` loop of
   * `pa_parse_program`: function declarations after `items` until one is
   * not a node or the tokens run out.
   */
  function DeclarationsAt(ts: seq<Token>, st: St, items: seq<Ast>, reading: Reading): (d: Decls)
    requires st.pos <= |ts|
    requires AllFunDecls(items)
    ensures st.pos <= d.st.pos <= |ts|
    ensures st.code != ROk ==> d.st.code == st.code && d.st.loc == st.loc
    ensures AllFunDecls(d.items)
    ensures d.last.Parsed? ==> d.st.pos == |ts|
    decreases |ts| - st.pos
  {
    var f := FundeclAt(ts, st, reading);
    if !f.res.Parsed? then Decls(items, f.res, f.st)
    else if f.st.pos >= |ts| then Decls(items + [f.res.node], f.res, f.st)
    else DeclarationsAt(ts, f.st, items + [f.res.node], reading)
  }

  /**
   * `pa_parse_program`: `TT_INITIAL`, function declarations, `TT_FINAL`; an
   * error of the declarations wins over one of the final token.
   */
  function ProgramAt(ts: seq<Token>, st: St, reading: Reading): (r: Out)
    requires st.pos <= |ts|
    ensures Keeps(ts, st, r)
    ensures r.res.Parsed? ==> r.res.node.Block? && AllFunDecls(r.res.node.items)
    ensures r.res.Parsed? || r.res.BuildError? || r.res.Crash?
  {
    var initial := ConsumeAt(ts, st, TtInitial);
    if initial.res.BuildError? then initial
    else
      var d := DeclarationsAt(ts, initial.st, [], reading);
      if d.last.Crash? then Out(d.last, d.st)
      else
        var final := ConsumeAt(ts, d.st, TtFinal);
        if d.last.BuildError? then Out(d.last, final.st)
        else if final.res.BuildError? then final
        else Out(Parsed(Block(d.items)), final.st)
  }

  // ------------------------------------------------------------ properties

  /**
   * As written, an expression that starts on the last token and is not a
   * group aborts: the call look-ahead of `pa_try_parse_func_call` reads the
   * slot past the list.
   */
  lemma ExpressionAtLastAsWritten(ts: seq<Token>, st: St)
    requires 0 < |ts| && st.pos == |ts| - 1 && ts[st.pos].kind != TtOpenParen
    ensures ExpressionAt(ts, st, AsWritten) == Out(Crash(OutOfBounds), st)
  {
    assert GroupAt(ts, st, AsWritten) == Out(Nothing, st);
    assert FuncCallAt(ts, st, AsWritten) == Out(Crash(OutOfBounds), st);
  }

  /**
   * Corrected, the same expression on the closing `TT_FINAL` token records
   * `R_ERR_EXPR` at that token.
   */
  lemma ExpressionAtLastCorrected(ts: seq<Token>, st: St)
    requires 0 < |ts| && st.pos == |ts| - 1 && ts[st.pos].kind == TtFinal && st.code == ROk
    ensures ExpressionAt(ts, st, Corrected) == Out(BuildError, St(st.pos, RErrExpr, ts[st.pos].ref))
  {
    assert PrimaryAt(ts, st, Corrected) == Out(Nothing, st);
  }

  /**
   * As written, any statement that starts on the last token aborts: the
   * assignment look-ahead reads the slot past the list.
   */
  lemma StatementAtLastAsWritten(ts: seq<Token>, st: St)
    requires 0 < |ts| && st.pos == |ts| - 1
    ensures StatementAt(ts, st, AsWritten) == Out(Crash(OutOfBounds), st)
  {
    assert AssignmentAt(ts, st, AsWritten) == Out(Crash(OutOfBounds), st);
  }

  /**
   * Corrected, a statement expected on the closing `TT_FINAL` token (a body
   * whose `}` is missing) records `R_ERR_STATEMENT` at that token.
   */
  lemma StatementAtLastCorrected(ts: seq<Token>, st: St)
    requires 0 < |ts| && st.pos == |ts| - 1 && ts[st.pos].kind == TtFinal && st.code == ROk
    ensures StatementAt(ts, st, Corrected) == Out(BuildError, St(st.pos, RErrStatement, ts[st.pos].ref))
  {
    assert AssignmentAt(ts, st, Corrected) == Out(Nothing, st);
    assert IfChainAt(ts, st, Corrected) == Out(Nothing, st);
    assert ForAt(ts, st, Corrected) == Out(Nothing, st);
    assert FuncCallAt(ts, st, Corrected) == Out(Nothing, st);
    assert ReturnAt(ts, st, Corrected) == Out(Nothing, st);
  }

  /**
   * A body whose `}` is missing, `{` then `TT_FINAL`: as written the parse
   * aborts on the look-ahead past the list; corrected it records
   * `R_ERR_STATEMENT` at the final token.
   */
  lemma UnclosedBody(ts: seq<Token>, st: St)
    requires st.pos + 2 == |ts| && st.code == ROk
    requires ts[st.pos].kind == TtOpenCurly && ts[st.pos + 1].kind == TtFinal
    ensures BodyAt(ts, st, AsWritten) == Out(Crash(OutOfBounds), Next(st))
    ensures BodyAt(ts, st, Corrected) == Out(BuildError, St(st.pos + 1, RErrStatement, ts[st.pos + 1].ref))
  {
    StatementAtLastAsWritten(ts, Next(st));
    StatementAtLastCorrected(ts, Next(st));
  }

  /** A symbol not followed by `(` is a variable: the call is tried first and declines. */
  lemma PrimaryOfSymbol(ts: seq<Token>, st: St, reading: Reading)
    requires st.pos + 1 < |ts| && st.code == ROk
    requires ts[st.pos].kind == TtSymbol && ts[st.pos + 1].kind != TtOpenParen
    ensures PrimaryAt(ts, st, reading) == Out(Parsed(VarRef(ts[st.pos].ref)), Next(st))
  {
    assert GroupAt(ts, st, reading) == Out(Nothing, st);
    assert FuncCallAt(ts, st, reading) == Out(Nothing, st);
    assert ValueAt(ts, st) == Out(Nothing, st);
  }

  /** A symbol followed by `(` is always read as a call, never as a variable. */
  lemma PrimaryOfCall(ts: seq<Token>, st: St, reading: Reading)
    requires st.pos + 1 < |ts| && st.code == ROk
    requires ts[st.pos].kind == TtSymbol && ts[st.pos + 1].kind == TtOpenParen
    ensures PrimaryAt(ts, st, reading) == FuncCallAt(ts, st, reading)
    ensures !PrimaryAt(ts, st, reading).res.Nothing?
  {
    assert GroupAt(ts, st, reading) == Out(Nothing, st);
  }

  /** A token that starts no primary expression records `R_ERR_EXPR` at itself. */
  lemma ExpressionError(ts: seq<Token>, st: St, reading: Reading)
    requires st.pos + 1 < |ts| && st.code == ROk
    requires ts[st.pos].kind !in {TtOpenParen, TtSymbol, TtBoolean, TtNumber, TtString,
                                  TtOpenSbracket, TtBinopMinus, TtUnopNot}
    ensures ExpressionAt(ts, st, reading) == Out(BuildError, St(st.pos, RErrExpr, ts[st.pos].ref))
  {
    assert PrimaryAt(ts, st, reading) == Out(Nothing, st);
  }

  /**
   * Operators have no precedence and nest to the right: after a primary
   * expression and an operator, the operator takes the primary and the whole
   * expression that follows.
   */
  lemma BinaryNestsRight(ts: seq<Token>, st: St, lhs: Ast, s1: St, reading: Reading)
    requires st.pos <= |ts|
    requires PrimaryAt(ts, st, reading) == Out(Parsed(lhs), s1)
    requires s1.pos < |ts| && BinopOf(ts[s1.pos].kind).Some?
    ensures var rhs := ExpressionAt(ts, Next(s1), reading);
            ExpressionAt(ts, st, reading) ==
              if rhs.res.Parsed? then Out(Parsed(Binop(BinopOf(ts[s1.pos].kind).value, lhs, rhs.res.node)), rhs.st)
              else rhs
  {
    OperatorDispatch(ts, s1, lhs, reading);
  }

  /** A primary expression with no operator after it is the whole expression. */
  lemma ExpressionEndsAtNonOperator(ts: seq<Token>, st: St, lhs: Ast, s1: St, reading: Reading)
    requires st.pos <= |ts|
    requires PrimaryAt(ts, st, reading) == Out(Parsed(lhs), s1)
    requires s1.pos < |ts| && BinopOf(ts[s1.pos].kind).None?
    ensures ExpressionAt(ts, st, reading) == Out(Parsed(lhs), s1)
  {
    OperatorDispatch(ts, s1, lhs, reading);
  }

  /** The reference of the `i`-th character of a one-line example text. */
  function CharRef(text: seq<char>, i: nat): SrcRef {
    SrcRef(Some(Source(0, text)), i, i + 1)
  }

  /** A symbol, a binary operator, a symbol, an operator, a symbol, and `TT_FINAL`. */
  function ChainTokens(text: seq<char>, op1: TokenType, op2: TokenType): seq<Token> {
    [Token(TtSymbol, CharRef(text, 0)), Token(op1, CharRef(text, 1)), Token(TtSymbol, CharRef(text, 2)),
     Token(op2, CharRef(text, 3)), Token(TtSymbol, CharRef(text, 4)), Token(TtFinal, CharRef(text, 5))]
  }

  /** A variable and an operator: the operator applied to the variable and the expression after it. */
  lemma SymbolThenOperator(ts: seq<Token>, st: St, reading: Reading)
    requires st.pos + 1 < |ts| && st.code == ROk
    requires ts[st.pos].kind == TtSymbol && BinopOf(ts[st.pos + 1].kind).Some?
    ensures var rhs := ExpressionAt(ts, St(st.pos + 2, ROk, st.loc), reading);
            ExpressionAt(ts, st, reading) ==
              if rhs.res.Parsed? then Out(Parsed(Binop(BinopOf(ts[st.pos + 1].kind).value, VarRef(ts[st.pos].ref), rhs.res.node)), rhs.st)
              else rhs
  {
    PrimaryOfSymbol(ts, st, reading);
    BinaryNestsRight(ts, st, VarRef(ts[st.pos].ref), Next(st), reading);
  }

  /** A variable followed by `TT_FINAL` is the whole expression. */
  lemma SymbolThenFinal(ts: seq<Token>, st: St, reading: Reading)
    requires st.pos + 1 < |ts| && st.code == ROk
    requires ts[st.pos].kind == TtSymbol && ts[st.pos + 1].kind == TtFinal
    ensures ExpressionAt(ts, st, reading) == Out(Parsed(VarRef(ts[st.pos].ref)), Next(st))
  {
    PrimaryOfSymbol(ts, st, reading);
    assert BinopOf(TtFinal) == None;
    ExpressionEndsAtNonOperator(ts, st, VarRef(ts[st.pos].ref), Next(st), reading);
  }

  /** Three symbols joined by two operators nest to the right, whatever the operators. */
  lemma ChainNestsRight(ts: seq<Token>, reading: Reading)
    requires |ts| == 6 && ts[0].kind == TtSymbol && ts[2].kind == TtSymbol && ts[4].kind == TtSymbol
    requires BinopOf(ts[1].kind).Some? && BinopOf(ts[3].kind).Some?
    requires ts[5].kind == TtFinal
    ensures ExpressionAt(ts, St(0, ROk, NoRef), reading) ==
              Out(Parsed(Binop(BinopOf(ts[1].kind).value, VarRef(ts[0].ref),
                               Binop(BinopOf(ts[3].kind).value, VarRef(ts[2].ref), VarRef(ts[4].ref)))),
                  St(5, ROk, NoRef))
  {
    SymbolThenFinal(ts, St(4, ROk, NoRef), reading);
    SymbolThenOperator(ts, St(2, ROk, NoRef), reading);
    SymbolThenOperator(ts, St(0, ROk, NoRef), reading);
  }

  /** `a*b+c` is read as `a*(b+c)`: multiplication does not bind tighter. */
  lemma MulPlusNestsRight()
    ensures var t := "a*b+c";
            ExpressionAt(ChainTokens(t, TtBinopMul, TtBinopPlus), St(0, ROk, NoRef), AsWritten).res ==
              Parsed(Binop(CoAst.Mul, VarRef(CharRef(t, 0)), Binop(CoAst.Add, VarRef(CharRef(t, 2)), VarRef(CharRef(t, 4)))))
  {
    ChainNestsRight(ChainTokens("a*b+c", TtBinopMul, TtBinopPlus), AsWritten);
  }

  /** `a-b-c` is read as `a-(b-c)`: subtraction does not associate to the left. */
  lemma MinusMinusNestsRight()
    ensures var t := "a-b-c";
            ExpressionAt(ChainTokens(t, TtBinopMinus, TtBinopMinus), St(0, ROk, NoRef), AsWritten).res ==
              Parsed(Binop(CoAst.Sub, VarRef(CharRef(t, 0)), Binop(CoAst.Sub, VarRef(CharRef(t, 2)), VarRef(CharRef(t, 4)))))
  {
    ChainNestsRight(ChainTokens("a-b-c", TtBinopMinus, TtBinopMinus), AsWritten);
  }

  /** The program of no declarations, `TT_INITIAL TT_FINAL`, is the empty block. */
  lemma EmptyProgram(reading: Reading)
    ensures ProgramAt([Token(TtInitial, NoRef), Token(TtFinal, NoRef)], St(0, ROk, NoRef), reading) ==
              Out(Parsed(Block([])), St(2, ROk, NoRef))
  {
    var ts := [Token(TtInitial, NoRef), Token(TtFinal, NoRef)];
    assert DeclarationsAt(ts, St(1, ROk, NoRef), [], reading) == Decls([], Nothing, St(1, ROk, NoRef));
  }

  // ---------------------------------------------------------------- parser

  /**
   * `parser_t`: the token list, the cursor into it and the result record
   * (its code and location; the message text is not modelled).
   */
  class Parser {
    const tokens: seq<Token>
    const reading: Reading
    var cursor: nat
    var code: CresCode
    var loc: SrcRef

    function State(): St
      reads this
    {
      St(cursor, code, loc)
    }

    ghost predicate Valid()
      reads this
    {
      cursor <= |tokens|
    }

    /** The parser `pa_init` leaves: the cursor on the first token, the record as the tokenizer left it. */
    constructor (tokens: seq<Token>, code: CresCode, loc: SrcRef, reading: Reading)
      ensures Valid() && this.tokens == tokens && this.reading == reading
      ensures State() == St(0, code, loc)
    {
      this.tokens := tokens;
      this.reading := reading;
      cursor := 0;
      this.code := code;
      this.loc := loc;
    }

    /** `pa_is_at_end`. */
    method IsAtEnd() returns (atEnd: bool)
      ensures atEnd <==> cursor >= |tokens|
    {
      atEnd := cursor >= |tokens|;
    }

    /** `pa_advance`: one token on, unless at the end. */
    method Advance() returns (moved: bool)
      modifies this
      ensures moved <==> old(cursor) < |tokens|
      ensures State() == if moved then Next(old(State())) else old(State())
    {
      var atEnd := IsAtEnd();
      if atEnd {
        return false;
      }
      cursor := cursor + 1;
      return true;
    }

    /** `pa_current_token`; past the last token, the read aborts. */
    method CurrentToken() returns (r: Result<Token, Abort>)
      ensures cursor < |tokens| ==> r == Ok(tokens[cursor])
      ensures cursor >= |tokens| ==> r == Err(OutOfBounds)
    {
      if cursor >= |tokens| {
        return Err(OutOfBounds);
      }
      return Ok(tokens[cursor]);
    }

    /** `pa_advance_if`: one token on when the current one has type `tt`. */
    method AdvanceIf(tt: TokenType) returns (r: Result<bool, Abort>)
      modifies this
      ensures old(cursor) >= |tokens| ==> r == Err(OutOfBounds) && State() == old(State())
      ensures old(cursor) < |tokens| ==> r == Ok(tokens[old(cursor)].kind == tt) &&
                                         State() == if r.value then Next(old(State())) else old(State())
    {
      var current := CurrentToken();
      if current.Err? {
        return Err(current.error);
      }
      if current.value.kind == tt {
        var moved := Advance();
        return Ok(moved);
      }
      return Ok(false);
    }

    /** `pa_advance_if_not`: one token on when the current one does not have type `tt`. */
    method AdvanceIfNot(tt: TokenType) returns (r: Result<bool, Abort>)
      modifies this
      ensures old(cursor) >= |tokens| ==> r == Err(OutOfBounds) && State() == old(State())
      ensures old(cursor) < |tokens| ==> r == Ok(tokens[old(cursor)].kind != tt) &&
                                         State() == if r.value then Next(old(State())) else old(State())
    {
      var current := CurrentToken();
      if current.Err? {
        return Err(current.error);
      }
      if current.value.kind != tt {
        var moved := Advance();
        return Ok(moved);
      }
      return Ok(false);
    }

    /** `pa_peek_token`. */
    method PeekToken(lookahead: nat) returns (r: Result<Token, Abort>)
      requires Valid()
      ensures r == Peek(tokens, cursor, lookahead, reading)
    {
      var diff := |tokens| - cursor;
      var la := lookahead;
      match reading {
        case AsWritten =>
          if diff < la {
            la := diff;
          }
        case Corrected =>
          if diff <= la {
            la := diff - 1;
          }
      }
      var i := cursor + la;
      if 0 <= i < |tokens| {
        return Ok(tokens[i]);
      }
      return Err(OutOfBounds);
    }

    /** `cres_set_error`, and `cres_set_src_location` when the error was taken. */
    method SetErrorAt(c: CresCode, ref: SrcRef)
      modifies this
      ensures State() == Raise(old(State()), c, ref)
    {
      if code == ROk {
        code := c;
        loc := ref;
      }
    }

    /** `pa_set_error_unexpected_token_type`: `R_ERR_TOKEN` at the token found. */
    method SetErrorUnexpectedTokenType(expected: TokenType, actual: Token)
      modifies this
      ensures State() == Raise(old(State()), RErrToken, actual.ref)
    {
      SetErrorAt(RErrToken, actual.ref);
    }

    /** `pa_set_error_invalid_token_format`: `R_ERR_TOKEN` at the token. */
    method SetErrorInvalidTokenFormat(token: Token)
      modifies this
      ensures State() == Raise(old(State()), RErrToken, token.ref)
    {
      SetErrorAt(RErrToken, token.ref);
    }

    /** `pa_consume`. */
    method Consume(expected: TokenType) returns (res: Res)
      requires Valid()
      modifies this
      ensures Out(res, State()) == ConsumeAt(tokens, old(State()), expected)
    {
      if code != ROk {
        return BuildError;
      }
      var atEnd := IsAtEnd();
      if atEnd {
        return OutOfTokens;
      }
      var actual := tokens[cursor];
      if expected != actual.kind {
        SetErrorUnexpectedTokenType(expected, actual);
        return BuildError;
      }
      // the advance succeeds: the cursor is before the end
      var moved := Advance();
      return Nothing;
    }

    /** `pa_parse_number`. */
    method ParseNumber() returns (res: Res)
      requires Valid()
      modifies this
      ensures Out(res, State()) == NumberAt(tokens, old(State()))
    {
      var token := CurrentToken();
      if token.Err? {
        return Crash(token.error);
      }
      res := Consume(TtNumber);
      if !res.Nothing? {
        return;
      }
      return Parsed(NumberLit(token.value.ref));
    }

    /** `pa_parse_boolean`. */
    method ParseBoolean() returns (res: Res)
      requires Valid()
      modifies this
      ensures Out(res, State()) == BooleanAt(tokens, old(State()))
    {
      var token := CurrentToken();
      if token.Err? {
        return Crash(token.error);
      }
      res := Consume(TtBoolean);
      if !res.Nothing? {
        return;
      }
      var value := CoUtils.AsBool(token.value.ref);
      if value.Some? {
        return Parsed(BoolLit(value.value));
      }
      SetErrorInvalidTokenFormat(token.value);
      return BuildError;
    }

    /** `pa_parse_string`. */
    method ParseString() returns (res: Res)
      requires Valid()
      modifies this
      ensures Out(res, State()) == StringAt(tokens, old(State()))
    {
      var token := CurrentToken();
      if token.Err? {
        return Crash(token.error);
      }
      res := Consume(TtString);
      if !res.Nothing? {
        return;
      }
      return Parsed(StringLit(token.value.ref));
    }

    /** `pa_try_parse_value`. */
    method TryParseValue() returns (res: Res)
      requires Valid()
      modifies this
      ensures Out(res, State()) == ValueAt(tokens, old(State()))
    {
      var token := CurrentToken();
      if token.Err? {
        return Crash(token.error);
      }
      if token.value.kind == TtBoolean {
        res := ParseBoolean();
      } else if token.value.kind == TtNumber {
        res := ParseNumber();
      } else if token.value.kind == TtString {
        res := ParseString();
      } else {
        res := Nothing;
      }
    }

    /** `pa_try_parse_var_name`. */
    method TryParseVarName() returns (res: Res)
      requires Valid()
      modifies this
      ensures Out(res, State()) == VarNameAt(tokens, old(State()))
    {
      var token := CurrentToken();
      if token.Err? {
        return Crash(token.error);
      }
      var moved := AdvanceIf(TtSymbol);
      if moved == Ok(true) {
        return Parsed(VarRef(token.value.ref));
      }
      return Nothing;
    }

    /** `pa_try_parse_group`. */
    method TryParseGroup() returns (res: Res)
      requires Valid()
      modifies this
      ensures Out(res, State()) == GroupAt(tokens, old(State()), reading)
      decreases |tokens| - cursor, 8
    {
      var token := CurrentToken();
      if token.Err? {
        return Crash(token.error);
      }
      if token.value.kind != TtOpenParen {
        return Nothing;
      }
      // the advance succeeds: the `(` is a token
      var moved := Advance();
      var inner := ParseExpression();
      if inner.BuildError? || inner.Crash? {
        return inner;
      }
      var close := Consume(TtCloseParen);
      if close.BuildError? {
        return close;
      }
      return inner;
    }

    /** `pa_try_parse_func_call`. */
    method TryParseFuncCall() returns (res: Res)
      requires Valid()
      modifies this
      ensures Out(res, State()) == FuncCallAt(tokens, old(State()), reading)
      decreases |tokens| - cursor, 8
    {
      var name := CurrentToken();
      if name.Err? {
        return Crash(name.error);
      }
      var openParen := PeekToken(1);
      if openParen.Err? {
        return Crash(openParen.error);
      }
      if name.value.kind != TtSymbol || openParen.value.kind != TtOpenParen {
        return Nothing;
      }
      ghost var s0 := old(State());
      // both advances succeed: the `(` is a token after the name
      var moved := Advance();
      moved := Advance();
      var args := ParseClosedList(TtCloseParen);
      FuncCallStep(tokens, s0, reading, Out(args, State()));
      res := match args
        case Parsed(block) => Parsed(FunCall(name.value.ref, block))
        case _ => args;
    }

    /**
     * The tail `pa_try_parse_func_call` and `pa_try_parse_array_def` have in
     * common: their `do … while` loop over comma-separated expressions.
     */
    method ParseClosedList(close: TokenType) returns (res: Res)
      requires Valid()
      modifies this
      ensures Out(res, State()) == ClosedListAt(tokens, old(State()), close, reading)
      decreases |tokens| - cursor, 12
    {
      var shut := AdvanceIf(close);
      if shut.Err? {
        return Crash(shut.error);
      }
      if shut.value {
        return Parsed(Block([]));
      }
      ghost var s0 := State();
      var list := ParseExpressionList();
      ClosedListStep(tokens, s0, close, reading, Out(list, State()));
      if !list.Parsed? {
        return list;
      }
      res := Consume(close);
      if res.Nothing? {
        res := list;
      }
    }

    /**
     * The `do … while( pa_advance_if(parser, TT_SEPARATOR) )` loop of
     * `pa_try_parse_func_call` and `pa_try_parse_array_def`.
     */
    method ParseExpressionList() returns (res: Res)
      requires Valid()
      modifies this
      ensures Out(res, State()) == ExpressionListAt(tokens, old(State()), [], reading)
      decreases |tokens| - cursor, 11
    {
      var items: seq<Ast> := [];
      while true
        invariant Valid() && cursor >= old(cursor)
        invariant ExpressionListAt(tokens, State(), items, reading) == ExpressionListAt(tokens, old(State()), [], reading)
        decreases |tokens| - cursor
      {
        ghost var s := State();
        var e := ParseExpression();
        ExpressionListStep(tokens, s, items, reading, Out(e, State()));
        if !e.Parsed? {
          return e;
        }
        items := items + [e.node];
        var sep := AdvanceIf(TtSeparator);
        if sep.Err? {
          return Crash(sep.error);
        }
        if !sep.value {
          return Parsed(Block(items));
        }
      }
    }

    /** `pa_try_parse_array_def`. */
    method TryParseArrayDef() returns (res: Res)
      requires Valid()
      modifies this
      ensures Out(res, State()) == ArrayAt(tokens, old(State()), reading)
      decreases |tokens| - cursor, 8
    {
      var token := CurrentToken();
      if token.Err? {
        return Crash(token.error);
      }
      if token.value.kind != TtOpenSbracket {
        return Nothing;
      }
      ghost var s0 := old(State());
      // the advance succeeds: the `[` is a token
      var moved := Advance();
      var items := ParseClosedList(TtCloseSbracket);
      ArrayStep(tokens, s0, reading, Out(items, State()));
      res := match items
        case Parsed(block) => Parsed(ArrayLit(block.items))
        case _ => items;
    }

    /** `pa_try_parse_unary_operation`. */
    method TryParseUnaryOperation(tt: TokenType, op: CoAst.UnopType) returns (res: Res)
      requires Valid()
      modifies this
      ensures Out(res, State()) == UnaryAt(tokens, old(State()), tt, op, reading)
      decreases |tokens| - cursor, 8
    {
      var token := CurrentToken();
      if token.Err? {
        return Crash(token.error);
      }
      if token.value.kind != tt {
        return Nothing;
      }
      ghost var s0 := old(State());
      var moved := Advance();
      var inner := ParseExpression();
      UnaryStep(tokens, s0, tt, op, reading, Out(inner, State()));
      res := match inner
        case Parsed(e) => Parsed(Unop(op, e))
        case _ => inner;
    }

    /** `pa_try_parse_binary_operation`. */
    method TryParseBinaryOperation(lhs: Ast, tt: TokenType, op: CoAst.BinopType) returns (res: Res)
      requires Valid()
      modifies this
      ensures Out(res, State()) == BinaryAt(tokens, old(State()), lhs, tt, op, reading)
      decreases |tokens| - cursor, 8
    {
      var token := CurrentToken();
      if token.Err? {
        return Crash(token.error);
      }
      if token.value.kind != tt {
        return Nothing;
      }
      ghost var s0 := old(State());
      var moved := Advance();
      var rhs := ParseExpression();
      BinaryStep(tokens, s0, lhs, tt, op, reading, Out(rhs, State()));
      res := match rhs
        case Parsed(r) => Parsed(Binop(op, lhs, r))
        case _ => rhs;
    }

    /** The standard expressions of `pa_parse_expression`, tried in its order. */
    method ParsePrimary() returns (res: Res)
      requires Valid()
      modifies this
      ensures Out(res, State()) == PrimaryAt(tokens, old(State()), reading)
      decreases |tokens| - cursor, 9
    {
      res := TryParseGroup();
      if res.Nothing? {
        res := TryParseFuncCall();
      }
      if res.Nothing? {
        res := TryParseValue();
      }
      if res.Nothing? {
        res := TryParseVarName();
      }
      if res.Nothing? {
        res := TryParseArrayDef();
      }
      if res.Nothing? {
        res := TryParseUnaryOperation(TtBinopMinus, CoAst.Neg);
      }
      if res.Nothing? {
        res := TryParseUnaryOperation(TtUnopNot, CoAst.Not);
      }
    }

    /**
     * The operator half of `pa_parse_expression`: the thirteen
     * `pa_try_parse_binary_operation` calls, made in the source's order
     * from `BinaryOrder` until one is not nothing.
     */
    method ParseBinaryOperators(lhs: Ast) returns (res: Res)
      requires Valid()
      modifies this
      ensures Out(res, State()) == OperatorAt(tokens, old(State()), lhs, 0, reading)
      decreases |tokens| - cursor, 9
    {
      res := Nothing;
      var i := 0;
      while i < |BinaryOrder|
        invariant 0 <= i <= |BinaryOrder| && State() == old(State()) && res == Nothing
        invariant OperatorAt(tokens, State(), lhs, i, reading) == OperatorAt(tokens, old(State()), lhs, 0, reading)
      {
        res := TryParseBinaryOperation(lhs, BinaryOrder[i].0, BinaryOrder[i].1);
        if !res.Nothing? {
          return;
        }
        i := i + 1;
      }
    }

    /** `pa_parse_expression`. */
    method ParseExpression() returns (res: Res)
      requires Valid()
      modifies this
      ensures Out(res, State()) == ExpressionAt(tokens, old(State()), reading)
      decreases |tokens| - cursor, 10
    {
      res := ParsePrimary();
      if res.BuildError? || res.Crash? {
        return;
      }
      if !res.Parsed? {
        if code == ROk {
          var token := CurrentToken();
          if token.Err? {
            return Crash(token.error);
          }
          SetErrorAt(RErrExpr, token.value.ref);
        }
        return BuildError;
      }
      var binary := ParseBinaryOperators(res.node);
      if !binary.Nothing? {
        return binary;
      }
    }

    // -------------------------------------------------------- statements

    /** `pa_parse_vardecl`. */
    method ParseVardecl() returns (res: Res)
      requires Valid()
      modifies this
      ensures Out(res, State()) == VardeclAt(tokens, old(State()), reading)
    {
      var typename := CurrentToken();
      if typename.Err? {
        return Crash(typename.error);
      }
      var varname := PeekToken(1);
      if varname.Err? {
        return Crash(varname.error);
      }
      res := Consume(TtSymbol);
      if res.Nothing? {
        res := Consume(TtSymbol);
      }
      if res.BuildError? {
        return;
      }
      if !res.Nothing? {
        return Crash(AssertFailed("par_is_nothing(result)"));
      }
      return Parsed(VarDecl(varname.value.ref, ValueTypeOf(typename.value.ref)));
    }

    /** `pa_try_parse_assignment`. */
    method TryParseAssignment() returns (res: Res)
      requires Valid()
      modifies this
      ensures Out(res, State()) == AssignmentAt(tokens, old(State()), reading)
    {
      var next := PeekToken(1);
      if next.Err? {
        return Crash(next.error);
      }
      if next.value.kind == TtAssign {
        var name := CurrentToken();
        if name.Err? {
          return Crash(name.error);
        }
        res := Consume(TtSymbol);
        if res.BuildError? {
          return;
        }
        // skip over `=`
        var moved := Advance();
        if !moved {
          return OutOfTokens;
        }
        var rhs := ParseExpression();
        res := match rhs
          case Parsed(e) => Parsed(Assign(VarRef(name.value.ref), e))
          case _ => rhs;
        return;
      }
      var after := PeekToken(2);
      if after.Err? {
        return Crash(after.error);
      }
      if after.value.kind != TtAssign {
        return Nothing;
      }
      var decl := ParseVardecl();
      if !decl.Parsed? {
        return decl;
      }
      res := Consume(TtAssign);
      if res.BuildError? {
        return;
      }
      var rhs := ParseExpression();
      res := match rhs
        case Parsed(e) => Parsed(Assign(decl.node, e))
        case _ => rhs;
    }

    /** `pa_try_parse_if_chain`. */
    method TryParseIfChain() returns (res: Res)
      requires Valid()
      modifies this
      ensures Out(res, State()) == IfChainAt(tokens, old(State()), reading)
      decreases |tokens| - cursor, 19
    {
      var kw := AdvanceIf(TtKwIf);
      if kw.Err? {
        return Crash(kw.error);
      }
      if !kw.value {
        return Nothing;
      }
      res := Consume(TtOpenParen);
      if res.BuildError? {
        return;
      }
      if !res.Nothing? {
        return Crash(AssertFailed("par_is_nothing(result)"));
      }
      var cond := ParseExpression();
      if !cond.Parsed? {
        return cond;
      }
      res := ParseIfBody(cond.node);
    }

    /** The middle of `pa_try_parse_if_chain`: `)` and the body taken when the condition holds. */
    method ParseIfBody(cond: Ast) returns (res: Res)
      requires Valid()
      modifies this
      ensures Out(res, State()) == IfBodyAt(tokens, old(State()), cond, reading)
      decreases |tokens| - cursor, 19
    {
      res := Consume(TtCloseParen);
      if res.BuildError? {
        return;
      }
      if !res.Nothing? {
        return Crash(AssertFailed("par_is_nothing(result)"));
      }
      ghost var s0 := old(State());
      var body := ParseBody();
      IfBodyStep(tokens, s0, cond, reading, Out(body, State()));
      if !body.Parsed? {
        return body;
      }
      res := ParseElse(cond, body.node);
    }

    /** The end of `pa_try_parse_if_chain`: an optional `else` and what follows it. */
    method ParseElse(cond: Ast, ifTrue: Ast) returns (res: Res)
      requires Valid()
      modifies this
      ensures Out(res, State()) == ElseAt(tokens, old(State()), cond, ifTrue, reading)
      decreases |tokens| - cursor, 18
    {
      var kw := AdvanceIf(TtKwElse);
      if kw.Err? {
        return Crash(kw.error);
      }
      if !kw.value {
        // empty / nothing
        return Parsed(IfChain(cond, ifTrue, Block([])));
      }
      ghost var s0 := old(State());
      var next := TryParseIfChain();
      if next.Nothing? {
        next := ParseBody();
      }
      ElseStep(tokens, s0, cond, ifTrue, reading, Out(next, State()));
      res := match next
        case Parsed(n) => Parsed(IfChain(cond, ifTrue, n))
        case _ => next;
    }

    /** `pa_try_parse_for_stmt`. */
    method TryParseForStmt() returns (res: Res)
      requires Valid()
      modifies this
      ensures Out(res, State()) == ForAt(tokens, old(State()), reading)
      decreases |tokens| - cursor, 19
    {
      var kw := AdvanceIf(TtKwFor);
      if kw.Err? {
        return Crash(kw.error);
      }
      if !kw.value {
        return Nothing;
      }
      res := Consume(TtOpenParen);
      if res.BuildError? {
        return;
      }
      if !res.Nothing? {
        return Crash(AssertFailed("par_is_nothing(result)"));
      }
      var decl := ParseVardecl();
      if !decl.Parsed? {
        return decl;
      }
      res := ParseForTail(decl.node);
    }

    /** The end of `pa_try_parse_for_stmt`: `in`, the collection, `)` and the body. */
    method ParseForTail(decl: Ast) returns (res: Res)
      requires Valid()
      modifies this
      ensures Out(res, State()) == ForTailAt(tokens, old(State()), decl, reading)
      decreases |tokens| - cursor, 18
    {
      res := Consume(TtKwIn);
      if res.BuildError? {
        return;
      }
      if !res.Nothing? {
        return Crash(AssertFailed("par_is_nothing(result)"));
      }
      ghost var s0 := old(State());
      var collection := ParseExpression();
      ForTailStep(tokens, s0, decl, reading, Out(collection, State()));
      if !collection.Parsed? {
        return collection;
      }
      res := ParseForBody(decl, collection.node);
    }

    /** The last part of `pa_try_parse_for_stmt`: `)` and the body. */
    method ParseForBody(decl: Ast, collection: Ast) returns (res: Res)
      requires Valid()
      modifies this
      ensures Out(res, State()) == ForBodyAt(tokens, old(State()), decl, collection, reading)
      decreases |tokens| - cursor, 18
    {
      res := Consume(TtCloseParen);
      if res.BuildError? {
        return;
      }
      if !res.Nothing? {
        return Crash(AssertFailed("par_is_nothing(result)"));
      }
      ghost var s0 := old(State());
      var body := ParseBody();
      ForBodyStep(tokens, s0, decl, collection, reading, Out(body, State()));
      res := if body.Parsed? then Parsed(Foreach(decl, collection, body.node)) else body;
    }

    /** `pa_try_parse_body_break`. */
    method TryParseBodyBreak() returns (res: Res)
      requires Valid()
      modifies this
      ensures Out(res, State()) == BreakAt(tokens, old(State()))
    {
      var kw := AdvanceIf(TtKwBreak);
      if kw.Err? {
        return Crash(kw.error);
      }
      res := if kw.value then Parsed(Break) else Nothing;
    }

    /** `pa_try_parse_body_return`. */
    method TryParseBodyReturn() returns (res: Res)
      requires Valid()
      modifies this
      ensures Out(res, State()) == ReturnAt(tokens, old(State()), reading)
    {
      var kw := AdvanceIf(TtKwReturn);
      if kw.Err? {
        return Crash(kw.error);
      }
      if !kw.value {
        return Nothing;
      }
      var value := ParseExpression();
      res := match value
        case Parsed(e) => Parsed(Return(e))
        case _ => value;
    }

    /** `pa_parse_statement`. */
    method ParseStatement() returns (res: Res)
      requires Valid()
      modifies this
      ensures Out(res, State()) == StatementAt(tokens, old(State()), reading)
      decreases |tokens| - cursor, 20
    {
      res := TryParseAssignment();
      if res.Nothing? {
        res := TryParseIfChain();
      }
      if res.Nothing? {
        res := TryParseForStmt();
      }
      if res.Nothing? {
        res := TryParseFuncCall();
      }
      if res.Nothing? {
        res := TryParseBodyReturn();
      }
      if res.Nothing? {
        res := TryParseBodyBreak();
      }
      if res.BuildError? || res.Crash? {
        return;
      }
      if !res.Parsed? {
        if code == ROk {
          var token := CurrentToken();
          if token.Err? {
            return Crash(token.error);
          }
          SetErrorAt(RErrStatement, token.value.ref);
        }
        return BuildError;
      }
      // optional end-of-statement
      var semicolon := AdvanceIf(TtStatementEnd);
      if semicolon.Err? {
        return Crash(semicolon.error);
      }
    }

    /** `pa_parse_body`. */
    method ParseBody() returns (res: Res)
      requires Valid()
      modifies this
      ensures Out(res, State()) == BodyAt(tokens, old(State()), reading)
      decreases |tokens| - cursor, 22
    {
      res := Consume(TtOpenCurly);
      if res.BuildError? {
        return;
      }
      var statements := ParseStatements();
      if !statements.Parsed? {
        return statements;
      }
      res := Consume(TtCloseCurly);
      if !res.BuildError? {
        res := statements;
      }
    }

    /** The `do … while( pa_is_at_end(parser) == false )` loop of `pa_parse_body`. */
    method ParseStatements() returns (res: Res)
      requires Valid()
      modifies this
      ensures Out(res, State()) == StatementsAt(tokens, old(State()), [], reading)
      decreases |tokens| - cursor, 21
    {
      var items: seq<Ast> := [];
      while true
        invariant Valid() && cursor >= old(cursor)
        invariant StatementsAt(tokens, State(), items, reading) == StatementsAt(tokens, old(State()), [], reading)
        decreases |tokens| - cursor
      {
        var token := CurrentToken();
        if token.Err? {
          return Crash(token.error);
        }
        if token.value.kind == TtCloseCurly {
          return Parsed(Block(items));
        }
        var statement := ParseStatement();
        if !statement.Parsed? {
          return statement;
        }
        items := items + [statement.node];
        var atEnd := IsAtEnd();
        if atEnd {
          return Parsed(Block(items));
        }
      }
    }

    // ------------------------------------------------------ declarations

    /** `pa_parse_funsign`. */
    method ParseFunsign() returns (res: Res)
      requires Valid()
      modifies this
      ensures Out(res, State()) == FunsignAt(tokens, old(State()))
    {
      var rettype := CurrentToken();
      if rettype.Err? {
        return Crash(rettype.error);
      }
      res := Consume(TtSymbol);
      if res.BuildError? {
        return;
      }
      var funname := CurrentToken();
      if funname.Err? {
        return Crash(funname.error);
      }
      res := Consume(TtSymbol);
      if res.BuildError? {
        return;
      }
      return Parsed(FunSign(funname.value.ref, ValueTypeOf(rettype.value.ref)));
    }

    /** `pa_try_parse_fundecl`. */
    method TryParseFundecl() returns (res: Res)
      requires Valid()
      modifies this
      ensures Out(res, State()) == FundeclAt(tokens, old(State()), reading)
    {
      var t0 := PeekToken(0);
      if t0.Err? {
        return Crash(t0.error);
      }
      if t0.value.kind != TtSymbol {
        return Nothing;
      }
      var t1 := PeekToken(1);
      if t1.Err? {
        return Crash(t1.error);
      }
      if t1.value.kind != TtSymbol {
        return Nothing;
      }
      var t2 := PeekToken(2);
      if t2.Err? {
        return Crash(t2.error);
      }
      if t2.value.kind != TtOpenParen {
        return Nothing;
      }
      var sign := ParseFunsign();
      if !sign.Parsed? {
        return sign;
      }
      res := Consume(TtOpenParen);
      if res.BuildError? {
        return;
      }
      var params := ParseParameters();
      if !params.Parsed? {
        return params;
      }
      res := Consume(TtCloseParen);
      if res.BuildError? {
        return;
      }
      var body := ParseBody();
      res := match body
        case Parsed(b) => Parsed(FunDecl(sign.node, params.node, b))
        case _ => body;
    }

    /** The `do … while( pa_advance_if(parser, TT_SEPARATOR) )` loop of `pa_try_parse_fundecl`. */
    method ParseParameters() returns (res: Res)
      requires Valid()
      modifies this
      ensures Out(res, State()) == ParametersAt(tokens, old(State()), [], reading)
    {
      var items: seq<Ast> := [];
      while true
        invariant Valid() && cursor >= old(cursor)
        invariant ParametersAt(tokens, State(), items, reading) == ParametersAt(tokens, old(State()), [], reading)
        decreases |tokens| - cursor
      {
        var token := CurrentToken();
        if token.Err? {
          return Crash(token.error);
        }
        if token.value.kind == TtCloseParen {
          return Parsed(Block(items));
        }
        var decl := ParseVardecl();
        if !decl.Parsed? {
          return decl;
        }
        items := items + [decl.node];
        var sep := AdvanceIf(TtSeparator);
        if sep.Err? {
          return Crash(sep.error);
        }
        if !sep.value {
          return Parsed(Block(items));
        }
      }
    }

    /** `pa_parse_program`. */
    method ParseProgram() returns (res: Res)
      requires Valid()
      modifies this
      ensures Out(res, State()) == ProgramAt(tokens, old(State()), reading)
    {
      res := Consume(TtInitial);
      if res.BuildError? {
        return;
      }
      ghost var start := State();
      var program: seq<Ast> := [];
      var last: Res;
      while true
        invariant Valid() && cursor >= start.pos && AllFunDecls(program)
        invariant DeclarationsAt(tokens, State(), program, reading) == DeclarationsAt(tokens, start, [], reading)
        decreases |tokens| - cursor
      {
        last := TryParseFundecl();
        if !last.Parsed? {
          break;
        }
        program := program + [last.node];
        var atEnd := IsAtEnd();
        if atEnd {
          break;
        }
      }
      if last.Crash? {
        return last;
      }
      var final := Consume(TtFinal);
      if last.BuildError? {
        return last;
      }
      if final.BuildError? {
        return final;
      }
      return Parsed(Block(program));
    }
  }

  /**
   * `pa_init`: a zero result and a collection of capacity 16, then the
   * tokens of `src` without spaces or comments. When the tokenizer gives up
   * the collection is dropped and the answer is false; otherwise it is
   * whether the result is still ok, with the cursor at the first token.
   */
  method Init(src: Source, maxLen: nat, reading: Reading) returns (r: Result<bool, Abort>, p: Parser)
    ensures var s := AdderTokenizer.Analysis(src, 0, false, false, reading, AdderTokenizer.KeywordMaps);
      match s.abort
      case Some(a) => r == Err(a)
      case None =>
        r == Ok(!s.stalled) && p.Valid() && p.cursor == 0 && p.reading == reading &&
        p.tokens == (if s.stalled then [] else [Token(TtInitial, CoUtils.MkSrcRef(src, 0, 0))] + s.tokens +
                                               [Token(TtFinal, AdderTokenizer.CurrentRef(src, s.cursor))]) &&
        (s.stalled ==> p.code == RErrToken && p.loc == AdderTokenizer.StallRef(src, s.cursor, reading)) &&
        (!s.stalled ==> p.code == ROk && p.loc == NoRef)
  {
    var result := new CoCres.Cres(maxLen);
    var collection := new TokenList.TokenList<Token>(16);
    r := AdderTokenizer.Analyze(collection, src, false, false, result, reading);
    if r.Err? {
      p := new Parser([], result.code, result.ref, reading);
      return;
    }
    if !r.value {
      collection.Destroy();
    }
    p := new Parser(collection.items, result.code, result.ref, reading);
  }
}
