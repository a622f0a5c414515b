/**
 * The compiler's shared types (`co_types.h`): source references, token
 * kinds and trace message kinds.
 */
module CoTypes {
  import opened Wrappers

  /**
   * A source text as a pointer sees it: an identity (two references share a
   * source when they point into the same buffer) and the characters before
   * its terminator.
   */
  datatype Source = Source(id: nat, text: seq<char>)

  /** `srcref_t`: a possibly NULL source and a start and end index into it. */
  datatype SrcRef = SrcRef(source: Option<Source>, start: nat, end: nat)

  /** `(srcref_t) { 0 }`. */
  const NoRef: SrcRef := SrcRef(None, 0, 0)

  /** `token_type_t`, in declaration order. */
  datatype TokenType =
    | TtNothing | TtInitial | TtSpace | TtComment | TtSymbol | TtNumber | TtBoolean | TtString
    | TtArrow | TtAssign | TtKwIf | TtKwElse | TtKwFor | TtKwIn | TtKwReturn | TtKwBreak | TtKwFunDef
    | TtCmpEq | TtCmpNeq | TtCmpGtEq | TtCmpLtEq | TtCmpGt | TtCmpLt
    | TtOpenParen | TtCloseParen | TtOpenCurly | TtCloseCurly | TtOpenSbracket | TtCloseSbracket
    | TtUnopNot | TtBinopAnd | TtBinopOr | TtBinopMul | TtBinopDiv | TtBinopMod | TtBinopPlus | TtBinopMinus
    | TtHashSign | TtSeparator | TtStatementEnd | TtImport | TtExport | TtFinal

  /** `token_t`. */
  datatype Token = Token(kind: TokenType, ref: SrcRef)

  /** `trace_msg_type_t`, in declaration order. */
  datatype TraceMsgType = TmNone | TmInfo | TmWarning | TmError | TmOutOfMemory | TmInternalError

  /** The enumerator's value. */
  function TraceOrdinal(t: TraceMsgType): (n: nat)
    ensures n < 6
  {
    match t
    case TmNone => 0
    case TmInfo => 1
    case TmWarning => 2
    case TmError => 3
    case TmOutOfMemory => 4
    case TmInternalError => 5
  }

  /** `type >= TM_ERROR`: the kinds that count as errors. */
  predicate IsErrorKind(t: TraceMsgType) {
    TraceOrdinal(t) >= TraceOrdinal(TmError)
  }

  /** Exactly errors, out-of-memory reports and internal errors count; none, info and warnings do not. */
  lemma ErrorKinds(t: TraceMsgType)
    ensures IsErrorKind(t) <==> t in {TmError, TmOutOfMemory, TmInternalError}
  {
  }

  /** The result codes of a compilation result (`cres_code_t`) that the compiler uses. */
  datatype CresCode = ROk | RErrOutOfMemory | RErrInternal | RErrStatement | RErrToken | RErrExpr | RErrCompilation

  /** `TRACE_MSG_MAX_LEN`. */
  const TraceMsgMaxLen: nat := 256
}
