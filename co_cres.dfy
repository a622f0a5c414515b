/**
 * `co_cres.h`: the compilation result, a result code with a bounded message
 * and a source location, and the line/column computation of a location.
 * The message capacity `CRES_MAX_MSG_LEN` is the length of the message
 * buffer.
 */
module CoCres {
  import opened Wrappers
  import opened CoTypes
  import Text
  import ShUtils
  import CoUtils

  /** Taking a prefix of a concatenation: a full prefix ignores what follows, a short one takes from it. */
  lemma TakeConcat(r: seq<char>, x: seq<char>, m: nat)
    ensures |r| >= m ==> ShUtils.Take(r + x, m) == ShUtils.Take(r, m)
    ensures |r| < m ==> ShUtils.Take(r + x, m) == r + ShUtils.Take(x, m - |r|)
  {
    if |r| >= m {
      assert (r + x)[..m] == r[..m];
    } else if |r + x| > m {
      assert (r + x)[..m] == r + x[..m - |r|];
    }
  }

  /** `cres_t`. */
  class Cres {
    var code: CresCode
    const msg: array<char>
    var msgLen: nat
    var ref: SrcRef
    /** Everything ever offered to the message, of which the buffer keeps the first `CRES_MAX_MSG_LEN` characters. */
    ghost var requested: seq<char>

    ghost predicate Valid()
      reads this
    {
      msgLen <= msg.Length
    }

    function Message(): seq<char>
      reads this, msg
      requires Valid()
    {
      msg[..msgLen]
    }

    /** The message is the longest prefix of what was offered that fits. */
    ghost predicate Truncates()
      reads this, msg
      requires Valid()
    {
      Message() == ShUtils.Take(requested, msg.Length)
    }

    /** A zero-initialised result: no error, no message, no location. */
    constructor (maxLen: nat)
      ensures Valid() && Truncates() && msg.Length == maxLen
      ensures code == ROk && Message() == [] && requested == [] && ref == NoRef
      ensures fresh(msg)
    {
      code := ROk;
      msg := new char[maxLen](_ => '\0');
      msgLen := 0;
      ref := NoRef;
      requested := [];
    }

    /**
     * `cres_msg_add`: copies as many of the first `slen` characters of `str`
     * as there is room for, and answers how many.
     */
    method MsgAdd(str: seq<char>, slen: nat) returns (written: nat)
      requires Valid() && Truncates() && slen <= |str|
      modifies this, msg
      ensures Valid() && Truncates() && written <= slen && msgLen <= msg.Length
      ensures written == if old(msgLen) >= msg.Length then 0 else |ShUtils.Take(str[..slen], msg.Length - old(msgLen))|
      ensures Message() == old(Message()) + str[..written]
      ensures requested == old(requested) + str[..slen]
      ensures code == old(code) && ref == old(ref)
    {
      requested := requested + str[..slen];
      TakeConcat(old(requested), str[..slen], msg.Length);
      var remaining := msg.Length - msgLen;
      if remaining <= 0 || slen == 0 {
        return 0;
      }
      written := if slen < remaining then slen else remaining;
      var i := 0;
      while i < written
        invariant 0 <= i <= written && msgLen == old(msgLen)
        invariant msg[..msgLen] == old(Message())
        invariant forall k :: 0 <= k < i ==> msg[msgLen + k] == str[k]
        invariant requested == old(requested) + str[..slen] && code == old(code) && ref == old(ref)
      {
        msg[msgLen + i] := str[i];
        i := i + 1;
      }
      msgLen := msgLen + written;
      assert Message() == old(Message()) + str[..written];
    }

    /** `cres_msg_add_token_type_name`. */
    method MsgAddTokenTypeName(t: TokenType) returns (written: nat)
      requires Valid() && Truncates()
      modifies this, msg
      ensures Valid() && Truncates() && requested == old(requested) + TokenTypeName(t)
      ensures code == old(code) && ref == old(ref)
    {
      var name := TokenTypeName(t);
      written := MsgAdd(name, |name|);
    }

    /**
     * `cres_msg_add_srcref`: the referenced characters. A reference without
     * a source gives a NULL pointer, which is read only when there is
     * something to copy and room for it.
     */
    method MsgAddSrcRef(r: SrcRef) returns (res: Result<nat, Abort>)
      requires Valid() && Truncates()
      modifies this, msg
      ensures Valid() && Truncates() && code == old(code) && ref == old(ref)
      ensures res.Err? <==> r.source.None? && CoUtils.Len(r) > 0 && old(msgLen) < msg.Length
      ensures res.Err? ==> res.error == NullDereference
      ensures res.Ok? ==> requested == old(requested) + CoUtils.Chars(r)
    {
      if r.source.None? && CoUtils.Len(r) > 0 && msgLen < msg.Length {
        return Err(NullDereference);
      }
      var w := MsgAdd(CoUtils.Chars(r), CoUtils.Len(r));
      assert CoUtils.Chars(r)[..CoUtils.Len(r)] == CoUtils.Chars(r);
      res := Ok(w);
    }

    /** `cres_msg_add_token`: the type name, then the referenced text between ` ('` and `')`. */
    method MsgAddToken(token: Token) returns (res: Result<nat, Abort>)
      requires Valid() && Truncates()
      modifies this, msg
      ensures Valid() && Truncates() && code == old(code) && ref == old(ref)
      ensures res.Ok? ==> requested == old(requested) + TokenTypeName(token.kind) + " ('" + CoUtils.Chars(token.ref) + "')"
    {
      var w := MsgAddTokenTypeName(token.kind);
      w := MsgAdd(" ('", 3);
      assert " ('"[..3] == " ('";
      var s := MsgAddSrcRef(token.ref);
      if s.Err? {
        return Err(s.error);
      }
      w := MsgAdd("')", 2);
      assert "')"[..2] == "')";
      res := Ok(w);
    }

    /** `cres_is_ok`. */
    predicate IsOk()
      reads this
    {
      code == ROk
    }

    /** `cres_has_error`. */
    predicate HasError()
      reads this
    {
      code != ROk
    }

    /** `cres_set_error`: the first error is kept; a later one is refused. */
    method SetError(c: CresCode) returns (accepted: bool)
      modifies this
      ensures accepted <==> old(IsOk())
      ensures accepted ==> code == c
      ensures !accepted ==> code == old(code)
      ensures msgLen == old(msgLen) && ref == old(ref) && requested == old(requested)
    {
      if HasError() {
        return false;
      }
      code := c;
      accepted := true;
    }

    /** `cres_set_src_location`. */
    method SetSrcLocation(r: SrcRef)
      modifies this
      ensures ref == r && code == old(code) && msgLen == old(msgLen) && requested == old(requested)
    {
      ref := r;
    }
  }

  /** Exactly one of `cres_is_ok` and `cres_has_error` holds. */
  lemma OkAndErrorComplement(res: Cres)
    ensures res.IsOk() <==> !res.HasError()
  {
  }

  /** The name `cres_msg_add_token_type_name` gives each token kind. */
  function TokenTypeName(t: TokenType): (name: string)
    ensures |name| > 0
  {
    match t
    case TtInitial => "initial token"
    case TtSpace => "space"
    case TtComment => "comment"
    case TtSymbol => "symbol"
    case TtNumber => "number"
    case TtBoolean => "bool"
    case TtString => "string"
    case TtSeparator => "separator"
    case TtStatementEnd => "end of statement"
    case TtArrow => "function return type arrow"
    case TtAssign => "assignment"
    case TtCmpLt => "opening angle bracket alt. less than"
    case TtCmpGt => "closing angle bracket alt. greater than"
    case TtOpenParen => "left parenthesis"
    case TtCloseParen => "right parenthesis"
    case TtOpenCurly => "opening brace"
    case TtCloseCurly => "closing brace"
    case TtOpenSbracket => "opening square bracket"
    case TtCloseSbracket => "closing square bracket"
    case TtBinopAnd => "binary and-operator"
    case TtBinopOr => "binary or-operator"
    case TtUnopNot => "unary not-operator"
    case TtFinal => "final token"
    case TtNothing => "nothing"
    case TtBinopMul => "multiply operator"
    case TtBinopDiv => "division operator"
    case TtBinopMod => "modulus operator"
    case TtBinopPlus => "binary plus-operator"
    case TtBinopMinus => "binary minus-operator"
    case TtKwIf | TtKwElse | TtKwFor | TtKwReturn | TtKwFunDef => "keyword"
    case TtCmpEq | TtCmpNeq | TtCmpGtEq | TtCmpLtEq => "comparison operator"
    case _ => "unknown"
  }

  // Locations

  /** The characters before index `k` of a C string. */
  function Before(text: seq<char>, k: nat): (s: seq<char>)
    ensures |s| == k
  {
    seq(k, i requires 0 <= i < k => ShUtils.At(text, i))
  }

  /** The number of newlines in `s`, counted from the end. */
  function NewlineCount(s: seq<char>): nat {
    if s == [] then 0 else NewlineCount(s[..|s| - 1]) + (if s[|s| - 1] == '\n' then 1 else 0)
  }

  /** The number of characters after the last newline of `s`. */
  function Column(s: seq<char>): nat {
    if s == [] then 0 else if s[|s| - 1] == '\n' then 0 else Column(s[..|s| - 1]) + 1
  }

  /** The newline count is the number of occurrences of the newline character. */
  lemma {:induction false} NewlineCountMeaning(s: seq<char>)
    ensures NewlineCount(s) == multiset(s)['\n']
  {
    if s != [] {
      NewlineCountMeaning(s[..|s| - 1]);
      assert s == s[..|s| - 1] + [s[|s| - 1]];
      assert multiset(s) == multiset(s[..|s| - 1]) + multiset{s[|s| - 1]};
    }
  }

  /** Without a newline the column is the length; otherwise it counts from just after the last newline. */
  lemma {:induction false} ColumnMeaning(s: seq<char>, j: nat)
    ensures (forall i :: 0 <= i < |s| ==> s[i] != '\n') ==> Column(s) == |s|
    ensures j < |s| && s[j] == '\n' && (forall i :: j < i < |s| ==> s[i] != '\n') ==> Column(s) == |s| - 1 - j
  {
    if s != [] {
      ColumnMeaning(s[..|s| - 1], j);
      if j < |s| - 1 && s[j] == '\n' && (forall i :: j < i < |s| ==> s[i] != '\n') {
        assert s[..|s| - 1][j] == '\n';
      }
    }
  }

  /** The 1-based line and column of index `k` of a text. */
  function LineColumn(text: seq<char>, k: nat): (lc: (nat, nat))
    ensures lc.0 >= 1 && lc.1 >= 1
  {
    (NewlineCount(Before(text, k)) + 1, Column(Before(text, k)) + 1)
  }

  /** What `cres_fprint_location` prints: nothing without a source, else the path, line and column of the earlier bound. */
  function LocationText(r: SrcRef, filepath: Option<seq<char>>): string {
    if r.source.None? then ""
    else
      var lo := if r.start > r.end then r.end else r.start;
      var lc := LineColumn(r.source.value.text, lo);
      (if filepath.Some? then ShUtils.CStr(filepath.value) else "<unknown file>")
        + ":" + Text.Decimal(lc.0) + ":" + Text.Decimal(lc.1) + ": "
  }

  /** A newline before the index moves to the next line; any other character to the next column. */
  lemma LineColumnStep(text: seq<char>, k: nat)
    ensures ShUtils.At(text, k) == '\n' ==> LineColumn(text, k + 1) == (LineColumn(text, k).0 + 1, 1)
    ensures ShUtils.At(text, k) != '\n' ==> LineColumn(text, k + 1) == (LineColumn(text, k).0, LineColumn(text, k).1 + 1)
  {
    assert Before(text, k + 1)[..k] == Before(text, k);
  }

  /**
   * `cres_fprint_location`: the text printed and its length. A reversed
   * reference is swapped first; the line and column are counted up to the
   * start.
   */
  method FprintLocation(r: SrcRef, filepath: Option<seq<char>>) returns (n: nat, out: string)
    ensures out == LocationText(r, filepath) && n == |out|
    ensures r.source.None? <==> out == []
  {
    if r.source.None? {
      return 0, "";
    }
    var lo := r.start;
    var hi := r.end;
    if lo > hi {
      lo, hi := hi, lo;
    }
    var text := r.source.value.text;
    var line := 0;
    var column := 0;
    var i := 0;
    while i < lo
      invariant 0 <= i <= lo
      invariant line == NewlineCount(Before(text, i)) && column == Column(Before(text, i))
    {
      LineColumnStep(text, i);
      if ShUtils.At(text, i) == '\n' {
        line := line + 1;
        column := 0;
      } else {
        column := column + 1;
      }
      i := i + 1;
    }
    line := line + 1;
    column := column + 1;
    var path := if filepath.Some? then ShUtils.CStr(filepath.value) else "<unknown file>";
    out := path + ":" + Text.Decimal(line) + ":" + Text.Decimal(column) + ": ";
    n := |out|;
  }
}
