/**
 * The syntax tree of the adder language (`ast_node_t`). The checkers, the
 * parser and the compiler were written against two revisions of the
 * header: `co_types.h` (typed values, annotations, `TYANNOT`) and
 * `co_ast.h` (number/bool/string values, `VAR_DECL`, `FUN_SIGN`). `Node`
 * holds the kinds of both; each consumer handles the kinds its `switch`
 * names and sends the others to its default branch.
 */
module CoAst {
  import opened Wrappers

  /** `ast_value_type_t` of `co_types.h`, in declaration order. */
  datatype ValueType = NoneValue | IntValue | BoolValue | CharValue | FloatValue

  /** The enumerator's value: its position in the declaration. */
  function Ordinal(vt: ValueType): (i: nat)
    ensures i < 5
  {
    match vt
    case NoneValue => 0
    case IntValue => 1
    case BoolValue => 2
    case CharValue => 3
    case FloatValue => 4
  }

  /** `ast_binop_type_t`. */
  datatype BinopType = Mul | Div | Mod | Add | Sub | Xor | Lt | Gt | LtEq | GtEq | Eq | Neq | Or | And

  /** `ast_unop_type_t`. */
  datatype UnopType = Not | Neg

  /** `ast_annot_t`: a type name with its parameters, as in `array<int>`. */
  datatype Annot = Annot(name: string, children: seq<Annot>)

  /**
   * `ast_node_t`. A `Value` carries its kind and, for a bool, its truth
   * (the float payload of numbers is not modelled); `StringLit` is the
   * string value of `co_ast.h`, holding its quoted source text.
   */
  datatype Node =
    | Value(vt: ValueType, truth: bool)
    | StringLit(text: string)
    | ArrayLit(content: seq<Node>)
    | IfChain(cond: Node, iftrue: Node, next: Node)
    | Foreach(vardecl: Node, collection: Node, during: Node)
    | Binop(bop: BinopType, left: Node, right: Node)
    | Unop(uop: UnopType, inner: Node)
    | Assign(target: Node, value: Node)
    | TyAnnot(annot: Annot, expr: Node)
    | VarRef(name: string)
    | VarDecl(name: string, vtype: Option<Annot>)
    | FunExDecl(name: string, argspec: Node)
    | FunSign(name: string, argspec: Node, rettype: Option<Annot>)
    | FunDecl(sign: Node, argspec: Node, body: Node)
    | FunCall(name: string, args: Node)
    | Return(result: Node)
    | Break
    | Block(content: seq<Node>)
    | ArgList(content: seq<Node>)
}
