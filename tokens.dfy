/**
 * Token kinds, the precedence table, token widths and arities, and the built-in function
 * registry of express.c.
 */
module Tokens {
  import opened Values

  /** The token types OP_BEG .. OP_SEP; Invalid is the 0 that token_type returns on bad input. */
  datatype Kind =
    | Invalid
    | Beg | End | NumLit | Ident | StrLit | Func
    | Not | BitComp
    | Multi | Divi | Mod
    | Add | Sub
    | ShiftLeft | ShiftRight
    | Lt | Gt | Ge | Le
    | Eq | NotEq | Regex
    | BitAnd | BitXor | BitOr
    | And | Or
    | Sep

  /** Operand tokens: they go straight to the output and push one value when evaluated. */
  predicate IsOperand(k: Kind) { k == NumLit || k == Ident || k == StrLit }

  /** The kinds token_type can hand to opera_push (its `default` case). */
  predicate IsOperator(k: Kind) {
    !(k in {Invalid, Beg, End, NumLit, Ident, StrLit, Func, Sep})
  }

  /** The `level` table; OP_SEP lies past the initialiser, so its entry is 0. */
  function Level(k: Kind): int {
    match k
    case Invalid | Beg | End | NumLit | Ident | StrLit => -1
    case Func => 127
    case Not | BitComp => 126
    case Multi | Divi | Mod => 125
    case Add | Sub => 124
    case ShiftLeft | ShiftRight => 123
    case Lt | Gt | Ge | Le => 122
    case Eq | NotEq | Regex => 121
    case BitAnd => 120
    case BitXor => 119
    case BitOr => 118
    case And => 117
    case Or => 116
    case Sep => 0
  }

  /** ISLOW(l, r): the incoming `l` binds no tighter than the stacked `r`, so `r` leaves first. */
  predicate IsLow(l: Kind, r: Kind) {
    Level(l) < Level(r) || (l != Not && l != BitComp && Level(l) == Level(r))
  }

  /** Binary operators are left-associative; `!` and `~` only give way to tighter operators. */
  lemma IsLowByAssociativity(l: Kind, r: Kind)
    requires IsOperator(l)
    ensures l in {Not, BitComp} ==> (IsLow(l, r) <==> Level(r) > Level(l))
    ensures !(l in {Not, BitComp}) ==> (IsLow(l, r) <==> Level(r) >= Level(l))
    ensures !IsLow(l, Beg)
  {
  }

  /** token_params: how many operands a token consumes. */
  function TokenParams(k: Kind): (n: nat)
    ensures n <= 2
    ensures IsOperand(k) ==> n == 0
  {
    match k
    case Not | BitComp => 1
    case Beg | End | NumLit | StrLit | Ident => 0
    case _ => 2
  }

  /** token_len: how far the cursor moves past a token the switch itself does not consume. */
  function TokenLen(k: Kind): (n: nat)
    ensures n <= 2
  {
    match k
    case NumLit | Ident | StrLit | Func => 0
    case Ge | Le | Eq | NotEq | Regex | And | Or | ShiftLeft | ShiftRight => 2
    case _ => 1
  }

  /** A token's payload: a number, a span of the source text, or (once compiled) the
      literal's de-escaped text at an offset of the string buffer. */
  datatype Payload =
    | NoPayload
    | Literal(value: real)
    | Span(pos: nat, len: nat)
    | Text(at: nat, chars: seq<char>)

  /** struct token: nparam is an unsigned char, subtype the function's registry index. */
  datatype Token = Token(kind: Kind, nparam: nat, subtype: nat, payload: Payload)

  /** The unsigned char increment `nparam++`. */
  function IncByte(n: nat): (r: nat)
    ensures r < 256
    ensures n < 255 ==> r == n + 1
  {
    (n + 1) % 256
  }

  /** Indices of token_funcs; 0 is the NULL row. */
  const STRCMP: nat := 1
  const STRLEN: nat := 2
  const STRSTR: nat := 3
  const POW: nat := 4
  const IN: nat := 5
  const CASE: nat := 6
  const TIME: nat := 7
  const SUBSTR: nat := 8
  const FUNC_COUNT: nat := 9

  function FuncName(id: nat): seq<char> {
    if id == STRCMP then "strcmp"
    else if id == STRLEN then "strlen"
    else if id == STRSTR then "strstr"
    else if id == POW then "pow"
    else if id == IN then "in"
    else if id == CASE then "case"
    else if id == TIME then "time"
    else if id == SUBSTR then "substr"
    else []
  }

  /** The accepted argument counts; `in` has max `~0`, the largest size_t. */
  function FuncMin(id: nat): nat {
    if id == STRCMP || id == STRSTR || id == POW || id == IN || id == SUBSTR then 2
    else if id == STRLEN then 1
    else if id == CASE then 3
    else 0
  }

  function FuncMax(id: nat): nat {
    if id == STRCMP || id == STRSTR || id == POW then 2
    else if id == STRLEN then 1
    else if id == IN then SIZE_MAX
    else if id == CASE || id == SUBSTR then 3
    else 0
  }

  /** FUNC(ID): the name has exactly the length and the characters of that row's name. */
  function Match(name: seq<char>, id: nat): nat {
    if name == FuncName(id) then id else 0
  }

  /**
   * check_function: dispatch on the first character (and, for names starting with 's', on the
   * fourth and second) before comparing the whole name with a single row of the table.
   */
  function CheckFunction(name: seq<char>): nat {
    if name == [] then 0
    else if name[0] == 'p' then Match(name, POW)
    else if name[0] == 'i' then Match(name, IN)
    else if name[0] == 'c' then Match(name, CASE)
    else if name[0] == 't' then Match(name, TIME)
    else if name[0] == 's' then
      if |name| <= 3 then 0
      else if name[3] == 'c' then Match(name, STRCMP)
      else if name[3] == 'l' then Match(name, STRLEN)
      else if name[3] == 's' then
        if name[1] == 't' then Match(name, STRSTR)
        else if name[1] == 'u' then Match(name, SUBSTR)
        else 0
      else 0
    else 0
  }

  /** The dispatch of check_function finds a row exactly when the name is that row's name. */
  lemma CheckFunctionIsLookup(name: seq<char>, id: nat)
    requires 1 <= id < FUNC_COUNT
    ensures CheckFunction(name) == id <==> name == FuncName(id)
  {
    if name == FuncName(id) {
      assert name[0] == FuncName(id)[0];
      if |name| > 3 {
        assert name[1] == FuncName(id)[1] && name[3] == FuncName(id)[3];
      }
    }
  }

  lemma CheckFunctionResult(name: seq<char>)
    ensures CheckFunction(name) < FUNC_COUNT
    ensures CheckFunction(name) != 0 ==> name == FuncName(CheckFunction(name))
  {
  }
}
