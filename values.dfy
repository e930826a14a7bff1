/** A minimal optional-value datatype. */
module Wrappers {
  datatype Option<+T> = Nothing | Some(value: T)
}

/**
 * The tagged value of express.h (TV_NONE, TV_NUM, TV_STR), the C string pointers it carries,
 * the foreign C library routines the core calls, and the coercion macros NUM, STR, LONG and
 * COMP of express.c.
 */
module Values {
  import opened Wrappers

  /** 2^64: arithmetic on size_t wraps modulo this. */
  const SIZE_MOD: int := 0x1_0000_0000_0000_0000
  /** The largest size_t, which is also `~0` in the function table. */
  const SIZE_MAX: int := SIZE_MOD - 1
  const LONG_MIN: int := -0x8000_0000_0000_0000
  const LONG_MAX: int := 0x7FFF_FFFF_FFFF_FFFF

  /** Where a `const char *` points. */
  datatype Region =
    | LiteralBuffer        // the compiled expression's own string buffer (strbuff)
    | HostMemory           // a string handed back by the host's fetcher
    | StaticEmpty          // the static literal "" used by the STR macro and by substr
    | Scratch(block: nat)  // the buffer of the scratch block with this address

  datatype Addr = Addr(region: Region, offset: nat)

  /** A C string: NULL, or a pointer together with the characters up to its NUL. */
  datatype CStr = Null | Ptr(addr: Addr, chars: seq<char>)

  /** struct token_value: TV_NONE, TV_NUM or TV_STR (the STR pointer may be NULL). */
  datatype Value = Unset | Num(num: real) | Str(str: CStr)

  const EmptyString: CStr := Ptr(Addr(StaticEmpty, 0), [])

  /**
   * The C library routines and machine operations the core uses but whose behaviour this
   * model does not define: strtod (value read and number of characters consumed, 0 meaning
   * no conversion), atol, pow, the four rounded double operations + - * / (division by zero
   * included: infinities and NaN), regcomp/regexec as one "pattern compiles and matches"
   * test, and the wall clock read by time(NULL).
   */
  datatype Libc = Libc(
    strtod: seq<char> -> (real, nat),
    atol: seq<char> -> int,
    pow: (real, real) -> real,
    add: (real, real) -> real,
    sub: (real, real) -> real,
    mul: (real, real) -> real,
    div: (real, real) -> real,
    regexMatches: (seq<char>, seq<char>) -> bool,
    now: real)

  /** strtod never consumes more characters than the string holds. */
  ghost predicate ScansWithin(lib: Libc) {
    forall s: seq<char> :: lib.strtod(s).1 <= |s|
  }

  /** atof(s), which is strtod(s, NULL): 0 when nothing could be converted. */
  function Atof(lib: Libc, s: seq<char>): real {
    if lib.strtod(s).1 == 0 then 0.0 else lib.strtod(s).0
  }

  predicate InLong(x: int) { LONG_MIN <= x <= LONG_MAX }

  /** The C conversion of a double to an integer: truncation toward zero. */
  function Trunc(x: real): (r: int)
    ensures x >= 0.0 ==> (r as real) <= x < (r as real) + 1.0
    ensures x <= 0.0 ==> (r as real) - 1.0 < x <= (r as real)
  {
    if x >= 0.0 then x.Floor else -((-x).Floor)
  }

  /** NUM(n): the number of a TV_NUM, atof of a non-NULL string, 0 otherwise. */
  function NumOf(lib: Libc, v: Value): real {
    match v
    case Num(x) => x
    case Str(Ptr(_, cs)) => Atof(lib, cs)
    case _ => 0.0
  }

  /** STR(n): the pointer of a TV_STR (possibly NULL), the static "" otherwise. */
  function StrOf(v: Value): (r: CStr)
    ensures !v.Str? ==> r == EmptyString
    ensures r.Null? ==> v == Str(Null)
  {
    if v.Str? then v.str else EmptyString
  }

  /**
   * LONG(n): `(long)` of a TV_NUM, atol of a non-NULL string, 0 otherwise. A double or a
   * numeral outside the range of long has no defined conversion: Nothing.
   */
  function LongOf(lib: Libc, v: Value): (r: Option<int>)
    ensures r.Some? ==> InLong(r.value)
    ensures v.Num? && InLong(Trunc(v.num)) ==> r == Some(Trunc(v.num))
    ensures !v.Num? && !(v.Str? && v.str.Ptr?) ==> r == Some(0)
  {
    var x := match v
      case Num(n) => Trunc(n)
      case Str(Ptr(_, cs)) => lib.atol(cs)
      case _ => 0;
    if InLong(x) then Some(x) else Nothing
  }

  /** The sign of strcmp: lexicographic order on character codes, a prefix sorting first. */
  function StrCmp(a: seq<char>, b: seq<char>): (r: int)
    ensures -1 <= r <= 1
  {
    if a == [] && b == [] then 0
    else if a == [] then -1
    else if b == [] then 1
    else if a[0] < b[0] then -1
    else if a[0] > b[0] then 1
    else StrCmp(a[1..], b[1..])
  }

  lemma {:induction false} StrCmpZeroIffEqual(a: seq<char>, b: seq<char>)
    ensures StrCmp(a, b) == 0 <==> a == b
  {
    if a != [] && b != [] && a[0] == b[0] {
      StrCmpZeroIffEqual(a[1..], b[1..]);
      assert a == [a[0]] + a[1..] && b == [b[0]] + b[1..];
    }
  }

  lemma {:induction false} StrCmpAntisymmetric(a: seq<char>, b: seq<char>)
    ensures StrCmp(a, b) == -StrCmp(b, a)
  {
    if a != [] && b != [] && a[0] == b[0] {
      StrCmpAntisymmetric(a[1..], b[1..]);
    }
  }

  /** The six relational operators, applied to the sign of a comparison. */
  datatype Relation = Less | LessEq | Greater | GreaterEq | Equal | NotEqual

  function Holds(rel: Relation, sign: int): bool {
    match rel
    case Less => sign < 0
    case LessEq => sign <= 0
    case Greater => sign > 0
    case GreaterEq => sign >= 0
    case Equal => sign == 0
    case NotEqual => sign != 0
  }

  function RealSign(x: real, y: real): int {
    if x < y then -1 else if x == y then 0 else 1
  }

  /**
   * COMP(i, j, NUM, OP): numeric comparison when either operand is a TV_NUM, otherwise strcmp
   * of the two STR pointers. strcmp on a NULL pointer is undefined: Nothing.
   */
  function Compare(lib: Libc, rel: Relation, a: Value, b: Value): (r: Option<bool>)
    ensures (a.Num? || b.Num?) ==> r == Some(Holds(rel, RealSign(NumOf(lib, a), NumOf(lib, b))))
    ensures r.Nothing? <==> !a.Num? && !b.Num? && (StrOf(a).Null? || StrOf(b).Null?)
  {
    if a.Num? || b.Num? then Some(Holds(rel, RealSign(NumOf(lib, a), NumOf(lib, b))))
    else
      var x, y := StrOf(a), StrOf(b);
      if x.Null? || y.Null? then Nothing else Some(Holds(rel, StrCmp(x.chars, y.chars)))
  }

  /** Two strings compare equal under COMP exactly when their characters are equal. */
  lemma CompareStringsEqual(lib: Libc, x: CStr, y: CStr)
    requires x.Ptr? && y.Ptr?
    ensures Compare(lib, Equal, Str(x), Str(y)) == Some(x.chars == y.chars)
  {
    StrCmpZeroIffEqual(x.chars, y.chars);
  }

  /** A number and a string always compare numerically, the string read by atof. */
  lemma CompareMixedIsNumeric(lib: Libc, x: real, s: CStr)
    requires s.Ptr?
    ensures Compare(lib, Equal, Str(s), Num(x)) == Some(Atof(lib, s.chars) == x)
  {
  }

  function BoolNum(b: bool): real { if b then 1.0 else 0.0 }
}
