/**
 * What each instruction computes in express_calculate: the operators of its switch (through
 * the NUM, LONG, STR and COMP macros), NOT_OPT, REGEX_OPT, FETCH_OPT and the fn_* built-ins.
 */
module Builtins {
  import opened Wrappers
  import opened Values
  import opened Tokens

  /**
   * The effect of one instruction on the value stack: a value written into arg[0]; a string
   * copied into a new scratch block (fn_substr); a failed assert; or undefined behaviour.
   */
  datatype Effect = Push(v: Value) | PushScratch(chars: seq<char>) | Abort | UB

  /** The host's fetch_value_fn with its ctx: a variable name to a value. */
  type Fetcher = seq<char> -> Value

  /** `!v` of NOT_OPT and fn_case: a zero number, or a NULL string (an empty one is true). */
  predicate IsFalse(v: Value) {
    match v
    case Num(x) => x == 0.0
    case Str(p) => p.Null?
    case Unset => true
  }

  // ---------------------------------------------------------------- long arithmetic

  function Pow2(n: nat): (r: nat)
    ensures r >= 1
  {
    if n == 0 then 1 else 2 * Pow2(n - 1)
  }

  lemma {:induction false} Pow2Add(a: nat, b: nat)
    ensures Pow2(a + b) == Pow2(a) * Pow2(b)
    decreases a
  {
    if a > 0 {
      Pow2Add(a - 1, b);
    }
  }

  /** 2^64 is the size_t modulus. */
  lemma Pow2Word()
    ensures Pow2(64) == SIZE_MOD
  {
    assert Pow2(2) == 4;
    Pow2Add(2, 2);
    Pow2Add(4, 4);
    assert Pow2(8) == 256;
    Pow2Add(8, 8);
    assert Pow2(16) == 65536;
    Pow2Add(16, 16);
    assert Pow2(32) == 0x1_0000_0000;
    Pow2Add(32, 32);
  }

  /** C's `/` on integers: the quotient truncated toward zero. */
  function CQuot(a: int, b: int): int
    requires b != 0
  {
    var q := (if a < 0 then -a else a) / (if b < 0 then -b else b);
    if (a < 0) != (b < 0) then -q else q
  }

  /** C's `%` on long: what remains after the truncated quotient; the sign follows the dividend. */
  function CRem(a: int, b: int): (r: int)
    requires b != 0
  {
    a - b * CQuot(a, b)
  }

  lemma CRemBounds(a: int, b: int)
    requires b != 0
    ensures a == b * CQuot(a, b) + CRem(a, b)
    ensures a >= 0 ==> 0 <= CRem(a, b) < (if b < 0 then -b else b)
    ensures a < 0 ==> -(if b < 0 then -b else b) < CRem(a, b) <= 0
  {
    var m := if b < 0 then -b else b;
    var n := if a < 0 then -a else a;
    var q := n / m;
    assert n == m * q + n % m;
    if a >= 0 && b > 0 {
      assert CRem(a, b) == n % m;
    } else if a >= 0 {
      assert b * CQuot(a, b) == m * q;
    } else if b > 0 {
      assert b * CQuot(a, b) == -(m * q);
    } else {
      assert b * CQuot(a, b) == -(m * q);
    }
  }

  /** A long as the unsigned value of its 64-bit two's complement representation. */
  function Unsigned(x: int): (u: nat)
    requires InLong(x)
    ensures u < SIZE_MOD
  {
    if x < 0 then x + SIZE_MOD else x
  }

  /** An unsigned 64-bit value read back as a long. */
  function Signed(u: nat): (x: int)
    requires u < SIZE_MOD
    ensures InLong(x)
  {
    if u > LONG_MAX then u - SIZE_MOD else u
  }

  lemma SignedUnsigned(x: int)
    requires InLong(x)
    ensures Signed(Unsigned(x)) == x
  {
  }

  /** `~x` on a long: every bit complemented, which is -x - 1 in two's complement. */
  function BitNot(x: int): (r: int)
    requires InLong(x)
    ensures InLong(r) && Unsigned(r) == SIZE_MAX - Unsigned(x)
  {
    -x - 1
  }

  datatype BitOp = BitAndOp | BitXorOp | BitOrOp

  function BitOf(op: BitOp, a: bool, b: bool): bool {
    match op
    case BitAndOp => a && b
    case BitXorOp => a != b
    case BitOrOp => a || b
  }

  /** op applied to each of the low n bits of a and b. */
  function Bits(op: BitOp, a: nat, b: nat, n: nat): (r: nat)
    ensures r < Pow2(n)
  {
    if n == 0 then 0
    else 2 * Bits(op, a / 2, b / 2, n - 1) + (if BitOf(op, a % 2 == 1, b % 2 == 1) then 1 else 0)
  }

  /** &, ^ and | on long: bitwise on the 64-bit representations. */
  function Bitwise(op: BitOp, x: int, y: int): (r: int)
    requires InLong(x) && InLong(y)
    ensures InLong(r)
  {
    Pow2Word();
    Signed(Bits(op, Unsigned(x), Unsigned(y), 64))
  }

  /** Combining a value with itself: x & x == x, x | x == x, x ^ x == 0. */
  lemma {:induction false} BitsSelf(op: BitOp, a: nat, n: nat)
    requires a < Pow2(n)
    ensures Bits(op, a, a, n) == if op == BitXorOp then 0 else a
  {
    if n > 0 {
      BitsSelf(op, a / 2, n - 1);
    }
  }

  lemma BitwiseSelf(x: int)
    requires InLong(x)
    ensures Bitwise(BitAndOp, x, x) == x && Bitwise(BitOrOp, x, x) == x
    ensures Bitwise(BitXorOp, x, x) == 0
  {
    Pow2Word();
    BitsSelf(BitAndOp, Unsigned(x), 64);
    BitsSelf(BitOrOp, Unsigned(x), 64);
    BitsSelf(BitXorOp, Unsigned(x), 64);
  }

  /** `a << b` on long: defined only for a non-negative a whose shifted value fits. */
  function ShiftLeftLong(a: int, b: int): (r: Option<int>)
    ensures r.Some? ==> InLong(r.value) && a >= 0 && 0 <= b < 64 && r.value == a * Pow2(b)
    ensures 0 <= b < 64 && a >= 0 && a * Pow2(b) <= LONG_MAX ==> r.Some?
  {
    if b < 0 || b >= 64 || a < 0 then Nothing
    else if a * Pow2(b) > LONG_MAX then Nothing
    else Some(a * Pow2(b))
  }

  /** `a >> b` on long: the shift count must lie in [0, 64); a negative a shifts arithmetically. */
  function ShiftRightLong(a: int, b: int): (r: Option<int>)
    requires InLong(a)
    ensures r.Some? <==> 0 <= b < 64
  {
    if b < 0 || b >= 64 then Nothing else Some(a / Pow2(b))
  }

  // ---------------------------------------------------------------- operators

  /** NUM_OPT(LONG, op) for %, <<, >>, &, ^ and |; any undefined conversion or operation is UB. */
  function LongOp(lib: Libc, k: Kind, a: Value, b: Value): Effect
    requires k in {Mod, ShiftLeft, ShiftRight, BitAnd, BitXor, BitOr}
  {
    match (LongOf(lib, a), LongOf(lib, b))
    case (Some(x), Some(y)) =>
      if k == Mod then
        if y == 0 || (x == LONG_MIN && y == -1) then UB else Push(Num(CRem(x, y) as real))
      else if k == ShiftLeft then
        (match ShiftLeftLong(x, y) case Some(r) => Push(Num(r as real)) case Nothing => UB)
      else if k == ShiftRight then
        (match ShiftRightLong(x, y) case Some(r) => Push(Num(r as real)) case Nothing => UB)
      else
        var op := if k == BitAnd then BitAndOp else if k == BitXor then BitXorOp else BitOrOp;
        Push(Num(Bitwise(op, x, y) as real))
    case _ => UB
  }

  function RelationOf(k: Kind): Relation
    requires k in {Lt, Le, Gt, Ge, Eq, NotEq}
  {
    match k
    case Lt => Less
    case Le => LessEq
    case Gt => Greater
    case Ge => GreaterEq
    case Eq => Equal
    case NotEq => NotEqual
  }

  /** REGEX_OPT: its guard tests the left operand's type twice, so only arg[0] must be a string. */
  function RegexOp(lib: Libc, a: Value, b: Value): Effect {
    if a.Str? then
      if StrOf(b).Null? || a.str.Null? then UB
      else Push(Num(BoolNum(lib.regexMatches(StrOf(b).chars, a.str.chars))))
    else Push(Num(0.0))
  }

  /** One operator applied to its operands arg[0 .. nparam). */
  function Operate(lib: Libc, k: Kind, args: seq<Value>): Effect
    requires IsOperator(k) && |args| == TokenParams(k)
  {
    if k == BitComp then
      (match LongOf(lib, args[0]) case Some(x) => Push(Num(BitNot(x) as real)) case Nothing => UB)
    else if k == Not then Push(Num(BoolNum(IsFalse(args[0]))))
    else
      var a, b := args[0], args[1];
      var x, y := NumOf(lib, a), NumOf(lib, b);
      if k == Multi then Push(Num(lib.mul(x, y)))
      else if k == Divi then Push(Num(lib.div(x, y)))
      else if k == Add then Push(Num(lib.add(x, y)))
      else if k == Sub then Push(Num(lib.sub(x, y)))
      else if k == And then Push(Num(BoolNum(x != 0.0 && y != 0.0)))
      else if k == Or then Push(Num(BoolNum(x != 0.0 || y != 0.0)))
      else if k in {Lt, Le, Gt, Ge, Eq, NotEq} then
        (match Compare(lib, RelationOf(k), a, b) case Some(c) => Push(Num(BoolNum(c))) case Nothing => UB)
      else if k == Regex then RegexOp(lib, a, b)
      else LongOp(lib, k, a, b)
  }

  // ---------------------------------------------------------------- built-in functions

  predicate Occurs(hay: seq<char>, needle: seq<char>, k: nat) {
    k + |needle| <= |hay| && hay[k..k + |needle|] == needle
  }

  /** strstr: the first position where needle occurs in hay. */
  function Find(hay: seq<char>, needle: seq<char>, from: nat): (r: Option<nat>)
    ensures r.Some? ==> from <= r.value && Occurs(hay, needle, r.value)
    ensures r.Some? ==> forall k :: from <= k < r.value ==> !Occurs(hay, needle, k)
    ensures r.Nothing? ==> forall k :: from <= k ==> !Occurs(hay, needle, k)
    decreases |hay| - from
  {
    if from + |needle| > |hay| then Nothing
    else if hay[from..from + |needle|] == needle then Some(from)
    else Find(hay, needle, from + 1)
  }

  /** fn_strstr: a pointer into the first string at the match, or a STR value holding NULL. */
  function Strstr(a: Value, b: Value): Effect {
    var h, n := StrOf(a), StrOf(b);
    if h.Null? || n.Null? then UB
    else match Find(h.chars, n.chars, 0)
      case Some(k) => Push(Str(Ptr(Addr(h.addr.region, h.addr.offset + k), h.chars[k..])))
      case Nothing => Push(Str(Null))
  }

  /** fn_in: COMP(0, i, NUM, ==) for i = from, from + 1, ... until one holds. */
  function InFrom(lib: Libc, args: seq<Value>, from: nat): Option<bool>
    requires 1 <= from <= |args|
    decreases |args| - from
  {
    if from == |args| then Some(false)
    else match Compare(lib, Equal, args[0], args[from])
      case Nothing => Nothing
      case Some(true) => Some(true)
      case Some(false) => InFrom(lib, args, from + 1)
  }

  /** fn_substr; a scratch block receives the characters when there are any to copy. */
  function Substr(lib: Libc, args: seq<Value>): Effect
    requires |args| == 2 || |args| == 3
  {
    var str := StrOf(args[0]);
    if str.Null? then Push(Str(EmptyString))
    else
      var len := |str.chars|;
      match LongOf(lib, args[1])
      case Nothing => UB
      case Some(o) =>
        var off := if o < 0 then o + len else o;
        if off >= len || off < 0 then Push(Str(EmptyString))
        else
          var sub := if |args| == 3 then LongOf(lib, args[2]) else Some(len);
          if sub.Nothing? then UB
          else
            var sublen := if sub.value > len - off then len - off else sub.value;
            if sublen < 0 then UB else PushScratch(str.chars[off..off + sublen])
  }

  /** FUNC_OPT: call the registry entry with argc = nparam; each fn_* asserts its argc. */
  function CallFunction(lib: Libc, id: nat, args: seq<Value>): Effect {
    var argc := |args|;
    if id == STRCMP then
      if argc != 2 then Abort
      else if StrOf(args[0]).Null? || StrOf(args[1]).Null? then UB
      else Push(Num(StrCmp(StrOf(args[0]).chars, StrOf(args[1]).chars) as real))
    else if id == STRLEN then
      if argc != 1 then Abort
      else if StrOf(args[0]).Null? then UB
      else Push(Num(|StrOf(args[0]).chars| as real))
    else if id == STRSTR then
      if argc != 2 then Abort else Strstr(args[0], args[1])
    else if id == POW then
      if argc != 2 then Abort else Push(Num(lib.pow(NumOf(lib, args[0]), NumOf(lib, args[1]))))
    else if id == IN then
      if argc < 2 then Abort
      else (match InFrom(lib, args, 1) case Some(c) => Push(Num(BoolNum(c))) case Nothing => UB)
    else if id == CASE then
      if argc != 3 then Abort else Push(if IsFalse(args[0]) then args[2] else args[1])
    else if id == TIME then
      if argc != 0 then Abort else Push(Num(lib.now))
    else if id == SUBSTR then
      if argc != 2 && argc != 3 then Abort else Substr(lib, args)
    else UB
  }

  /** FETCH_OPT: ask the host; TV_NONE (or no fetcher) makes the name itself the value. */
  function Fetch(fetch: Option<Fetcher>, at: nat, name: seq<char>): (v: Value)
    ensures v != Unset
    ensures fetch.Nothing? ==> v == Str(Ptr(Addr(LiteralBuffer, at), name))
    ensures fetch.Some? && fetch.value(name) != Unset ==> v == fetch.value(name)
    ensures fetch.Some? && fetch.value(name) == Unset ==> v == Str(Ptr(Addr(LiteralBuffer, at), name))
  {
    var got := if fetch.Some? then fetch.value(name) else Unset;
    if got.Unset? then Str(Ptr(Addr(LiteralBuffer, at), name)) else got
  }

  /** An instruction as express_create leaves it: names and literals carry their buffer text. */
  predicate Runnable(t: Token) {
    && (t.kind == NumLit ==> t.payload.Literal?)
    && (t.kind == Ident || t.kind == StrLit ==> t.payload.Text?)
    && (IsOperator(t.kind) ==> t.nparam == TokenParams(t.kind))
  }

  /** One instruction of express_calculate's switch, applied to arg[0 .. nparam). */
  function Apply(lib: Libc, fetch: Option<Fetcher>, t: Token, args: seq<Value>): Effect
    requires Runnable(t) && |args| == t.nparam
  {
    match t.kind
    case NumLit => Push(Num(t.payload.value))
    case StrLit => Push(Str(Ptr(Addr(LiteralBuffer, t.payload.at), t.payload.chars)))
    case Ident => Push(Fetch(fetch, t.payload.at, t.payload.chars))
    case Func => CallFunction(lib, t.subtype, args)
    case Invalid | Beg | End | Sep => Abort
    case _ => Operate(lib, t.kind, args)
  }

  // ---------------------------------------------------------------- properties

  /**
   * Each fn_* asserts exactly the argument counts its registry entry allows: a call aborts if
   * and only if its count lies outside [min, max] of token_funcs.
   */
  lemma CallAbortsIffOutOfRange(lib: Libc, id: nat, args: seq<Value>)
    requires 1 <= id < FUNC_COUNT && |args| <= SIZE_MAX
    ensures CallFunction(lib, id, args).Abort? <==> !(FuncMin(id) <= |args| <= FuncMax(id))
  {
  }

  /** Shifting left and back right gives the number back whenever the left shift is defined. */
  lemma ShiftRoundTrip(a: int, b: int)
    requires ShiftLeftLong(a, b).Some?
    ensures ShiftRightLong(ShiftLeftLong(a, b).value, b) == Some(a)
  {
    MulDiv(a, Pow2(b));
  }

  lemma MulDiv(a: int, p: int)
    requires p > 0
    ensures (a * p) / p == a
  {
    var q, r := (a * p) / p, (a * p) % p;
    assert (a - q) * p == r;
    if a - q >= 1 {
      assert false;
    } else if a - q <= -1 {
      assert false;
    }
  }

  lemma {:induction false} BitsCommute(op: BitOp, a: nat, b: nat, n: nat)
    ensures Bits(op, a, b, n) == Bits(op, b, a, n)
  {
    if n > 0 {
      BitsCommute(op, a / 2, b / 2, n - 1);
    }
  }

  /** &, ^ and | on long do not depend on the order of their operands. */
  lemma BitwiseCommutes(op: BitOp, x: int, y: int)
    requires InLong(x) && InLong(y)
    ensures Bitwise(op, x, y) == Bitwise(op, y, x)
  {
    BitsCommute(op, Unsigned(x), Unsigned(y), 64);
  }

  /** fn_strstr on a match: a pointer into the first string at the first occurrence of the
      second, its text the rest of the first string from there. On a miss: a NULL string. */
  lemma StrstrFindsFirst(a: Value, b: Value)
    requires StrOf(a).Ptr? && StrOf(b).Ptr?
    ensures var h, n, r := StrOf(a), StrOf(b), Strstr(a, b);
      && r.Push? && r.v.Str?
      && (r.v.str.Null? <==> forall k :: !Occurs(h.chars, n.chars, k))
      && (r.v.str.Ptr? ==>
            var k := r.v.str.addr.offset - h.addr.offset;
            && r.v.str.addr.region == h.addr.region && 0 <= k
            && Occurs(h.chars, n.chars, k) && r.v.str.chars == h.chars[k..]
            && forall j :: 0 <= j < k ==> !Occurs(h.chars, n.chars, j))
  {
    var h, n := StrOf(a), StrOf(b);
    var f := Find(h.chars, n.chars, 0);
    if f.Some? {
      assert Occurs(h.chars, n.chars, f.value);
    }
  }

  /** fn_substr with an offset and no length: the rest of the string from the offset; a negative
      offset counts from the end. */
  lemma SubstrSuffix(lib: Libc, a: Value, o: Value, off: int)
    requires StrOf(a).Ptr? && LongOf(lib, o) == Some(off)
    requires -|StrOf(a).chars| <= off < |StrOf(a).chars|
    ensures var cs := StrOf(a).chars;
      Substr(lib, [a, o]) == PushScratch(if off < 0 then cs[|cs| + off..] else cs[off..])
  {
  }

  /** fn_substr(s, 0, k) and fn_substr(s, k) split a string of more than k characters in two. */
  lemma SubstrSplits(lib: Libc, a: Value, zero: Value, k: Value, n: int)
    requires StrOf(a).Ptr? && LongOf(lib, zero) == Some(0) && LongOf(lib, k) == Some(n)
    requires 0 < n < |StrOf(a).chars|
    ensures Substr(lib, [a, zero, k]).PushScratch? && Substr(lib, [a, k]).PushScratch?
    ensures Substr(lib, [a, zero, k]).chars + Substr(lib, [a, k]).chars == StrOf(a).chars
  {
    var cs := StrOf(a).chars;
    assert cs[0..n] + cs[n..] == cs;
  }

  /** fn_substr never reads outside its string: the copy is a window of it, possibly empty. */
  lemma SubstrWindow(lib: Libc, args: seq<Value>)
    requires |args| == 2 || |args| == 3
    requires Substr(lib, args).PushScratch?
    ensures exists off: nat :: off < |StrOf(args[0]).chars| && Occurs(StrOf(args[0]).chars, Substr(lib, args).chars, off)
  {
    var cs := StrOf(args[0]).chars;
    var o := LongOf(lib, args[1]).value;
    var off := if o < 0 then o + |cs| else o;
    assert Occurs(cs, Substr(lib, args).chars, off);
  }

  /** fn_substr on a NULL string, or from an offset at or past the end: the static "". */
  lemma SubstrOutOfRange(lib: Libc, args: seq<Value>)
    requires |args| == 2 || |args| == 3
    requires StrOf(args[0]).Null? || (LongOf(lib, args[1]).Some? && LongOf(lib, args[1]).value >= |StrOf(args[0]).chars|)
    ensures Substr(lib, args) == Push(Str(EmptyString))
  {
  }

  /** fn_substr from an offset still negative once the length is added: the static "". */
  lemma SubstrBelowStart(lib: Libc, args: seq<Value>)
    requires |args| == 2 || |args| == 3
    requires StrOf(args[0]).Ptr? && LongOf(lib, args[1]).Some?
    requires LongOf(lib, args[1]).value < -|StrOf(args[0]).chars|
    ensures Substr(lib, args) == Push(Str(EmptyString))
  {
  }

  /**
   * fn_substr with a length: the window from the offset (a negative one counting from the end)
   * of at most n characters, cut at the end of the string; a negative n is undefined, since
   * express_alloc would be asked for n + 1 bytes and memcpy for n.
   */
  lemma SubstrThreeArgs(lib: Libc, a: Value, o: Value, l: Value, off: int, n: int)
    requires StrOf(a).Ptr? && LongOf(lib, o) == Some(off) && LongOf(lib, l) == Some(n)
    requires -|StrOf(a).chars| <= off < |StrOf(a).chars|
    ensures var cs := StrOf(a).chars;
      var start := if off < 0 then off + |cs| else off;
      Substr(lib, [a, o, l]) ==
        if n < 0 then UB
        else PushScratch(cs[start..start + (if n < |cs| - start then n else |cs| - start)])
  {
  }

  /** fn_in on numbers: true exactly when some later argument equals the first. */
  lemma {:induction false} InNumbers(lib: Libc, args: seq<Value>, from: nat)
    requires 1 <= from <= |args| && forall j :: 0 <= j < |args| ==> args[j].Num?
    ensures InFrom(lib, args, from) == Some(exists j :: from <= j < |args| && args[j].num == args[0].num)
    decreases |args| - from
  {
    if from < |args| {
      InNumbers(lib, args, from + 1);
      assert args[from].num == args[0].num ==> from <= from < |args| && args[from].num == args[0].num;
    }
  }

  /** fn_case tests its condition as `!` does: an empty string counts as true. */
  lemma CaseEmptyIsTrue(lib: Libc, x: Value, y: Value)
    ensures CallFunction(lib, CASE, [Str(EmptyString), x, y]) == Push(x)
    ensures CallFunction(lib, CASE, [Str(Null), x, y]) == Push(y)
    ensures CallFunction(lib, CASE, [Num(0.0), x, y]) == Push(y)
  {
  }

  /** `!!v` is 1 exactly for the values fn_case takes as true. */
  lemma NotNot(lib: Libc, v: Value)
    ensures var once := Operate(lib, Not, [v]);
      once.Push? && Operate(lib, Not, [once.v]) == Push(Num(BoolNum(!IsFalse(v))))
  {
  }

  /** No instruction leaves TV_NONE behind when none of its operands is TV_NONE. */
  lemma ApplyNeverUnset(lib: Libc, fetch: Option<Fetcher>, t: Token, args: seq<Value>)
    requires Runnable(t) && |args| == t.nparam && Unset !in args
    ensures Apply(lib, fetch, t, args).Push? ==> Apply(lib, fetch, t, args).v != Unset
  {
    if t.kind == Func && t.subtype == CASE && |args| == 3 {
      assert args[1] != Unset && args[2] != Unset;
    }
  }
}
