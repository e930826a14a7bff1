/**
 * The shunting-yard compiler of express.c: opera_push, argument_push, parenth_end, the
 * express_parse driver and the check_RPN validator. The output (`rpn`) and the working stack
 * (`stack`) are growable token buffers, modelled as sequences whose last element is the top.
 */
module Compiler {
  import opened Wrappers
  import opened Values
  import opened Tokens
  import opened Scanner

  function Top(st: seq<Token>): Token
    requires |st| > 0
  {
    st[|st| - 1]
  }

  function Pop(st: seq<Token>): seq<Token>
    requires |st| > 0
  {
    st[..|st| - 1]
  }

  /** The order in which popping a stack segment appends it to the output: top first. */
  function Reverse(st: seq<Token>): (r: seq<Token>)
    ensures |r| == |st|
    ensures forall i :: 0 <= i < |st| ==> r[i] == st[|st| - 1 - i]
    decreases |st|
  {
    if st == [] then [] else [Top(st)] + Reverse(Pop(st))
  }

  lemma ReverseSplit(st: seq<Token>, j: nat)
    requires j < |st|
    ensures Reverse(st[j..]) == [Top(st)] + Reverse(Pop(st)[j..])
  {
    assert Pop(st[j..]) == Pop(st)[j..];
  }

  /** Emitting the top of the stack, then the rest above j reversed, emits the part above j
      reversed. */
  lemma ReverseAppendTop(rpn: seq<Token>, stack: seq<Token>, j: nat)
    requires j < |stack|
    ensures rpn + [Top(stack)] + Reverse(Pop(stack)[j..]) == rpn + Reverse(stack[j..])
  {
    var rest := Reverse(Pop(stack)[j..]);
    ReverseSplit(stack, j);
    assert rpn + [Top(stack)] + rest == rpn + ([Top(stack)] + rest);
  }

  /** Popping the top leaves every entry below it. */
  lemma PopKeepsBelow(st: seq<Token>, j: nat)
    requires j < |st|
    ensures Pop(st)[..j] == st[..j]
  {
  }

  /** The index of the topmost `(` on the working stack, if any. */
  function NearestOpen(st: seq<Token>): (r: Option<nat>)
    ensures r.Some? ==> r.value < |st| && st[r.value].kind == Beg
    ensures r.Some? ==> forall i :: r.value < i < |st| ==> st[i].kind != Beg
    ensures r.Nothing? ==> forall i :: 0 <= i < |st| ==> st[i].kind != Beg
    decreases |st|
  {
    if st == [] then Nothing
    else if Top(st).kind == Beg then Some(|st| - 1)
    else NearestOpen(Pop(st))
  }

  // ---------------------------------------------------------------- opera_push

  /** The token opera_push pushes: the operator with its arity from token_params. */
  function OperatorToken(k: Kind): Token {
    Token(k, TokenParams(k), 0, NoPayload)
  }

  /** opera_push: pop to the output every stacked entry the incoming operator gives way to. */
  function OperaPushSpec(k: Kind, rpn: seq<Token>, stack: seq<Token>): (r: (seq<Token>, seq<Token>))
    ensures |r.0| + |r.1| == |rpn| + |stack| + 1
    decreases |stack|
  {
    if |stack| > 0 && IsLow(k, Top(stack).kind) then OperaPushSpec(k, rpn + [Top(stack)], Pop(stack))
    else (rpn, stack + [OperatorToken(k)])
  }

  /** How many stack entries stay below the incoming operator. */
  function Kept(k: Kind, stack: seq<Token>): (j: nat)
    ensures j <= |stack|
    ensures forall i :: j <= i < |stack| ==> IsLow(k, stack[i].kind)
    ensures j > 0 ==> !IsLow(k, stack[j - 1].kind)
    decreases |stack|
  {
    if |stack| > 0 && IsLow(k, Top(stack).kind) then Kept(k, Pop(stack)) else |stack|
  }

  /**
   * Operator push order: the maximal run at the top of the stack whose entries bind at least
   * as tightly (strictly more tightly for `!` and `~`) moves to the output, top first; then the
   * operator is pushed with its arity.
   */
  lemma {:induction false} OperaPushMoves(k: Kind, rpn: seq<Token>, stack: seq<Token>)
    ensures OperaPushSpec(k, rpn, stack)
      == (rpn + Reverse(stack[Kept(k, stack)..]), stack[..Kept(k, stack)] + [OperatorToken(k)])
    decreases |stack|
  {
    if |stack| > 0 && IsLow(k, Top(stack).kind) {
      var j := Kept(k, stack);
      OperaPushMoves(k, rpn + [Top(stack)], Pop(stack));
      ReverseAppendTop(rpn, stack, j);
      PopKeepsBelow(stack, j);
    } else {
      NothingMoved(rpn, stack);
    }
  }

  lemma NothingMoved(rpn: seq<Token>, stack: seq<Token>)
    ensures rpn + Reverse(stack[|stack|..]) == rpn && stack[..|stack|] == stack
  {
    assert stack[|stack|..] == [];
  }

  /** An operator never pops a `(`: everything up to the topmost `(` stays on the stack. */
  lemma OperaPushStopsAtOpen(k: Kind, stack: seq<Token>)
    requires IsOperator(k) && NearestOpen(stack).Some?
    ensures Kept(k, stack) > NearestOpen(stack).value
    decreases |stack|
  {
    IsLowByAssociativity(k, Beg);
    if Top(stack).kind != Beg && IsLow(k, Top(stack).kind) {
      OperaPushStopsAtOpen(k, Pop(stack));
    }
  }

  method OperaPush(k: Kind, rpn: seq<Token>, stack: seq<Token>) returns (rpn': seq<Token>, stack': seq<Token>)
    ensures (rpn', stack') == OperaPushSpec(k, rpn, stack)
  {
    rpn', stack' := rpn, stack;
    while |stack'| > 0 && IsLow(k, stack'[|stack'| - 1].kind)
      invariant OperaPushSpec(k, rpn', stack') == OperaPushSpec(k, rpn, stack)
      decreases |stack'|
    {
      rpn' := rpn' + [stack'[|stack'| - 1]];
      stack' := stack'[..|stack'| - 1];
    }
    stack' := stack' + [OperatorToken(k)];
  }

  // ---------------------------------------------------------------- argument_push

  /** `nparam++` on a function token (an unsigned char). */
  function Bump(t: Token): Token {
    t.(nparam := IncByte(t.nparam))
  }

  /**
   * argument_push (a `,`): pop operators down to the nearest `(`, then count one more
   * argument for the function token directly beneath it; fail when there is none.
   */
  function ArgumentPushSpec(rpn: seq<Token>, stack: seq<Token>): (r: Option<(seq<Token>, seq<Token>)>)
    ensures r.Some? ==> |r.value.0| + |r.value.1| == |rpn| + |stack|
    decreases |stack|
  {
    if |stack| > 0 && Top(stack).kind != Beg then ArgumentPushSpec(rpn + [Top(stack)], Pop(stack))
    else if |stack| < 2 || stack[|stack| - 2].kind != Func then Nothing
    else Some((rpn, stack[|stack| - 2 := Bump(stack[|stack| - 2])]))
  }

  /**
   * A comma succeeds exactly when a function token sits directly beneath the nearest `(`; the
   * operators above that `(` move to the output top first and the function's count goes up.
   */
  lemma {:induction false} ArgumentPushCounts(rpn: seq<Token>, stack: seq<Token>)
    ensures ArgumentPushSpec(rpn, stack).Some? <==>
      NearestOpen(stack).Some? && NearestOpen(stack).value >= 1
      && stack[NearestOpen(stack).value - 1].kind == Func
    ensures ArgumentPushSpec(rpn, stack).Some? ==>
      var b := NearestOpen(stack).value;
      b >= 1 &&
      ArgumentPushSpec(rpn, stack).value
        == (rpn + Reverse(stack[b + 1..]), stack[..b - 1] + [Bump(stack[b - 1]), stack[b]])
    decreases |stack|
  {
    if |stack| > 0 && Top(stack).kind != Beg {
      ArgumentPushCounts(rpn + [Top(stack)], Pop(stack));
      if NearestOpen(stack).Some? && NearestOpen(stack).value >= 1 {
        OpenBelowTop(stack, NearestOpen(stack).value);
        ReverseAppendTop(rpn, stack, NearestOpen(stack).value + 1);
      }
    } else if |stack| >= 2 && stack[|stack| - 2].kind == Func {
      var b := |stack| - 1;
      assert NearestOpen(stack) == Some(b);
      assert stack[b + 1..] == [] && Reverse(stack[b + 1..]) == [];
      assert rpn + Reverse(stack[b + 1..]) == rpn;
      assert stack[b - 1 := Bump(stack[b - 1])] == stack[..b - 1] + [Bump(stack[b - 1]), stack[b]];
    }
  }

  /** Moving the top operator to the output leaves the nearest `(` and what lies below it. */
  lemma OpenBelowTop(stack: seq<Token>, b: nat)
    requires |stack| > 0 && Top(stack).kind != Beg && NearestOpen(stack) == Some(b) && b >= 1
    ensures NearestOpen(Pop(stack)) == Some(b)
    ensures Pop(stack)[..b - 1] == stack[..b - 1]
    ensures Pop(stack)[b] == stack[b] && Pop(stack)[b - 1] == stack[b - 1]
  {
    assert Pop(stack)[..b - 1] == stack[..b - 1];
  }

  method ArgumentPush(rpn: seq<Token>, stack: seq<Token>) returns (r: Option<(seq<Token>, seq<Token>)>)
    ensures r == ArgumentPushSpec(rpn, stack)
  {
    var out, st := rpn, stack;
    while |st| > 0
      invariant ArgumentPushSpec(out, st) == ArgumentPushSpec(rpn, stack)
      decreases |st|
    {
      if st[|st| - 1].kind == Beg {
        break;
      }
      out := out + [st[|st| - 1]];
      st := st[..|st| - 1];
    }
    if |st| < 2 || st[|st| - 2].kind != Func {
      return Nothing;
    }
    r := Some((out, st[|st| - 2 := Bump(st[|st| - 2])]));
  }

  // ---------------------------------------------------------------- parenth_end

  /** parenth_end's `nparam += (last != OP_BEG)`: `f()` keeps the count at 0. */
  function Close(t: Token, last: Kind): Token {
    if last != Beg then Bump(t) else t
  }

  /**
   * parenth_end (a `)`): pop operators down to the nearest `(` and drop it; a function token
   * beneath it gets its last argument counted and moves to the output. Fails with no `(`.
   */
  function ParenthEndSpec(last: Kind, rpn: seq<Token>, stack: seq<Token>): (r: Option<(seq<Token>, seq<Token>)>)
    ensures r.Some? ==> |r.value.0| + |r.value.1| + 1 == |rpn| + |stack|
    decreases |stack|
  {
    if |stack| == 0 then Nothing
    else if Top(stack).kind != Beg then ParenthEndSpec(last, rpn + [Top(stack)], Pop(stack))
    else
      var ss := |stack| - 1;
      if ss > 0 && stack[ss - 1].kind == Func then Some((rpn + [Close(stack[ss - 1], last)], stack[..ss - 1]))
      else Some((rpn, stack[..ss]))
  }

  /** What a `)` leaves when the topmost `(` is at index b. */
  function ClosedAt(last: Kind, rpn: seq<Token>, stack: seq<Token>, b: nat): (seq<Token>, seq<Token>)
    requires b < |stack|
  {
    if b >= 1 && stack[b - 1].kind == Func
    then (rpn + Reverse(stack[b + 1..]) + [Close(stack[b - 1], last)], stack[..b - 1])
    else (rpn + Reverse(stack[b + 1..]), stack[..b])
  }

  /** A `)` succeeds exactly when the stack holds a `(`. */
  lemma {:induction false} ParenthEndNeedsOpen(last: Kind, rpn: seq<Token>, stack: seq<Token>)
    ensures ParenthEndSpec(last, rpn, stack).Some? <==> NearestOpen(stack).Some?
    decreases |stack|
  {
    if |stack| > 0 && Top(stack).kind != Beg {
      ParenthEndNeedsOpen(last, rpn + [Top(stack)], Pop(stack));
    }
  }

  lemma ClosedAtShift(last: Kind, rpn: seq<Token>, stack: seq<Token>, b: nat)
    requires b + 1 < |stack|
    ensures ClosedAt(last, rpn + [Top(stack)], Pop(stack), b) == ClosedAt(last, rpn, stack, b)
  {
    ReverseAppendTop(rpn, stack, b + 1);
    assert Pop(stack)[..b] == stack[..b];
    if b >= 1 {
      assert Pop(stack)[..b - 1] == stack[..b - 1];
    }
  }

  lemma ClosedAtTop(last: Kind, rpn: seq<Token>, stack: seq<Token>)
    requires |stack| > 0 && Top(stack).kind == Beg
    ensures ParenthEndSpec(last, rpn, stack) == Some(ClosedAt(last, rpn, stack, |stack| - 1))
  {
    var b := |stack| - 1;
    assert stack[b + 1..] == [] && Reverse(stack[b + 1..]) == [];
    assert rpn + Reverse(stack[b + 1..]) == rpn;
  }

  /**
   * The operators above the topmost `(` move to the output top first, the `(` is dropped, and
   * the function beneath it (if any) follows with its final argument count.
   */
  lemma {:induction false} ParenthEndCloses(last: Kind, rpn: seq<Token>, stack: seq<Token>)
    requires NearestOpen(stack).Some?
    ensures ParenthEndSpec(last, rpn, stack) == Some(ClosedAt(last, rpn, stack, NearestOpen(stack).value))
    decreases |stack|
  {
    var b := NearestOpen(stack).value;
    if Top(stack).kind != Beg {
      assert NearestOpen(Pop(stack)) == Some(b);
      ParenthEndCloses(last, rpn + [Top(stack)], Pop(stack));
      ClosedAtShift(last, rpn, stack, b);
    } else {
      ClosedAtTop(last, rpn, stack);
    }
  }

  method ParenthEnd(last: Kind, rpn: seq<Token>, stack: seq<Token>) returns (r: Option<(seq<Token>, seq<Token>)>)
    ensures r == ParenthEndSpec(last, rpn, stack)
  {
    var out, ss := rpn, |stack|;
    assert stack[..ss] == stack;
    while ss > 0
      invariant 0 <= ss <= |stack|
      invariant ParenthEndSpec(last, out, stack[..ss]) == ParenthEndSpec(last, rpn, stack)
      decreases ss
    {
      if stack[ss - 1].kind == Beg {
        break;
      }
      out := out + [stack[ss - 1]];
      ss := ss - 1;
      assert stack[..ss + 1][..ss] == stack[..ss];
    }
    if ss == 0 {
      return Nothing;
    }
    ghost var top := stack[..ss];
    ss := ss - 1;
    assert Pop(top) == stack[..ss];
    if ss > 0 && stack[ss - 1].kind == Func {
      out := out + [Close(stack[ss - 1], last)];
      ss := ss - 1;
      assert top[..ss] == stack[..ss];
    }
    r := Some((out, stack[..ss]));
  }

  // ---------------------------------------------------------------- what the compiler emits

  /** The span of a string literal as parse_str leaves it: both quotes inside the text and, for
      a double quote, the closing quote at or after the first unescaped one. */
  predicate StrSpan(s: seq<char>, pos: nat, len: nat) {
    && 2 <= len && pos + len <= |s|
    && (s[pos] == '\'' || s[pos] == '"') && s[pos + len - 1] == s[pos]
    && (s[pos] == '"' ==> QuoteScan(s, pos + 1).Some? && QuoteScan(s, pos + 1).value <= pos + len - 1)
  }

  /** The span of a variable name: a non-empty run of identifier characters. */
  predicate IdSpan(s: seq<char>, pos: nat, len: nat) {
    0 < len && pos + len <= |s| && forall k :: pos <= k < pos + len ==> IsIdentChar(s[k])
  }

  /** A token express_parse can leave in its buffers for the text s. */
  predicate Emitted(s: seq<char>, t: Token) {
    && t.kind != Invalid && t.kind != End && t.kind != Sep
    && (t.kind == NumLit ==> t.payload.Literal?)
    && (t.kind == Ident ==> t.payload.Span? && IdSpan(s, t.payload.pos, t.payload.len))
    && (t.kind == StrLit ==> t.payload.Span? && StrSpan(s, t.payload.pos, t.payload.len))
    && (t.kind == Func ==> 1 <= t.subtype < FUNC_COUNT)
    && (t.kind == Beg ==> t.nparam == 0)
    && (IsOperator(t.kind) ==> t.nparam == TokenParams(t.kind))
    && (IsOperand(t.kind) ==> t.nparam == 0)
  }

  predicate AllEmitted(s: seq<char>, ts: seq<Token>) {
    forall i :: 0 <= i < |ts| ==> Emitted(s, ts[i])
  }

  lemma AllEmittedReverse(s: seq<char>, ts: seq<Token>, j: nat)
    requires AllEmitted(s, ts) && j <= |ts|
    ensures AllEmitted(s, Reverse(ts[j..])) && AllEmitted(s, ts[..j])
  {
  }

  lemma OperaPushEmits(s: seq<char>, k: Kind, rpn: seq<Token>, stack: seq<Token>)
    requires IsOperator(k) && AllEmitted(s, rpn) && AllEmitted(s, stack)
    ensures AllEmitted(s, OperaPushSpec(k, rpn, stack).0) && AllEmitted(s, OperaPushSpec(k, rpn, stack).1)
  {
    OperaPushMoves(k, rpn, stack);
    AllEmittedReverse(s, stack, Kept(k, stack));
  }

  lemma ArgumentPushEmits(s: seq<char>, rpn: seq<Token>, stack: seq<Token>)
    requires AllEmitted(s, rpn) && AllEmitted(s, stack) && ArgumentPushSpec(rpn, stack).Some?
    ensures AllEmitted(s, ArgumentPushSpec(rpn, stack).value.0)
    ensures AllEmitted(s, ArgumentPushSpec(rpn, stack).value.1)
  {
    ArgumentPushCounts(rpn, stack);
    var b := NearestOpen(stack).value;
    AllEmittedReverse(s, stack, b + 1);
    AllEmittedReverse(s, stack, b - 1);
  }

  lemma ParenthEndEmits(s: seq<char>, last: Kind, rpn: seq<Token>, stack: seq<Token>)
    requires AllEmitted(s, rpn) && AllEmitted(s, stack) && ParenthEndSpec(last, rpn, stack).Some?
    ensures AllEmitted(s, ParenthEndSpec(last, rpn, stack).value.0)
    ensures AllEmitted(s, ParenthEndSpec(last, rpn, stack).value.1)
  {
    ParenthEndNeedsOpen(last, rpn, stack);
    ParenthEndCloses(last, rpn, stack);
    var b := NearestOpen(stack).value;
    AllEmittedReverse(s, stack, b + 1);
    AllEmittedReverse(s, stack, b);
    if b >= 1 {
      AllEmittedReverse(s, stack, b - 1);
    }
  }

  // ---------------------------------------------------------------- check_RPN

  /** What an instruction does to the operand count: +1 for an operand, 1 - nparam otherwise
      (so +1 for any other token whose nparam is 0, such as a drained `(`). */
  function Delta(t: Token): int {
    if IsOperand(t.kind) then 1 else 1 - t.nparam
  }

  /** The operand count after running a prefix of the output. */
  function Depth(rpn: seq<Token>): int
    decreases |rpn|
  {
    if rpn == [] then 0 else Depth(Pop(rpn)) + Delta(Top(rpn))
  }

  /** An instruction may run at a given count: enough operands, and a function's count lies
      in its registry range. */
  predicate ArityOk(t: Token, depth: int) {
    IsOperand(t.kind)
    || (t.nparam <= depth && (t.kind == Func ==> FuncMin(t.subtype) <= t.nparam <= FuncMax(t.subtype)))
  }

  /** Instruction i may run after the ones before it. */
  predicate ArityOkAt(rpn: seq<Token>, i: nat)
    requires i < |rpn|
  {
    ArityOk(rpn[i], Depth(rpn[..i]))
  }

  /** The validator's verdict, stated declaratively. */
  predicate Accepts(rpn: seq<Token>) {
    && (forall i :: 0 <= i < |rpn| ==> ArityOkAt(rpn, i))
    && Depth(rpn) == 1
  }

  /** One more instruction changes the count by its delta. */
  lemma DepthSnoc(rpn: seq<Token>, i: nat)
    requires i < |rpn|
    ensures Depth(rpn[..i + 1]) == Depth(rpn[..i]) + Delta(rpn[i])
  {
    assert Pop(rpn[..i + 1]) == rpn[..i];
  }

  /**
   * `n -= m - 1` on a size_t n: the int m - 1 is converted to size_t (so -1 becomes SIZE_MAX)
   * and the difference is taken modulo 2^64. For m == 0 that subtracts SIZE_MAX, which adds 1
   * only through the wrap-around.
   */
  function SizeSub(n: int, m: int): (r: int)
    requires 0 <= n < SIZE_MOD && 0 <= m < SIZE_MOD
    ensures 0 <= r < SIZE_MOD
    ensures m <= n + 1 && n - m + 1 < SIZE_MOD ==> r == n - m + 1
  {
    (n - ((m - 1) % SIZE_MOD)) % SIZE_MOD
  }

  /**
   * check_RPN: replay the output with a size_t operand counter. `nparam -= t->nparam - 1`
   * subtracts an int converted to size_t, so for nparam 0 it subtracts SIZE_MAX: +1 modulo 2^64.
   */
  method CheckRpn(rpn: seq<Token>) returns (ok: bool)
    requires |rpn| < SIZE_MOD
    ensures ok <==> Accepts(rpn)
  {
    var n := 0;
    var i := 0;
    while i < |rpn|
      invariant 0 <= i <= |rpn|
      invariant n == Depth(rpn[..i]) && 0 <= n <= i
      invariant forall j :: 0 <= j < i ==> ArityOkAt(rpn, j)
    {
      var t := rpn[i];
      DepthSnoc(rpn, i);
      if IsOperand(t.kind) {
        n := (n + 1) % SIZE_MOD;
      } else {
        if n < t.nparam {
          assert !ArityOkAt(rpn, i);
          return false;
        }
        if t.kind == Func && (t.nparam < FuncMin(t.subtype) || t.nparam > FuncMax(t.subtype)) {
          assert !ArityOkAt(rpn, i);
          return false;
        }
        n := SizeSub(n, t.nparam);
      }
      assert ArityOkAt(rpn, i);
      i := i + 1;
    }
    assert rpn[..i] == rpn;
    ok := n == 1;
  }

  /**
   * Stack discipline of an accepted output: the operand count never drops below zero, never
   * exceeds the number of instructions run, is positive after every instruction and ends at 1.
   */
  lemma {:induction false} AcceptedDepth(rpn: seq<Token>, i: nat)
    requires Accepts(rpn) && i <= |rpn|
    ensures 0 <= Depth(rpn[..i]) <= i
    ensures i > 0 ==> Depth(rpn[..i]) >= 1
  {
    if i > 0 {
      AcceptedDepth(rpn, i - 1);
      DepthSnoc(rpn, i - 1);
      assert ArityOkAt(rpn, i - 1);
    }
  }

  /** Two outputs with the same kinds, argument counts and function ids, whatever the payloads. */
  predicate SameShape(a: seq<Token>, b: seq<Token>) {
    |a| == |b| && forall i :: 0 <= i < |a| ==>
      a[i].kind == b[i].kind && a[i].nparam == b[i].nparam && a[i].subtype == b[i].subtype
  }

  lemma {:induction false} SameShapeDepth(a: seq<Token>, b: seq<Token>)
    requires SameShape(a, b)
    ensures Depth(a) == Depth(b)
    decreases |a|
  {
    if a != [] {
      SameShapeDepth(Pop(a), Pop(b));
    }
  }

  /** check_RPN looks only at kinds, counts and function ids: payloads do not matter. */
  lemma SameShapeAccepts(a: seq<Token>, b: seq<Token>)
    requires SameShape(a, b)
    ensures Accepts(a) <==> Accepts(b)
  {
    forall i | 0 <= i <= |a|
      ensures Depth(a[..i]) == Depth(b[..i])
    {
      SameShapeDepth(a[..i], b[..i]);
    }
    SameShapeDepth(a, b);
    if Accepts(a) {
      forall i | 0 <= i < |b| ensures ArityOkAt(b, i) {
        assert ArityOkAt(a, i);
      }
    }
    if Accepts(b) {
      forall i | 0 <= i < |a| ensures ArityOkAt(a, i) {
        assert ArityOkAt(b, i);
      }
    }
  }

  // ---------------------------------------------------------------- express_parse

  /** The result of compiling: the validated output, a compile failure, or the endless loop
      parse_id's empty identifier sends express_parse into. */
  datatype Outcome = Accepted(rpn: seq<Token>) | Rejected | Stalls

  /** The end of input: fail on a `(` at the top, drain the stack top first, validate. */
  function Finish(rpn: seq<Token>, stack: seq<Token>): (o: Outcome)
    ensures o.Accepted? ==> o.rpn == rpn + Reverse(stack) && Accepts(o.rpn)
    ensures o.Accepted? <==> !(|stack| > 0 && Top(stack).kind == Beg) && Accepts(rpn + Reverse(stack))
    ensures o != Stalls
  {
    if |stack| > 0 && Top(stack).kind == Beg then Rejected
    else if Accepts(rpn + Reverse(stack)) then Accepted(rpn + Reverse(stack))
    else Rejected
  }

  datatype StepResult =
    | Continue(pos: nat, last: Kind, rpn: seq<Token>, stack: seq<Token>)
    | Halt(outcome: Outcome)

  /** The token pushed for a `(`: OP_BEG with nparam 0, as token_pushback zeroes it. */
  const OpenToken: Token := Token(Beg, 0, 0, NoPayload)

  /** The loop body for an identifier, a number or a string literal at the cursor. */
  function OperandStep(lib: Libc, s: seq<char>, p: nat, k: Kind, rpn: seq<Token>, stack: seq<Token>): (r: StepResult)
    requires ScansWithin(lib) && p < |s| && k in {Ident, NumLit, StrLit}
    requires k == StrLit ==> s[p] == '\'' || s[p] == '"'
    ensures r.Continue? ==> p < r.pos <= |s| && |r.rpn| + |r.stack| == |rpn| + |stack| + 1
    ensures r.Halt? ==> !r.outcome.Accepted?
  {
    if k == Ident then
      match ParseId(s, p)
      case UnknownFunction => Halt(Rejected)
      case Call(t, next) => Continue(next, Func, rpn, stack + [t])
      case Variable(t, next) => if next == p then Halt(Stalls) else Continue(next, Ident, rpn + [t], stack)
    else if k == NumLit then
      var n := ParseNumber(lib, s, p);
      if n.Nothing? then Halt(Rejected) else Continue(n.value.1, NumLit, rpn + [n.value.0], stack)
    else
      var t := ParseStr(s, p);
      if t.Nothing? then Halt(Rejected) else Continue(t.value.1, StrLit, rpn + [t.value.0], stack)
  }

  /** The loop body for a bracket, a comma, an operator or an unrecognised character. */
  function SymbolStep(s: seq<char>, p: nat, k: Kind, last: Kind, rpn: seq<Token>, stack: seq<Token>): (r: StepResult)
    requires p + TokenLen(k) <= |s| && k != Ident && k != NumLit && k != StrLit
    ensures r.Continue? ==> p < r.pos <= |s| && |r.rpn| + |r.stack| <= |rpn| + |stack| + 1
    ensures r.Halt? ==> !r.outcome.Accepted?
  {
    if k == Sep then
      var a := ArgumentPushSpec(rpn, stack);
      if a.Nothing? then Halt(Rejected) else Continue(p + 1, Sep, a.value.0, a.value.1)
    else if k == End then
      var a := ParenthEndSpec(last, rpn, stack);
      if a.Nothing? then Halt(Rejected) else Continue(p + 1, End, a.value.0, a.value.1)
    else if k == Beg then Continue(p + 1, Beg, rpn, stack + [OpenToken])
    else if k == Invalid || k == Func then Halt(Rejected)
    else
      var a := OperaPushSpec(k, rpn, stack);
      Continue(p + TokenLen(k), k, a.0, a.1)
  }

  /** One iteration of express_parse's loop body, from the cursor and the previous type. */
  function Step(lib: Libc, s: seq<char>, pos: nat, last: Kind, rpn: seq<Token>, stack: seq<Token>): (r: StepResult)
    requires ScansWithin(lib) && pos <= |s|
    ensures r.Continue? ==> pos < r.pos <= |s|
    ensures r.Continue? ==> |r.rpn| + |r.stack| <= |rpn| + |stack| + 1
    ensures r.Halt? && r.outcome.Accepted? ==> Accepts(r.outcome.rpn)
  {
    var p := SkipBlanks(s, pos);
    if p == |s| then Halt(Finish(rpn, stack))
    else
      var k := TokenType(s, p, last);
      if k in {Ident, NumLit, StrLit} then OperandStep(lib, s, p, k, rpn, stack)
      else SymbolStep(s, p, k, last, rpn, stack)
  }

  /** express_parse from a given loop state. */
  function Parse(lib: Libc, s: seq<char>, pos: nat, last: Kind, rpn: seq<Token>, stack: seq<Token>): Outcome
    requires ScansWithin(lib) && pos <= |s|
    decreases |s| - pos
  {
    match Step(lib, s, pos, last, rpn, stack)
    case Halt(o) => o
    case Continue(p, l, out, st) => Parse(lib, s, p, l, out, st)
  }

  /** express_parse on a whole expression (a C string: no NUL inside): empty buffers,
      previous type 0. */
  function Compile(lib: Libc, s: seq<char>): Outcome
    requires ScansWithin(lib) && IsCString(s)
  {
    Parse(lib, s, 0, Invalid, [], [])
  }

  /** The number token parse_number emits for a literal whose value strtod gives as v. */
  function NumToken(v: real): Token {
    Token(NumLit, 0, 0, Literal(v))
  }

  /** The loop goes on from wherever its body leaves the state. */
  lemma ParseContinues(lib: Libc, s: seq<char>, pos: nat, last: Kind, rpn: seq<Token>, stack: seq<Token>,
                       p: nat, l: Kind, out: seq<Token>, st: seq<Token>)
    requires ScansWithin(lib) && pos <= |s| && Step(lib, s, pos, last, rpn, stack) == Continue(p, l, out, st)
    ensures p <= |s| && Parse(lib, s, pos, last, rpn, stack) == Parse(lib, s, p, l, out, st)
  {
  }

  /** The loop body over a number literal: its token goes to the output. */
  lemma StepNumberAt(lib: Libc, s: seq<char>, pos: nat, last: Kind, rpn: seq<Token>, stack: seq<Token>, v: real, n: nat)
    requires ScansWithin(lib) && pos < |s| && !IsSpace(s[pos]) && TokenType(s, pos, last) == NumLit
    requires lib.strtod(s[pos..]) == (v, n) && n > 0
    ensures Step(lib, s, pos, last, rpn, stack) == Continue(pos + n, NumLit, rpn + [NumToken(v)], stack)
  {
    assert SkipBlanks(s, pos) == pos;
    assert ParseNumber(lib, s, pos) == Some((NumToken(v), pos + n));
  }

  /** A number literal strtod cannot convert fails the compile. */
  lemma ParseNumberFailsAt(lib: Libc, s: seq<char>, pos: nat, last: Kind, rpn: seq<Token>, stack: seq<Token>)
    requires ScansWithin(lib) && pos < |s| && !IsSpace(s[pos]) && TokenType(s, pos, last) == NumLit
    requires lib.strtod(s[pos..]).1 == 0
    ensures Parse(lib, s, pos, last, rpn, stack) == Rejected
  {
    assert SkipBlanks(s, pos) == pos;
    assert ParseNumber(lib, s, pos).Nothing?;
    assert Step(lib, s, pos, last, rpn, stack) == Halt(Rejected);
  }

  /** A string literal parse_str rejects fails the compile. */
  lemma ParseStrFailsAt(lib: Libc, s: seq<char>, pos: nat, last: Kind, rpn: seq<Token>, stack: seq<Token>)
    requires ScansWithin(lib) && pos < |s| && (s[pos] == '\'' || s[pos] == '"')
    requires ParseStr(s, pos).Nothing?
    ensures Parse(lib, s, pos, last, rpn, stack) == Rejected
  {
    assert SkipBlanks(s, pos) == pos;
    assert Step(lib, s, pos, last, rpn, stack) == Halt(Rejected);
  }

  /** The loop body over a string literal that parse_str accepts. */
  lemma StepStringAt(lib: Libc, s: seq<char>, pos: nat, last: Kind, rpn: seq<Token>, stack: seq<Token>, t: Token, next: nat)
    requires ScansWithin(lib) && pos < |s| && (s[pos] == '\'' || s[pos] == '"')
    requires ParseStr(s, pos) == Some((t, next))
    ensures Step(lib, s, pos, last, rpn, stack) == Continue(next, StrLit, rpn + [t], stack)
  {
    assert SkipBlanks(s, pos) == pos;
  }

  /** The loop body over an operator: opera_push, and the cursor moves past it. */
  lemma StepOperatorAt(lib: Libc, s: seq<char>, pos: nat, last: Kind, rpn: seq<Token>, stack: seq<Token>,
                       k: Kind, out: seq<Token>, st: seq<Token>)
    requires ScansWithin(lib) && pos < |s| && !IsSpace(s[pos])
    requires TokenType(s, pos, last) == k && k !in {Invalid, Beg, End, NumLit, Ident, StrLit, Func, Sep}
    requires OperaPushSpec(k, rpn, stack) == (out, st)
    ensures Step(lib, s, pos, last, rpn, stack) == Continue(pos + TokenLen(k), k, out, st)
  {
    assert SkipBlanks(s, pos) == pos;
  }

  /** The loop body over `(`: an OP_BEG goes on the stack. */
  lemma StepOpenAt(lib: Libc, s: seq<char>, pos: nat, last: Kind, rpn: seq<Token>, stack: seq<Token>)
    requires ScansWithin(lib) && pos < |s| && s[pos] == '('
    ensures Step(lib, s, pos, last, rpn, stack) == Continue(pos + 1, Beg, rpn, stack + [OpenToken])
  {
    assert SkipBlanks(s, pos) == pos && TokenType(s, pos, last) == Beg;
  }

  /** The loop body over `)` that finds its `(`. */
  lemma StepCloseAt(lib: Libc, s: seq<char>, pos: nat, last: Kind, rpn: seq<Token>, stack: seq<Token>,
                    out: seq<Token>, st: seq<Token>)
    requires ScansWithin(lib) && pos < |s| && s[pos] == ')' && ParenthEndSpec(last, rpn, stack) == Some((out, st))
    ensures Step(lib, s, pos, last, rpn, stack) == Continue(pos + 1, End, out, st)
  {
    assert SkipBlanks(s, pos) == pos && TokenType(s, pos, last) == End;
  }

  /** The end of the text: the final drain and check_RPN decide. */
  lemma ParseEndAt(lib: Libc, s: seq<char>, last: Kind, rpn: seq<Token>, stack: seq<Token>)
    requires ScansWithin(lib)
    ensures Parse(lib, s, |s|, last, rpn, stack) == Finish(rpn, stack)
  {
  }

  /** check_RPN one instruction further: it may run at the count so far, which it then changes. */
  lemma RunsSnoc(rpn: seq<Token>, t: Token)
    requires forall i :: 0 <= i < |rpn| ==> ArityOkAt(rpn, i)
    requires ArityOk(t, Depth(rpn))
    ensures forall i :: 0 <= i < |rpn + [t]| ==> ArityOkAt(rpn + [t], i)
    ensures Depth(rpn + [t]) == Depth(rpn) + Delta(t)
  {
    var r := rpn + [t];
    assert Pop(r) == rpn;
    forall i | 0 <= i < |r|
      ensures ArityOkAt(r, i)
    {
      assert r[..i] == rpn[..i] && r[..|rpn|] == rpn;
      if i < |rpn| {
        assert ArityOkAt(rpn, i);
      }
    }
  }

  lemma FinishMultiAdd(a: Token, b: Token, c: Token)
    requires a.kind == NumLit && b.kind == NumLit && c.kind == NumLit
    ensures Finish([a, b, c], [OperatorToken(Add), OperatorToken(Multi)])
      == Accepted([a, b, c, OperatorToken(Multi), OperatorToken(Add)])
  {
    var add, mul := OperatorToken(Add), OperatorToken(Multi);
    var none: seq<Token> := [];
    RunsSnoc(none, a);
    assert none + [a] == [a];
    RunsSnoc([a], b);
    assert [a] + [b] == [a, b];
    RunsSnoc([a, b], c);
    assert [a, b] + [c] == [a, b, c];
    RunsSnoc([a, b, c], mul);
    assert [a, b, c] + [mul] == [a, b, c, mul];
    RunsSnoc([a, b, c, mul], add);
    assert [a, b, c, mul] + [add] == [a, b, c, mul, add];
    assert Reverse([add, mul]) == [mul, add];
    assert [a, b, c] + [mul, add] == [a, b, c, mul, add];
  }

  /** A text that opens with a one-digit number and `+`: the number is output and `+` waits
      on the stack. */
  lemma NumberThenPlus(lib: Libc, s: seq<char>, v: real)
    requires ScansWithin(lib) && 2 <= |s| && '0' <= s[0] <= '9' && s[1] == '+' && lib.strtod(s) == (v, 1)
    ensures Parse(lib, s, 0, Invalid, [], []) == Parse(lib, s, 2, Add, [NumToken(v)], [OperatorToken(Add)])
  {
    var n, add := NumToken(v), OperatorToken(Add);
    LeadingNumber(lib, s, v);
    PlusAfterNumber(lib, s, v);
    ParseContinues(lib, s, 0, Invalid, [], [], 1, NumLit, [n], []);
    ParseContinues(lib, s, 1, NumLit, [n], [], 2, Add, [n], [add]);
  }

  /** The leading one-digit number goes to the output. */
  lemma LeadingNumber(lib: Libc, s: seq<char>, v: real)
    requires ScansWithin(lib) && 1 <= |s| && '0' <= s[0] <= '9' && lib.strtod(s) == (v, 1)
    ensures Step(lib, s, 0, Invalid, [], []) == Continue(1, NumLit, [NumToken(v)], [])
  {
    var none: seq<Token> := [];
    assert s[0..] == s && none + [NumToken(v)] == [NumToken(v)];
    StepNumberAt(lib, s, 0, Invalid, none, none, v, 1);
  }

  /** A `+` after the leading number is binary and goes on the empty stack. */
  lemma PlusAfterNumber(lib: Libc, s: seq<char>, v: real)
    requires ScansWithin(lib) && 2 <= |s| && s[1] == '+'
    ensures Step(lib, s, 1, NumLit, [NumToken(v)], []) == Continue(2, Add, [NumToken(v)], [OperatorToken(Add)])
  {
    var n, add := NumToken(v), OperatorToken(Add);
    var none: seq<Token> := [];
    assert none + [add] == [add];
    StepOperatorAt(lib, s, 1, NumLit, [n], none, Add, [n], [add]);
  }

  /** `2+3*4` on to the `4`: `*` binds tighter than the waiting `+`, so it is stacked above it. */
  lemma MultiMiddle(lib: Libc, s: seq<char>)
    requires ScansWithin(lib) && |s| == 5 && s[2] == '3' && s[3] == '*' && lib.strtod(s[2..]) == (3.0, 1)
    ensures Parse(lib, s, 2, Add, [NumToken(2.0)], [OperatorToken(Add)]) ==
      Parse(lib, s, 4, Multi, [NumToken(2.0), NumToken(3.0)], [OperatorToken(Add), OperatorToken(Multi)])
  {
    var n2, n3 := NumToken(2.0), NumToken(3.0);
    var add, mul := OperatorToken(Add), OperatorToken(Multi);
    MultiThree(lib, s);
    MultiTimes(lib, s);
    ParseContinues(lib, s, 2, Add, [n2], [add], 3, NumLit, [n2, n3], [add]);
    ParseContinues(lib, s, 3, NumLit, [n2, n3], [add], 4, Multi, [n2, n3], [add, mul]);
  }

  /** The `3` of `2+3*4` goes to the output. */
  lemma MultiThree(lib: Libc, s: seq<char>)
    requires ScansWithin(lib) && |s| == 5 && s[2] == '3' && lib.strtod(s[2..]) == (3.0, 1)
    ensures Step(lib, s, 2, Add, [NumToken(2.0)], [OperatorToken(Add)]) ==
      Continue(3, NumLit, [NumToken(2.0), NumToken(3.0)], [OperatorToken(Add)])
  {
    var n2, n3, add := NumToken(2.0), NumToken(3.0), OperatorToken(Add);
    StepNumberAt(lib, s, 2, Add, [n2], [add], 3.0, 1);
    assert [n2] + [n3] == [n2, n3];
  }

  /** The `*` of `2+3*4` binds tighter than the waiting `+`, so it is stacked above it. */
  lemma MultiTimes(lib: Libc, s: seq<char>)
    requires ScansWithin(lib) && |s| == 5 && s[3] == '*'
    ensures Step(lib, s, 3, NumLit, [NumToken(2.0), NumToken(3.0)], [OperatorToken(Add)]) ==
      Continue(4, Multi, [NumToken(2.0), NumToken(3.0)], [OperatorToken(Add), OperatorToken(Multi)])
  {
    var n2, n3 := NumToken(2.0), NumToken(3.0);
    var add, mul := OperatorToken(Add), OperatorToken(Multi);
    assert !IsLow(Multi, Top([add]).kind) && [add] + [mul] == [add, mul];
    StepOperatorAt(lib, s, 3, NumLit, [n2, n3], [add], Multi, [n2, n3], [add, mul]);
  }

  /** `2+3*4` from the `4`: the end of the text drains `*` before `+`. */
  lemma MultiTail(lib: Libc, s: seq<char>)
    requires ScansWithin(lib) && |s| == 5 && s[4] == '4' && lib.strtod(s[4..]) == (4.0, 1)
    ensures Parse(lib, s, 4, Multi, [NumToken(2.0), NumToken(3.0)], [OperatorToken(Add), OperatorToken(Multi)]) ==
      Accepted([NumToken(2.0), NumToken(3.0), NumToken(4.0), OperatorToken(Multi), OperatorToken(Add)])
  {
    var n2, n3, n4 := NumToken(2.0), NumToken(3.0), NumToken(4.0);
    var add, mul := OperatorToken(Add), OperatorToken(Multi);
    StepNumberAt(lib, s, 4, Multi, [n2, n3], [add, mul], 4.0, 1);
    ParseContinues(lib, s, 4, Multi, [n2, n3], [add, mul], 5, NumLit, [n2, n3] + [NumToken(4.0)], [add, mul]);
    assert [n2, n3] + [n4] == [n2, n3, n4];
    ParseEndAt(lib, s, NumLit, [n2, n3, n4], [add, mul]);
    FinishMultiAdd(n2, n3, n4);
  }

  /** Precedence: `2+3*4` compiles to `2 3 4 * +`, whatever strtod does beyond these digits. */
  lemma CompileMultiBindsTighter(lib: Libc, s: seq<char>)
    requires ScansWithin(lib) && s == "2+3*4"
    requires lib.strtod(s) == (2.0, 1) && lib.strtod(s[2..]) == (3.0, 1) && lib.strtod(s[4..]) == (4.0, 1)
    ensures Compile(lib, s) ==
      Accepted([NumToken(2.0), NumToken(3.0), NumToken(4.0), OperatorToken(Multi), OperatorToken(Add)])
  {
    assert s[0] == '2' && s[1] == '+' && s[2] == '3' && s[3] == '*' && s[4] == '4' && IsCString(s);
    NumberThenPlus(lib, s, 2.0);
    MultiMiddle(lib, s);
    MultiTail(lib, s);
  }

  /** check_RPN on two operands and one binary operator. */
  lemma FinishBinary(a: Token, b: Token, k: Kind)
    requires a.kind == NumLit && b.kind == NumLit && TokenParams(k) == 2 && k != Func
    ensures Finish([a, b], [OperatorToken(k)]) == Accepted([a, b, OperatorToken(k)])
  {
    var op := OperatorToken(k);
    var none: seq<Token> := [];
    RunsSnoc(none, a);
    assert none + [a] == [a];
    RunsSnoc([a], b);
    assert [a] + [b] == [a, b];
    RunsSnoc([a, b], op);
    assert [a, b] + [op] == [a, b, op];
    assert Reverse([op]) == [op];
  }

  /** `3+-2` from the `-`: after an operator the sign belongs to the number. */
  lemma SignedTail(lib: Libc, s: seq<char>)
    requires ScansWithin(lib) && |s| == 4 && s[2] == '-' && lib.strtod(s[2..]) == (-2.0, 2)
    ensures Parse(lib, s, 2, Add, [NumToken(3.0)], [OperatorToken(Add)]) ==
      Accepted([NumToken(3.0), NumToken(-2.0), OperatorToken(Add)])
  {
    var n3, m2, add := NumToken(3.0), NumToken(-2.0), OperatorToken(Add);
    StepNumberAt(lib, s, 2, Add, [n3], [add], -2.0, 2);
    ParseContinues(lib, s, 2, Add, [n3], [add], 4, NumLit, [n3] + [NumToken(-2.0)], [add]);
    assert [n3] + [m2] == [n3, m2];
    ParseEndAt(lib, s, NumLit, [n3, m2], [add]);
    FinishBinary(n3, m2, Add);
  }

  /** A sign after an operator starts a number: `3+-2` compiles to `3 -2 +`. */
  lemma CompileSignedOperand(lib: Libc, s: seq<char>)
    requires ScansWithin(lib) && s == "3+-2"
    requires lib.strtod(s) == (3.0, 1) && lib.strtod(s[2..]) == (-2.0, 2)
    ensures Compile(lib, s) == Accepted([NumToken(3.0), NumToken(-2.0), OperatorToken(Add)])
  {
    assert s[0] == '3' && s[1] == '+' && s[2] == '-' && IsCString(s);
    NumberThenPlus(lib, s, 3.0);
    SignedTail(lib, s);
  }

  /** `(2+3)*4` up to the `+`: the `(` is stacked and the 2 is output. */
  lemma BracketHead(lib: Libc, s: seq<char>)
    requires ScansWithin(lib) && |s| == 7 && s[0] == '(' && s[1] == '2' && lib.strtod(s[1..]) == (2.0, 1)
    ensures Parse(lib, s, 0, Invalid, [], []) == Parse(lib, s, 2, NumLit, [NumToken(2.0)], [OpenToken])
  {
    var n2 := NumToken(2.0);
    var none: seq<Token> := [];
    StepOpenAt(lib, s, 0, Invalid, none, none);
    assert none + [OpenToken] == [OpenToken];
    BracketTwo(lib, s);
    ParseContinues(lib, s, 0, Invalid, none, none, 1, Beg, none, [OpenToken]);
    ParseContinues(lib, s, 1, Beg, none, [OpenToken], 2, NumLit, [n2], [OpenToken]);
  }

  /** The `2` of `(2+3)*4` goes to the output. */
  lemma BracketTwo(lib: Libc, s: seq<char>)
    requires ScansWithin(lib) && |s| == 7 && s[1] == '2' && lib.strtod(s[1..]) == (2.0, 1)
    ensures Step(lib, s, 1, Beg, [], [OpenToken]) == Continue(2, NumLit, [NumToken(2.0)], [OpenToken])
  {
    var none: seq<Token> := [];
    StepNumberAt(lib, s, 1, Beg, none, [OpenToken], 2.0, 1);
    assert none + [NumToken(2.0)] == [NumToken(2.0)];
  }

  /** `(2+3)*4` on to the `)`: the `+` waits above the `(`. */
  lemma BracketSum(lib: Libc, s: seq<char>)
    requires ScansWithin(lib) && |s| == 7 && s[2] == '+' && s[3] == '3' && lib.strtod(s[3..]) == (3.0, 1)
    ensures Parse(lib, s, 2, NumLit, [NumToken(2.0)], [OpenToken]) ==
      Parse(lib, s, 4, NumLit, [NumToken(2.0), NumToken(3.0)], [OpenToken, OperatorToken(Add)])
  {
    var n2, n3 := NumToken(2.0), NumToken(3.0);
    var add := OperatorToken(Add);
    BracketSumSteps(lib, s);
    ParseContinues(lib, s, 2, NumLit, [n2], [OpenToken], 3, Add, [n2], [OpenToken, add]);
    ParseContinues(lib, s, 3, Add, [n2], [OpenToken, add], 4, NumLit, [n2, n3], [OpenToken, add]);
  }

  /** The two loop passes of BracketSum. */
  lemma BracketSumSteps(lib: Libc, s: seq<char>)
    requires ScansWithin(lib) && |s| == 7 && s[2] == '+' && s[3] == '3' && lib.strtod(s[3..]) == (3.0, 1)
    ensures Step(lib, s, 2, NumLit, [NumToken(2.0)], [OpenToken]) ==
      Continue(3, Add, [NumToken(2.0)], [OpenToken, OperatorToken(Add)])
    ensures Step(lib, s, 3, Add, [NumToken(2.0)], [OpenToken, OperatorToken(Add)]) ==
      Continue(4, NumLit, [NumToken(2.0), NumToken(3.0)], [OpenToken, OperatorToken(Add)])
  {
    var n2, n3 := NumToken(2.0), NumToken(3.0);
    var add := OperatorToken(Add);
    assert !IsLow(Add, Top([OpenToken]).kind) && [OpenToken] + [add] == [OpenToken, add];
    StepOperatorAt(lib, s, 2, NumLit, [n2], [OpenToken], Add, [n2], [OpenToken, add]);
    StepNumberAt(lib, s, 3, Add, [n2], [OpenToken, add], 3.0, 1);
    assert [n2] + [n3] == [n2, n3];
  }

  /** `(2+3)*4` on to the `4`: the `)` completes the sum before `*` is stacked. */
  lemma BracketClose(lib: Libc, s: seq<char>)
    requires ScansWithin(lib) && |s| == 7 && s[4] == ')' && s[5] == '*' && s[6] == '4'
    ensures Parse(lib, s, 4, NumLit, [NumToken(2.0), NumToken(3.0)], [OpenToken, OperatorToken(Add)]) ==
      Parse(lib, s, 6, Multi, [NumToken(2.0), NumToken(3.0), OperatorToken(Add)], [OperatorToken(Multi)])
  {
    var n2, n3 := NumToken(2.0), NumToken(3.0);
    var add, mul := OperatorToken(Add), OperatorToken(Multi);
    BracketShut(lib, s);
    BracketTimes(lib, s);
    ParseContinues(lib, s, 4, NumLit, [n2, n3], [OpenToken, add], 5, End, [n2, n3, add], []);
    ParseContinues(lib, s, 5, End, [n2, n3, add], [], 6, Multi, [n2, n3, add], [mul]);
  }

  /** The `)` of `(2+3)*4` moves the waiting `+` to the output and drops the `(`. */
  lemma BracketShut(lib: Libc, s: seq<char>)
    requires ScansWithin(lib) && |s| == 7 && s[4] == ')'
    ensures Step(lib, s, 4, NumLit, [NumToken(2.0), NumToken(3.0)], [OpenToken, OperatorToken(Add)]) ==
      Continue(5, End, [NumToken(2.0), NumToken(3.0), OperatorToken(Add)], [])
  {
    var n2, n3, add := NumToken(2.0), NumToken(3.0), OperatorToken(Add);
    var none: seq<Token> := [];
    assert Top([OpenToken, add]) == add && Pop([OpenToken, add]) == [OpenToken];
    assert [n2, n3] + [add] == [n2, n3, add] && [OpenToken][..0] == none;
    assert ParenthEndSpec(NumLit, [n2, n3], [OpenToken, add]) == Some(([n2, n3, add], none));
    StepCloseAt(lib, s, 4, NumLit, [n2, n3], [OpenToken, add], [n2, n3, add], none);
  }

  /** The `*` of `(2+3)*4` goes on the emptied stack. */
  lemma BracketTimes(lib: Libc, s: seq<char>)
    requires ScansWithin(lib) && |s| == 7 && s[5] == '*' && s[6] == '4'
    ensures Step(lib, s, 5, End, [NumToken(2.0), NumToken(3.0), OperatorToken(Add)], []) ==
      Continue(6, Multi, [NumToken(2.0), NumToken(3.0), OperatorToken(Add)], [OperatorToken(Multi)])
  {
    var n2, n3 := NumToken(2.0), NumToken(3.0);
    var add, mul := OperatorToken(Add), OperatorToken(Multi);
    var none: seq<Token> := [];
    assert none + [mul] == [mul];
    StepOperatorAt(lib, s, 5, End, [n2, n3, add], none, Multi, [n2, n3, add], [mul]);
  }

  /** `(2+3)*4` from the `4`: the end of the text drains the `*`. */
  lemma BracketTail(lib: Libc, s: seq<char>)
    requires ScansWithin(lib) && |s| == 7 && s[6] == '4' && lib.strtod(s[6..]) == (4.0, 1)
    ensures Parse(lib, s, 6, Multi, [NumToken(2.0), NumToken(3.0), OperatorToken(Add)], [OperatorToken(Multi)]) ==
      Accepted([NumToken(2.0), NumToken(3.0), OperatorToken(Add), NumToken(4.0), OperatorToken(Multi)])
  {
    var n2, n3, n4 := NumToken(2.0), NumToken(3.0), NumToken(4.0);
    var add, mul := OperatorToken(Add), OperatorToken(Multi);
    StepNumberAt(lib, s, 6, Multi, [n2, n3, add], [mul], 4.0, 1);
    ParseContinues(lib, s, 6, Multi, [n2, n3, add], [mul], 7, NumLit, [n2, n3, add] + [NumToken(4.0)], [mul]);
    assert [n2, n3, add] + [n4] == [n2, n3, add, n4];
    ParseEndAt(lib, s, NumLit, [n2, n3, add, n4], [mul]);
    FinishAddMulti(n2, n3, n4);
  }

  /** check_RPN on `2 3 + 4 *`. */
  lemma FinishAddMulti(a: Token, b: Token, c: Token)
    requires a.kind == NumLit && b.kind == NumLit && c.kind == NumLit
    ensures Finish([a, b, OperatorToken(Add), c], [OperatorToken(Multi)])
      == Accepted([a, b, OperatorToken(Add), c, OperatorToken(Multi)])
  {
    var add, mul := OperatorToken(Add), OperatorToken(Multi);
    var none: seq<Token> := [];
    RunsSnoc(none, a);
    assert none + [a] == [a];
    RunsSnoc([a], b);
    assert [a] + [b] == [a, b];
    RunsSnoc([a, b], add);
    assert [a, b] + [add] == [a, b, add];
    RunsSnoc([a, b, add], c);
    assert [a, b, add] + [c] == [a, b, add, c];
    RunsSnoc([a, b, add, c], mul);
    assert [a, b, add, c] + [mul] == [a, b, add, c, mul];
    assert Reverse([mul]) == [mul];
  }

  /** Brackets override precedence: `(2+3)*4` compiles to `2 3 + 4 *`. */
  lemma CompileBracketsGroup(lib: Libc, s: seq<char>)
    requires ScansWithin(lib) && s == "(2+3)*4"
    requires lib.strtod(s[1..]) == (2.0, 1) && lib.strtod(s[3..]) == (3.0, 1) && lib.strtod(s[6..]) == (4.0, 1)
    ensures Compile(lib, s) ==
      Accepted([NumToken(2.0), NumToken(3.0), OperatorToken(Add), NumToken(4.0), OperatorToken(Multi)])
  {
    assert s[0] == '(' && s[1] == '2' && s[2] == '+' && s[3] == '3' && IsCString(s);
    assert s[4] == ')' && s[5] == '*' && s[6] == '4';
    BracketHead(lib, s);
    BracketSum(lib, s);
    BracketClose(lib, s);
    BracketTail(lib, s);
  }

  /** Operands alone leave one value per operand on the stack. */
  lemma {:induction false} OperandsDepth(rpn: seq<Token>)
    requires forall i :: 0 <= i < |rpn| ==> IsOperand(rpn[i].kind)
    ensures Depth(rpn) == |rpn|
  {
    if rpn != [] {
      OperandsDepth(Pop(rpn));
    }
  }

  /** Two or more operands with no operator between them never pass check_RPN. */
  lemma FinishOperandsOnly(rpn: seq<Token>)
    requires |rpn| >= 2 && forall i :: 0 <= i < |rpn| ==> IsOperand(rpn[i].kind)
    ensures Finish(rpn, []) == Rejected
  {
    OperandsDepth(rpn);
    assert rpn + Reverse([]) == rpn;
  }

  /** The literal `'5'` of `'5'+3`: a string token spanning the quotes. */
  lemma StringHead(lib: Libc, s: seq<char>)
    requires ScansWithin(lib) && |s| == 5 && s[0] == '\'' && s[1] == '5' && s[2] == '\''
    ensures Parse(lib, s, 0, Invalid, [], []) == Parse(lib, s, 3, StrLit, [Token(StrLit, 0, 0, Span(0, 3))], [])
  {
    var none: seq<Token> := [];
    var str := Token(StrLit, 0, 0, Span(0, 3));
    assert Strchr(s, 1, '\'') == Some(2);
    assert ParseStr(s, 0) == Some((str, 3));
    StepStringAt(lib, s, 0, Invalid, none, none, str, 3);
    ParseContinues(lib, s, 0, Invalid, none, none, 3, StrLit, none + [str], none);
    assert none + [str] == [str];
  }

  /** The `3` of `'5'+3` after a number: a third operand, or a failed conversion. */
  lemma OperandAfterOperand(lib: Libc, s: seq<char>, rpn: seq<Token>)
    requires ScansWithin(lib) && |s| == 5 && s[4] == '3' && |rpn| == 2
    requires forall i :: 0 <= i < |rpn| ==> IsOperand(rpn[i].kind)
    ensures Parse(lib, s, 4, NumLit, rpn, []) == Rejected
  {
    var none: seq<Token> := [];
    var (w, m) := lib.strtod(s[4..]);
    assert m <= 1;
    if m == 0 {
      ParseNumberFailsAt(lib, s, 4, NumLit, rpn, none);
    } else {
      StepNumberAt(lib, s, 4, NumLit, rpn, none, w, m);
      ParseContinues(lib, s, 4, NumLit, rpn, none, 4 + m, NumLit, rpn + [NumToken(w)], none);
      ParseEndAt(lib, s, NumLit, rpn + [NumToken(w)], none);
      FinishOperandsOnly(rpn + [NumToken(w)]);
    }
  }

  /** `'5'+3` from the `+`: a number follows the string, and no operator ever comes. */
  lemma StringTail(lib: Libc, s: seq<char>, str: Token)
    requires ScansWithin(lib) && |s| == 5 && s[3] == '+' && s[4] == '3' && str.kind == StrLit
    ensures Parse(lib, s, 3, StrLit, [str], []) == Rejected
  {
    var none: seq<Token> := [];
    var (v, n) := lib.strtod(s[3..]);
    assert n <= 2;
    if n == 0 {
      ParseNumberFailsAt(lib, s, 3, StrLit, [str], none);
    } else {
      StepNumberAt(lib, s, 3, StrLit, [str], none, v, n);
      ParseContinues(lib, s, 3, StrLit, [str], none, 3 + n, NumLit, [str] + [NumToken(v)], none);
      assert [str] + [NumToken(v)] == [str, NumToken(v)];
      if n == 2 {
        ParseEndAt(lib, s, NumLit, [str, NumToken(v)], none);
        FinishOperandsOnly([str, NumToken(v)]);
      } else {
        OperandAfterOperand(lib, s, [str, NumToken(v)]);
      }
    }
  }

  /**
   * A sign right after a string literal starts a number, never an addition: `'5'+3` is
   * rejected whatever strtod makes of `+3`, since no operator is ever emitted.
   */
  lemma CompileStringPlusRejected(lib: Libc, s: seq<char>)
    requires ScansWithin(lib) && s == "'5'+3"
    ensures Compile(lib, s) == Rejected
  {
    assert s[0] == '\'' && s[1] == '5' && s[2] == '\'' && s[3] == '+' && s[4] == '3' && IsCString(s);
    StringHead(lib, s);
    StringTail(lib, s, Token(StrLit, 0, 0, Span(0, 3)));
  }

  /** parse_str on `"a\\"`: strchr's quote follows a backslash, and find_quot past it meets the end. */
  lemma BackslashLiteralFails(s: seq<char>)
    requires s == ['"', 'a', '\\', '\\', '"']
    ensures ParseStr(s, 0).Nothing?
  {
    assert Strchr(s, 4, '"') == Some(4);
    assert Strchr(s, 1, '"') == Some(4);
    assert QuoteScan(s, 5) == Nothing;
  }

  /**
   * `"a\\"`, the escaped literal of the text `a\`, does not compile: parse_str as written
   * takes its closing quote for an escaped one, so express_create returns NULL.
   */
  lemma CompileBackslashLiteralRejected(lib: Libc, s: seq<char>)
    requires ScansWithin(lib) && s == ['"', 'a', '\\', '\\', '"']
    ensures Compile(lib, s) == Rejected
  {
    assert IsCString(s);
    BackslashLiteralFails(s);
    ParseStrFailsAt(lib, s, 0, Invalid, [], []);
  }

  /** `1+(!` from the `(`: `(` and `!` are stacked above the waiting `+`. */
  lemma DrainsStacked(lib: Libc, s: seq<char>)
    requires ScansWithin(lib) && |s| == 4 && s[2] == '(' && s[3] == '!'
    ensures Parse(lib, s, 2, Add, [NumToken(1.0)], [OperatorToken(Add)]) ==
      Parse(lib, s, 4, Not, [NumToken(1.0)], [OperatorToken(Add), OpenToken, OperatorToken(Not)])
  {
    var n1, add, not := NumToken(1.0), OperatorToken(Add), OperatorToken(Not);
    StepOpenAt(lib, s, 2, Add, [n1], [add]);
    assert [add] + [OpenToken] == [add, OpenToken];
    DrainsNot(lib, s);
    ParseContinues(lib, s, 2, Add, [n1], [add], 3, Beg, [n1], [add, OpenToken]);
    ParseContinues(lib, s, 3, Beg, [n1], [add, OpenToken], 4, Not, [n1], [add, OpenToken, not]);
  }

  /** The `!` of `1+(!` is stacked above the `(`. */
  lemma DrainsNot(lib: Libc, s: seq<char>)
    requires ScansWithin(lib) && |s| == 4 && s[3] == '!'
    ensures Step(lib, s, 3, Beg, [NumToken(1.0)], [OperatorToken(Add), OpenToken]) ==
      Continue(4, Not, [NumToken(1.0)], [OperatorToken(Add), OpenToken, OperatorToken(Not)])
  {
    var n1, add, not := NumToken(1.0), OperatorToken(Add), OperatorToken(Not);
    assert !IsLow(Not, Top([add, OpenToken]).kind) && [add, OpenToken] + [not] == [add, OpenToken, not];
    StepOperatorAt(lib, s, 3, Beg, [n1], [add, OpenToken], Not, [n1], [add, OpenToken, not]);
  }

  /** `1+(!` from the `(`: the end of the text drains `!`, `(` and `+` in turn. */
  lemma DrainsTail(lib: Libc, s: seq<char>)
    requires ScansWithin(lib) && |s| == 4 && s[2] == '(' && s[3] == '!'
    ensures Parse(lib, s, 2, Add, [NumToken(1.0)], [OperatorToken(Add)]) ==
      Accepted([NumToken(1.0), OperatorToken(Not), OpenToken, OperatorToken(Add)])
  {
    var n1, add, not := NumToken(1.0), OperatorToken(Add), OperatorToken(Not);
    DrainsStacked(lib, s);
    ParseEndAt(lib, s, Not, [n1], [add, OpenToken, not]);
    FinishDrainsOpen(n1);
  }

  /** A `(` drained to the output: `1+(!` compiles with OP_BEG among its instructions. */
  lemma CompileDrainsOpen(lib: Libc, s: seq<char>)
    requires ScansWithin(lib) && s == "1+(!" && lib.strtod(s) == (1.0, 1)
    ensures Compile(lib, s) == Accepted([NumToken(1.0), OperatorToken(Not), OpenToken, OperatorToken(Add)])
  {
    assert s[0] == '1' && s[1] == '+' && s[2] == '(' && s[3] == '!' && IsCString(s);
    NumberThenPlus(lib, s, 1.0);
    DrainsTail(lib, s);
  }

  /** check_RPN on `1 ! ( +`: the drained `(` counts as one more operand. */
  lemma FinishDrainsOpen(a: Token)
    requires a.kind == NumLit
    ensures Finish([a], [OperatorToken(Add), OpenToken, OperatorToken(Not)])
      == Accepted([a, OperatorToken(Not), OpenToken, OperatorToken(Add)])
  {
    var add, not := OperatorToken(Add), OperatorToken(Not);
    var none: seq<Token> := [];
    RunsSnoc(none, a);
    assert none + [a] == [a];
    RunsSnoc([a], not);
    assert [a] + [not] == [a, not];
    RunsSnoc([a, not], OpenToken);
    assert [a, not] + [OpenToken] == [a, not, OpenToken];
    RunsSnoc([a, not, OpenToken], add);
    assert [a, not, OpenToken] + [add] == [a, not, OpenToken, add];
    assert Reverse([add, OpenToken, not]) == [not, OpenToken, add];
    assert [a] + [not, OpenToken, add] == [a, not, OpenToken, add];
  }

  /** The loop body does not move the cursor after a stall, and the C loop repeats it forever:
      the next iteration, with `last` now OP_ID, stalls at the same position again. */
  lemma StallRepeats(lib: Libc, s: seq<char>, pos: nat, last: Kind, rpn: seq<Token>, stack: seq<Token>)
    requires ScansWithin(lib) && pos <= |s|
    requires Step(lib, s, pos, last, rpn, stack) == Halt(Stalls)
    ensures var p := SkipBlanks(s, pos);
      && p < |s| && (s[p] == '_' || s[p] == '$')
      && Step(lib, s, p, Ident, rpn + [ParseId(s, p).token], stack) == Halt(Stalls)
  {
    var p := SkipBlanks(s, pos);
    StalledAt(lib, s, pos, last, rpn, stack);
    ParseIdStalls(s, p, last);
    StallsOn(lib, s, p, Ident, rpn + [ParseId(s, p).token], stack);
  }

  /** Only an identifier scan that does not move the cursor stalls the loop body. */
  lemma StalledAt(lib: Libc, s: seq<char>, pos: nat, last: Kind, rpn: seq<Token>, stack: seq<Token>)
    requires ScansWithin(lib) && pos <= |s|
    requires Step(lib, s, pos, last, rpn, stack) == Halt(Stalls)
    ensures var p := SkipBlanks(s, pos);
      && p < |s| && TokenType(s, p, last) == Ident
      && ParseId(s, p).Variable? && ParseId(s, p).next == p
  {
  }

  /** An identifier that starts with `_` or `$` stalls the loop body, whatever came before. */
  lemma StallsOn(lib: Libc, s: seq<char>, p: nat, last: Kind, rpn: seq<Token>, stack: seq<Token>)
    requires ScansWithin(lib) && p < |s| && (s[p] == '_' || s[p] == '$')
    ensures Step(lib, s, p, last, rpn, stack) == Halt(Stalls)
  {
    assert SkipBlanks(s, p) == p && TokenType(s, p, last) == Ident;
    ParseIdStalls(s, p, last);
  }

  /** An identifier token that gets past the stall check names a non-empty span. */
  lemma VariableSpan(s: seq<char>, p: nat, last: Kind)
    requires p < |s| && TokenType(s, p, last) == Ident
    requires ParseId(s, p).Variable? && ParseId(s, p).next != p
    ensures IdSpan(s, p, ParseId(s, p).token.payload.len)
  {
  }

  lemma OperandStepEmits(lib: Libc, s: seq<char>, p: nat, k: Kind, last: Kind, rpn: seq<Token>, stack: seq<Token>)
    requires ScansWithin(lib) && p < |s| && AllEmitted(s, rpn) && AllEmitted(s, stack)
    requires k in {Ident, NumLit, StrLit} && (k == StrLit ==> s[p] == '\'' || s[p] == '"')
    requires k == Ident ==> TokenType(s, p, last) == Ident
    ensures var r := OperandStep(lib, s, p, k, rpn, stack);
      r.Continue? ==> AllEmitted(s, r.rpn) && AllEmitted(s, r.stack)
  {
    if k == Ident {
      IdentStepEmits(lib, s, p, last, rpn, stack);
    } else if k == NumLit {
      NumberStepEmits(lib, s, p, rpn, stack);
    } else {
      StringStepEmits(lib, s, p, rpn, stack);
    }
  }

  lemma NumberStepEmits(lib: Libc, s: seq<char>, p: nat, rpn: seq<Token>, stack: seq<Token>)
    requires ScansWithin(lib) && p < |s| && AllEmitted(s, rpn) && AllEmitted(s, stack)
    ensures var r := OperandStep(lib, s, p, NumLit, rpn, stack);
      r.Continue? ==> AllEmitted(s, r.rpn) && AllEmitted(s, r.stack)
  {
    var n := ParseNumber(lib, s, p);
    if n.Some? {
      assert Emitted(s, n.value.0);
      EmittedSnoc(s, rpn, n.value.0);
    }
  }

  lemma StringStepEmits(lib: Libc, s: seq<char>, p: nat, rpn: seq<Token>, stack: seq<Token>)
    requires ScansWithin(lib) && p < |s| && (s[p] == '\'' || s[p] == '"')
    requires AllEmitted(s, rpn) && AllEmitted(s, stack)
    ensures var r := OperandStep(lib, s, p, StrLit, rpn, stack);
      r.Continue? ==> AllEmitted(s, r.rpn) && AllEmitted(s, r.stack)
  {
    var t := ParseStr(s, p);
    if t.Some? {
      assert Emitted(s, t.value.0);
      EmittedSnoc(s, rpn, t.value.0);
    }
  }

  lemma IdentStepEmits(lib: Libc, s: seq<char>, p: nat, last: Kind, rpn: seq<Token>, stack: seq<Token>)
    requires ScansWithin(lib) && p < |s| && AllEmitted(s, rpn) && AllEmitted(s, stack)
    requires TokenType(s, p, last) == Ident
    ensures var r := OperandStep(lib, s, p, Ident, rpn, stack);
      r.Continue? ==> AllEmitted(s, r.rpn) && AllEmitted(s, r.stack)
  {
    match ParseId(s, p)
    case UnknownFunction =>
    case Call(t, next) =>
      EmittedSnoc(s, stack, t);
    case Variable(t, next) =>
      if next != p {
        VariableSpan(s, p, last);
        EmittedSnoc(s, rpn, t);
      }
  }

  lemma EmittedSnoc(s: seq<char>, ts: seq<Token>, t: Token)
    requires AllEmitted(s, ts) && Emitted(s, t)
    ensures AllEmitted(s, ts + [t])
  {
  }

  lemma SymbolStepEmits(s: seq<char>, p: nat, k: Kind, last: Kind, rpn: seq<Token>, stack: seq<Token>)
    requires p + TokenLen(k) <= |s| && k != Ident && k != NumLit && k != StrLit
    requires AllEmitted(s, rpn) && AllEmitted(s, stack)
    ensures var r := SymbolStep(s, p, k, last, rpn, stack);
      r.Continue? ==> AllEmitted(s, r.rpn) && AllEmitted(s, r.stack)
  {
    if k == Sep {
      if ArgumentPushSpec(rpn, stack).Some? {
        ArgumentPushEmits(s, rpn, stack);
      }
    } else if k == End {
      if ParenthEndSpec(last, rpn, stack).Some? {
        ParenthEndEmits(s, last, rpn, stack);
      }
    } else if k != Beg && k != Invalid && k != Func {
      OperaPushEmits(s, k, rpn, stack);
    }
  }

  lemma StepEmits(lib: Libc, s: seq<char>, pos: nat, last: Kind, rpn: seq<Token>, stack: seq<Token>)
    requires ScansWithin(lib) && pos <= |s| && AllEmitted(s, rpn) && AllEmitted(s, stack)
    ensures var r := Step(lib, s, pos, last, rpn, stack);
      && (r.Continue? ==> AllEmitted(s, r.rpn) && AllEmitted(s, r.stack))
      && (r.Halt? && r.outcome.Accepted? ==> AllEmitted(s, r.outcome.rpn))
  {
    var p := SkipBlanks(s, pos);
    if p == |s| {
      AllEmittedReverse(s, stack, 0);
      assert stack[0..] == stack;
    } else if TokenType(s, p, last) in {Ident, NumLit, StrLit} {
      OperandStepEmits(lib, s, p, TokenType(s, p, last), last, rpn, stack);
    } else {
      SymbolStepEmits(s, p, TokenType(s, p, last), last, rpn, stack);
    }
  }

  lemma {:induction false} ParseEmits(lib: Libc, s: seq<char>, pos: nat, last: Kind, rpn: seq<Token>, stack: seq<Token>)
    requires ScansWithin(lib) && pos <= |s| && AllEmitted(s, rpn) && AllEmitted(s, stack)
    ensures Parse(lib, s, pos, last, rpn, stack).Accepted? ==> AllEmitted(s, Parse(lib, s, pos, last, rpn, stack).rpn)
    decreases |s| - pos
  {
    StepEmits(lib, s, pos, last, rpn, stack);
    var r := Step(lib, s, pos, last, rpn, stack);
    if r.Continue? {
      ParseEmits(lib, s, r.pos, r.last, r.rpn, r.stack);
    }
  }

  /** Every instruction of an accepted expression is one the compiler can emit: no `)`, `,`
      or invalid kind, known functions, operator arities from token_params, literal spans as
      the scanner found them. */
  lemma CompileEmits(lib: Libc, s: seq<char>)
    requires ScansWithin(lib) && IsCString(s) && Compile(lib, s).Accepted?
    ensures AllEmitted(s, Compile(lib, s).rpn)
    ensures Accepts(Compile(lib, s).rpn)
  {
    ParseEmits(lib, s, 0, Invalid, [], []);
    ParseAccepts(lib, s, 0, Invalid, [], []);
  }

  /** Only the end of the input accepts, and only with check_RPN's approval. */
  lemma {:induction false} ParseAccepts(lib: Libc, s: seq<char>, pos: nat, last: Kind, rpn: seq<Token>, stack: seq<Token>)
    requires ScansWithin(lib) && pos <= |s|
    ensures Parse(lib, s, pos, last, rpn, stack).Accepted? ==> Accepts(Parse(lib, s, pos, last, rpn, stack).rpn)
    decreases |s| - pos
  {
    var r := Step(lib, s, pos, last, rpn, stack);
    if r.Continue? {
      ParseAccepts(lib, s, r.pos, r.last, r.rpn, r.stack);
    }
  }

  /** The end of express_parse: refuse a `(` left on top, drain the stack, run check_RPN. */
  method ExpressFinish(rpn: seq<Token>, stack: seq<Token>) returns (o: Outcome)
    requires |rpn| + |stack| < SIZE_MOD
    ensures o == Finish(rpn, stack)
  {
    if |stack| > 0 && stack[|stack| - 1].kind == Beg {
      return Rejected;
    }
    var out, st := rpn, stack;
    while |st| > 0
      invariant out + Reverse(st) == rpn + Reverse(stack)
      invariant |out| + |st| == |rpn| + |stack|
      decreases |st|
    {
      out := out + [st[|st| - 1]];
      st := st[..|st| - 1];
    }
    assert out == rpn + Reverse(stack);
    var ok := CheckRpn(out);
    o := if ok then Accepted(out) else Rejected;
  }

  /** express_parse's loop body for an identifier, a number or a string literal. */
  method ExpressOperand(lib: Libc, s: seq<char>, p: nat, k: Kind, rpn: seq<Token>, stack: seq<Token>)
    returns (r: StepResult)
    requires ScansWithin(lib) && p < |s| && k in {Ident, NumLit, StrLit}
    requires k == StrLit ==> s[p] == '\'' || s[p] == '"'
    ensures r == OperandStep(lib, s, p, k, rpn, stack)
  {
    if k == Ident {
      var id := ParseIdent(s, p);
      match id
      case UnknownFunction => r := Halt(Rejected);
      case Call(t, next) => r := Continue(next, Func, rpn, stack + [t]);
      case Variable(t, next) =>
        r := if next == p then Halt(Stalls) else Continue(next, Ident, rpn + [t], stack);
    } else if k == NumLit {
      var num := ParseNumber(lib, s, p);
      r := if num.Nothing? then Halt(Rejected) else Continue(num.value.1, NumLit, rpn + [num.value.0], stack);
    } else {
      var str := ParseString(s, p);
      r := if str.Nothing? then Halt(Rejected) else Continue(str.value.1, StrLit, rpn + [str.value.0], stack);
    }
  }

  /** express_parse's loop body for a comma or a closing bracket. */
  method ExpressClose(s: seq<char>, p: nat, k: Kind, last: Kind, rpn: seq<Token>, stack: seq<Token>)
    returns (r: StepResult)
    requires p + TokenLen(k) <= |s| && (k == Sep || k == End)
    ensures r == SymbolStep(s, p, k, last, rpn, stack)
  {
    if k == Sep {
      var a := ArgumentPush(rpn, stack);
      r := if a.Nothing? then Halt(Rejected) else Continue(p + 1, Sep, a.value.0, a.value.1);
    } else {
      var a := ParenthEnd(last, rpn, stack);
      r := if a.Nothing? then Halt(Rejected) else Continue(p + 1, End, a.value.0, a.value.1);
    }
  }

  /** express_parse's loop body for a bracket, a comma, an operator or a bad character. */
  method ExpressSymbol(s: seq<char>, p: nat, k: Kind, last: Kind, rpn: seq<Token>, stack: seq<Token>)
    returns (r: StepResult)
    requires p + TokenLen(k) <= |s| && k != Ident && k != NumLit && k != StrLit
    ensures r == SymbolStep(s, p, k, last, rpn, stack)
  {
    if k == Sep || k == End {
      r := ExpressClose(s, p, k, last, rpn, stack);
    } else if k == Beg {
      r := Continue(p + 1, Beg, rpn, stack + [OpenToken]);
    } else if k == Invalid || k == Func {
      r := Halt(Rejected);
    } else {
      r := ExpressOperator(s, p, k, last, rpn, stack);
    }
  }

  /** express_parse's loop body for an operator: opera_push, then past the operator. */
  method ExpressOperator(s: seq<char>, p: nat, k: Kind, last: Kind, rpn: seq<Token>, stack: seq<Token>)
    returns (r: StepResult)
    requires p + TokenLen(k) <= |s| && IsOperator(k)
    ensures r == SymbolStep(s, p, k, last, rpn, stack)
  {
    var out, st := OperaPush(k, rpn, stack);
    r := Continue(p + TokenLen(k), k, out, st);
  }

  /** The imperative driver: express_parse's cursor loop, then the drain and check_RPN. */
  method ExpressParse(lib: Libc, s: seq<char>) returns (o: Outcome)
    requires ScansWithin(lib) && IsCString(s) && |s| < SIZE_MOD
    ensures o == Compile(lib, s)
  {
    var pos, last, rpn, stack := 0, Invalid, [], [];
    while true
      invariant pos <= |s|
      invariant |rpn| + |stack| <= pos
      invariant Parse(lib, s, pos, last, rpn, stack) == Compile(lib, s)
      decreases |s| - pos
    {
      var p := SkipBlank(s, pos);
      if p == |s| {
        o := ExpressFinish(rpn, stack);
        return;
      }
      var k := TokenType(s, p, last);
      var r;
      if k in {Ident, NumLit, StrLit} {
        r := ExpressOperand(lib, s, p, k, rpn, stack);
      } else {
        r := ExpressSymbol(s, p, k, last, rpn, stack);
      }
      assert Step(lib, s, pos, last, rpn, stack) == r;
      if r.Halt? {
        return r.outcome;
      }
      pos, last, rpn, stack := r.pos, r.last, r.rpn, r.stack;
    }
  }
}
