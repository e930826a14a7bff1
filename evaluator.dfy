/**
 * The compiled expression object of express.c (struct express) and the operations on it:
 * express_create, express_alloc, bufflist_clean and the express_calculate stack machine.
 */
module Evaluator {
  import opened Wrappers
  import opened Values
  import opened Tokens
  import opened Scanner
  import opened Compiler
  import opened Literals
  import opened Builtins

  /** A node of expr->list: the scratch block's address and the bytes of its buffer. */
  datatype Block = Block(id: nat, buff: seq<char>)

  /** How express_calculate ends: with a value, on a failed assert, or in undefined behaviour. */
  datatype Evaluation = Returned(value: Value) | Aborted | Undefined

  /** The machine state between two instructions: the live stack slots, the next scratch
      address and the scratch list, head first. */
  datatype Machine = Machine(vals: seq<Value>, next: nat, blocks: seq<Block>)

  predicate Distinct(blocks: seq<Block>) {
    forall i, j :: 0 <= i < j < |blocks| ==> blocks[i].id != blocks[j].id
  }

  /** `except == ptr->buff`: the pointer is the start of that block's buffer. */
  predicate IsBuffer(except: CStr, b: Block) {
    except.Ptr? && except.addr == Addr(Scratch(b.id), 0)
  }

  /** The blocks bufflist_clean keeps: those whose buffer is the excepted pointer. */
  function Survivors(blocks: seq<Block>, except: CStr): seq<Block>
    decreases |blocks|
  {
    if blocks == [] then []
    else (if IsBuffer(except, blocks[0]) then [blocks[0]] else []) + Survivors(blocks[1..], except)
  }

  /**
   * bufflist_clean's promise: the list ends empty unless the excepted pointer is the start of
   * some block's buffer, and then that block is the only one left.
   */
  lemma {:induction false} SurvivorsAtMostOne(blocks: seq<Block>, except: CStr)
    requires Distinct(blocks)
    ensures |Survivors(blocks, except)| <= 1
    ensures forall b :: b in Survivors(blocks, except) ==> b in blocks && IsBuffer(except, b)
    ensures Survivors(blocks, except) == [] <==> forall b :: b in blocks ==> !IsBuffer(except, b)
    decreases |blocks|
  {
    if blocks != [] {
      assert Distinct(blocks[1..]);
      SurvivorsAtMostOne(blocks[1..], except);
      if IsBuffer(except, blocks[0]) {
        forall b | b in blocks[1..] ensures !IsBuffer(except, b) {
          var j :| 0 <= j < |blocks[1..]| && blocks[1..][j] == b;
          assert blocks[j + 1] == b;
        }
      }
    }
  }

  /** A pointer into the middle of a scratch buffer keeps nothing alive. */
  lemma SurvivorsNeedBufferStart(blocks: seq<Block>, except: CStr)
    requires except.Ptr? && except.addr.offset != 0
    ensures Survivors(blocks, except) == []
  {
  }

  /** The pointer bufflist_clean is given: the result's string, or NULL. */
  function ExceptOf(v: Value): CStr {
    if v.Str? then v.str else Null
  }

  /** An instruction as express_create stores it. */
  predicate Executable(t: Token) {
    && Runnable(t)
    && t.kind != Invalid && t.kind != End && t.kind != Sep
    && (t.kind == Func ==> 1 <= t.subtype < FUNC_COUNT)
    && (t.kind == Beg || IsOperand(t.kind) ==> t.nparam == 0)
  }

  predicate AllExecutable(rpn: seq<Token>) {
    forall i :: 0 <= i < |rpn| ==> Executable(rpn[i])
  }

  /** The state after an instruction's result is stored in slot base: a plain value, or a
      string in a scratch block that express_alloc put at the head of the list. */
  function Store(eff: Effect, m: Machine, base: nat): (r: Machine)
    requires eff.Push? || eff.PushScratch?
    requires base <= |m.vals|
    ensures |r.vals| == base + 1 && r.vals[..base] == m.vals[..base]
    ensures eff.Push? ==> r.vals[base] == eff.v && r.next == m.next && r.blocks == m.blocks
    ensures eff.PushScratch? ==> r.next == m.next + 1 && |r.blocks| == |m.blocks| + 1
    ensures eff.PushScratch? ==>
      && r.vals[base] == Str(Ptr(Addr(Scratch(m.next), 0), eff.chars))
      && r.blocks == [Block(m.next, eff.chars + ['\0'])] + m.blocks
  {
    match eff
    case Push(v) => m.(vals := m.vals[..base] + [v])
    case PushScratch(cs) =>
      Machine(m.vals[..base] + [Str(Ptr(Addr(Scratch(m.next), 0), cs))], m.next + 1,
        [Block(m.next, cs + ['\0'])] + m.blocks)
  }

  /** Every compiled token, once its text is placed in the buffer, is an instruction the
      stack machine can run. */
  lemma MaterialisedExecutable(s: seq<char>, rpn: seq<Token>)
    requires AllEmitted(s, rpn)
    ensures AllExecutable(Materialise(s, rpn))
  {
    forall j | 0 <= j < |rpn| ensures Executable(Materialise(s, rpn)[j]) {
      MaterialisedAt(s, rpn, |rpn|, j);
    }
  }

  /** What one instruction does to its operands, total so that the stack machine below can
      be stated, and its properties proved, for any instruction semantics. */
  type Semantics = (Token, seq<Value>) -> Effect

  /** express_calculate's switch: Apply on every instruction express_create can store. */
  function Instructions(lib: Libc, fetch: Option<Fetcher>): Semantics {
    (t: Token, args: seq<Value>) => if Runnable(t) && |args| == t.nparam then Apply(lib, fetch, t, args) else UB
  }

  /**
   * express_calculate from instruction i: check the operand count, apply the instruction to
   * the top nparam slots, write the result into the first of them; at the end check that one
   * value is left and clean the scratch list except for the block holding the result.
   */
  function RunFrom(sem: Semantics, rpn: seq<Token>, i: nat, m: Machine): (Evaluation, Machine)
    requires i <= |rpn|
    decreases |rpn| - i
  {
    if i == |rpn| then
      if |m.vals| != 1 then (Aborted, m)
      else (Returned(m.vals[0]), m.(blocks := Survivors(m.blocks, ExceptOf(m.vals[0]))))
    else if rpn[i].nparam > |m.vals| then (Aborted, m)
    else
      var base := |m.vals| - rpn[i].nparam;
      var eff := sem(rpn[i], m.vals[base..]);
      if eff.Abort? then (Aborted, m)
      else if eff.UB? || base >= |rpn| then (Undefined, m)
      else RunFrom(sem, rpn, i + 1, Store(eff, m, base))
  }

  /** express_calculate on a fresh run. */
  function Run(lib: Libc, fetch: Option<Fetcher>, rpn: seq<Token>, next: nat, blocks: seq<Block>): (Evaluation, Machine)
  {
    RunFrom(Instructions(lib, fetch), rpn, 0, Machine([], next, blocks))
  }

  /** The operand count before an instruction of a compiled expression covers its operands,
      and the count after it stays within the instructions run so far. */
  lemma CountStep(rpn: seq<Token>, i: nat)
    requires Accepts(rpn) && AllExecutable(rpn) && i < |rpn|
    ensures rpn[i].nparam <= Depth(rpn[..i])
    ensures Depth(rpn[..i + 1]) == Depth(rpn[..i]) - rpn[i].nparam + 1
    ensures Depth(rpn[..i + 1]) <= i + 1
  {
    DepthSnoc(rpn, i);
    AcceptedDepth(rpn, i + 1);
    assert ArityOkAt(rpn, i);
    assert Executable(rpn[i]);
  }

  lemma {:induction false} SurvivorsAppend(a: seq<Block>, b: seq<Block>, except: CStr)
    ensures Survivors(a + b, except) == Survivors(a, except) + Survivors(b, except)
    decreases |a|
  {
    if a == [] {
      assert a + b == b;
    } else {
      var head := if IsBuffer(except, a[0]) then [a[0]] else [];
      assert Survivors(a + b, except) == head + Survivors(a[1..] + b, except) by {
        assert (a + b)[0] == a[0] && (a + b)[1..] == a[1..] + b;
      }
      SurvivorsAppend(a[1..], b, except);
      assert head + (Survivors(a[1..], except) + Survivors(b, except))
        == (head + Survivors(a[1..], except)) + Survivors(b, except);
    }
  }

  /** With distinct addresses, a block that is the excepted buffer has no earlier twin. */
  lemma SurvivorsUnique(all: seq<Block>, n: nat, except: CStr)
    requires Distinct(all) && n < |all| && IsBuffer(except, all[n])
    ensures Survivors(all[..n], except) == []
  {
    var before := all[..n];
    forall b | b in before ensures !IsBuffer(except, b) {
      var j :| 0 <= j < n && before[j] == b;
      assert all[j] == b && all[j].id != all[n].id;
    }
    assert Distinct(before);
    SurvivorsAtMostOne(before, except);
  }

  /** One iteration of bufflist_clean: the block unlinked next is kept only if it is the
      excepted buffer, and then none kept before it was. */
  lemma CleanStep(all: seq<Block>, taken: seq<Block>, rest: seq<Block>, except: CStr)
    requires all == taken + rest && rest != [] && Distinct(all)
    ensures IsBuffer(except, rest[0]) ==> Survivors(taken, except) == []
    ensures taken + [rest[0]] + rest[1..] == all
    ensures Survivors(taken + [rest[0]], except)
      == Survivors(taken, except) + (if IsBuffer(except, rest[0]) then [rest[0]] else [])
  {
    var ptr := rest[0];
    assert taken == all[..|taken|] && ptr == all[|taken|];
    if IsBuffer(except, ptr) {
      SurvivorsUnique(all, |taken|, except);
    }
    SurvivorsAppend(taken, [ptr], except);
    assert [ptr][1..] == [];
  }

  /** One instruction of the run, unfolded. */
  lemma RunStep(sem: Semantics, rpn: seq<Token>, i: nat, m: Machine)
    requires i < |rpn| && rpn[i].nparam <= |m.vals| <= i
    ensures var base := |m.vals| - rpn[i].nparam;
      var eff := sem(rpn[i], m.vals[base..]);
      && (eff.Abort? ==> RunFrom(sem, rpn, i, m).0 == Aborted)
      && (eff.UB? ==> RunFrom(sem, rpn, i, m).0 == Undefined)
      && (eff.Push? || eff.PushScratch? ==> RunFrom(sem, rpn, i, m) == RunFrom(sem, rpn, i + 1, Store(eff, m, base)))
  {
    var base := |m.vals| - rpn[i].nparam;
    var eff := sem(rpn[i], m.vals[base..]);
    if eff.Abort? {
      assert RunFrom(sem, rpn, i, m) == (Aborted, m);
    } else if eff.UB? {
      assert RunFrom(sem, rpn, i, m) == (Undefined, m);
    } else {
      assert base < |rpn|;
    }
  }

  /** The end of the run, unfolded. */
  lemma RunEnd(sem: Semantics, rpn: seq<Token>, m: Machine)
    requires |m.vals| == 1
    ensures RunFrom(sem, rpn, |rpn|, m) == (Returned(m.vals[0]), m.(blocks := Survivors(m.blocks, ExceptOf(m.vals[0]))))
  {
  }

  class Express {
    /** expr->rpn and expr->size */
    const rpn: seq<Token>
    /** expr->strbuff: the de-escaped names and literals, each followed by a NUL */
    const strbuff: array<char>
    /** What express_create wrote into strbuff; nothing writes to it afterwards. */
    ghost const text: seq<char>
    /** expr->stack: one slot per instruction */
    const stack: array<Value>
    /** expr->list: the scratch blocks, most recent first */
    var blocks: seq<Block>
    /** The address the next scratch block gets: distinct from every live block's. */
    var nextBlock: nat

    /** What express_create establishes; nothing changes it afterwards. */
    ghost predicate Compiled()
      reads strbuff
    {
      && stack.Length == |rpn| && Accepts(rpn) && AllExecutable(rpn)
      && strbuff[..] == text && AllReadable(text, rpn)
    }

    /** The scratch list: distinct blocks, every address below the next one. */
    ghost predicate Scratched()
      reads this
    {
      Distinct(blocks) && forall b :: b in blocks ==> b.id < nextBlock
    }

    ghost predicate Valid()
      reads this, strbuff
    {
      Compiled() && Scratched()
    }

    constructor (rpn: seq<Token>, strbuff: array<char>, ghost text: seq<char>, stack: array<Value>)
      ensures this.rpn == rpn && this.strbuff == strbuff && this.text == text && this.stack == stack
      ensures blocks == [] && nextBlock == 0 && Scratched()
    {
      this.rpn := rpn;
      this.strbuff := strbuff;
      this.text := text;
      this.stack := stack;
      blocks := [];
      nextBlock := 0;
    }

    /**
     * express_create: compile the text; on success size the string buffer (len + 1 for every
     * name and literal), copy the instructions while de-escaping each name and literal into the
     * buffer behind the previous one, and allocate one value slot per instruction.
     */
    static method Create(lib: Libc, s: seq<char>) returns (e: Express?)
      requires ScansWithin(lib) && IsCString(s) && |s| < SIZE_MOD
      ensures e == null <==> !Compile(lib, s).Accepted?
      ensures e != null ==>
        && AllEmitted(s, Compile(lib, s).rpn)
        && e.rpn == Materialise(s, Compile(lib, s).rpn)
        && e.strbuff.Length == Reserved(Compile(lib, s).rpn)
        && e.blocks == [] && e.Valid()
        && fresh(e) && fresh(e.strbuff) && fresh(e.stack)
    {
      var o := ExpressParse(lib, s);
      if !o.Accepted? {
        return null;
      }
      CompileEmits(lib, s);
      var len := StringSpace(s, o.rpn);
      var buf := new char[len](_ => '\0');
      var rpn := CopyTokens(s, o.rpn, buf);
      MaterialiseKeepsShape(s, o.rpn);
      SameShapeAccepts(rpn, o.rpn);
      var stack := new Value[|rpn|](_ => Unset);
      e := new Express(rpn, buf, buf[..], stack);
    }

    /** express_create's first loop: the string buffer's size. */
    static method StringSpace(ghost s: seq<char>, rpn: seq<Token>) returns (len: nat)
      requires AllEmitted(s, rpn)
      ensures len == Reserved(rpn)
    {
      len := 0;
      var i := 0;
      while i < |rpn|
        invariant i <= |rpn| && len == ReservedTo(rpn, i)
      {
        if rpn[i].kind == Ident || rpn[i].kind == StrLit {
          len := len + rpn[i].payload.len + 1;
        }
        i := i + 1;
      }
    }

    /** express_create's second loop: copy each instruction, pointing names and literals at
        their de-escaped text, written one after another into the buffer. */
    static method CopyTokens(s: seq<char>, src: seq<Token>, buf: array<char>) returns (out: seq<Token>)
      requires AllEmitted(s, src) && buf.Length == Reserved(src)
      modifies buf
      ensures out == Materialise(s, src)
      ensures AllReadable(buf[..], out) && AllExecutable(out)
    {
      var off, i := 0, 0;
      out := [];
      while i < |src|
        invariant i <= |src|
        invariant off == Offset(s, src, i) <= buf.Length
        invariant out == MaterialiseTo(s, src, i)
        invariant AllReadable(buf[..off], out)
      {
        out, off := CopyNext(s, src, i, buf, off, out);
        i := i + 1;
      }
      AllReadableGrows(buf[..off], buf[..], out);
      MaterialisedExecutable(s, src);
    }

    /** One pass of the copy loop, on the loop's own terms. */
    static method CopyNext(s: seq<char>, src: seq<Token>, i: nat, buf: array<char>, off: nat, out: seq<Token>)
      returns (out': seq<Token>, off': nat)
      requires AllEmitted(s, src) && buf.Length == Reserved(src) && i < |src| && off <= buf.Length
      requires off == Offset(s, src, i) && out == MaterialiseTo(s, src, i)
      requires AllReadable(buf[..off], out)
      modifies buf
      ensures off' == Offset(s, src, i + 1) <= buf.Length
      ensures out' == MaterialiseTo(s, src, i + 1)
      ensures AllReadable(buf[..off'], out')
    {
      PlaceFits(s, src, i);
      var placed, n := PlaceOne(s, src[i], buf, off, out);
      out' := out + [placed];
      off' := off + n;
      assert AllReadable(buf[..off'], out');
    }

    /** One pass of the copy loop: the instruction, with a name or literal copied to off. */
    static method PlaceOne(s: seq<char>, t: Token, buf: array<char>, off: nat, ghost out: seq<Token>)
      returns (placed: Token, n: nat)
      requires Emitted(s, t) && off + Needed(t) <= buf.Length
      requires AllReadable(buf[..off], out)
      modifies buf
      ensures placed == Placed(s, t, off) && n == Used(s, t)
      ensures off + n <= buf.Length
      ensures AllReadable(buf[..off + n], out + [placed])
    {
      ghost var before := buf[..off];
      if t.kind == Ident || t.kind == StrLit {
        n := CopyStr(buf, off, s, t);
        assert buf[off..off + n - 1] == buf[off..off + n][..n - 1];
        placed := t.(payload := Text(off, buf[off..off + n - 1]));
        assert buf[..off + n][off..off + n - 1] == buf[off..off + n - 1];
      } else {
        placed, n := t, 0;
      }
      AllReadableSnoc(before, buf[..off + n], out, placed);
    }

    /** express_alloc: a zeroed block pushed at the head of the list; its buffer is returned. */
    method Alloc(size: nat) returns (a: Addr)
      requires Scratched()
      modifies this
      ensures a == Addr(Scratch(old(nextBlock)), 0)
      ensures blocks == [Block(old(nextBlock), seq(size, _ => '\0'))] + old(blocks)
      ensures nextBlock == old(nextBlock) + 1
      ensures Scratched()
    {
      a := Addr(Scratch(nextBlock), 0);
      blocks := [Block(nextBlock, seq(size, _ => '\0'))] + blocks;
      nextBlock := nextBlock + 1;
    }

    /** fn_substr's memcpy and terminating NUL into the block just allocated. */
    method FillHead(cs: seq<char>)
      requires Scratched() && |blocks| > 0 && |blocks[0].buff| == |cs| + 1
      modifies this
      ensures blocks == [Block(old(blocks[0].id), cs + ['\0'])] + old(blocks[1..])
      ensures nextBlock == old(nextBlock) && Scratched()
    {
      blocks := [Block(blocks[0].id, cs + ['\0'])] + blocks[1..];
      assert forall b :: b in blocks[1..] ==> b in old(blocks);
    }

    /**
     * bufflist_clean: unlink every block, keeping aside the one whose buffer is the excepted
     * pointer (there is at most one, so its assert holds); that block becomes the whole list.
     */
    method BufflistClean(except: CStr)
      requires Scratched()
      modifies this
      ensures blocks == Survivors(old(blocks), except)
      ensures nextBlock == old(nextBlock) && Scratched()
    {
      ghost var all := blocks;
      ghost var taken: seq<Block> := [];
      var save: Option<Block> := Nothing;
      while blocks != []
        invariant all == taken + blocks && Distinct(all)
        invariant Survivors(taken, except) == (if save.Some? then [save.value] else [])
        invariant save.Some? ==> save.value.id < nextBlock
        invariant nextBlock == old(nextBlock)
        decreases |blocks|
      {
        var ptr := blocks[0];
        CleanStep(all, taken, blocks, except);
        blocks := blocks[1..];
        if IsBuffer(except, ptr) {
          assert save.Nothing? && ptr in old(blocks);
          save := Some(ptr);
        }
        taken := taken + [ptr];
      }
      assert taken == all;
      if save.Some? {
        blocks := [save.value];
      }
    }

    /** The store into arg[0]: the instruction's value, or fn_substr's string in a fresh
        scratch block (express_alloc, then the memcpy and the NUL). */
    method Put(eff: Effect, ss: nat, base: nat)
      requires eff.Push? || eff.PushScratch?
      requires base <= ss <= stack.Length && base < stack.Length && Scratched()
      modifies this, stack
      ensures Machine(stack[..base + 1], nextBlock, blocks)
        == Store(eff, Machine(old(stack[..ss]), old(nextBlock), old(blocks)), base)
      ensures Scratched()
    {
      ghost var before := stack[..ss];
      match eff {
        case Push(v) =>
          stack[base] := v;
        case PushScratch(cs) =>
          var a := Alloc(|cs| + 1);
          FillHead(cs);
          stack[base] := Str(Ptr(a, cs));
      }
      assert stack[..base + 1] == before[..base] + [stack[base]];
    }

    /**
     * One pass of express_calculate's loop: apply instruction i to the top of the value stack
     * and store its result; Some when the instruction aborts or is undefined.
     */
    method Execute(lib: Libc, fetch: Option<Fetcher>, i: nat, ss: nat) returns (r: Option<Evaluation>)
      requires Valid() && i < |rpn| && ss == Depth(rpn[..i]) && ss <= i
      modifies this, stack
      ensures Valid()
      ensures r.Some? ==> (!r.value.Returned? &&
        r.value == RunFrom(Instructions(lib, fetch), rpn, i, Machine(old(stack[..ss]), old(nextBlock), old(blocks))).0)
      ensures r.Nothing? ==>
        && 0 <= Depth(rpn[..i + 1]) <= stack.Length
        && RunFrom(Instructions(lib, fetch), rpn, i + 1, Machine(stack[..Depth(rpn[..i + 1])], nextBlock, blocks))
          == RunFrom(Instructions(lib, fetch), rpn, i, Machine(old(stack[..ss]), old(nextBlock), old(blocks)))
    {
      var t := rpn[i];
      CountStep(rpn, i);
      var base := ss - t.nparam;
      ghost var m := Machine(stack[..ss], nextBlock, blocks);
      assert m.vals[base..] == stack[base..ss];
      assert Executable(t);
      var eff := Apply(lib, fetch, t, stack[base..ss]);
      assert eff == Instructions(lib, fetch)(t, m.vals[base..]);
      RunStep(Instructions(lib, fetch), rpn, i, m);
      if eff.Abort? {
        return Some(Aborted);
      } else if eff.UB? {
        return Some(Undefined);
      }
      Put(eff, ss, base);
      assert Machine(stack[..base + 1], nextBlock, blocks) == Store(eff, m, base);
      r := Nothing;
    }

    /**
     * express_calculate: run every instruction over the value stack, then clean the scratch
     * list except for the result's block. Its asserts on the operand count hold for every
     * compiled expression, so an abort comes only from an instruction itself.
     */
    method Calculate(lib: Libc, fetch: Option<Fetcher>) returns (r: Evaluation)
      requires Valid()
      modifies this, stack
      ensures r == Run(lib, fetch, rpn, old(nextBlock), old(blocks)).0
      ensures r.Returned? ==>
        && Machine([r.value], nextBlock, blocks) == Run(lib, fetch, rpn, old(nextBlock), old(blocks)).1
        && stack[0] == r.value && Valid()
    {
      ghost var want := Run(lib, fetch, rpn, nextBlock, blocks);
      var ss, i := 0, 0;
      while i < |rpn|
        invariant i <= |rpn| == stack.Length && ss == Depth(rpn[..i]) && 0 <= ss <= i
        invariant Valid()
        invariant RunFrom(Instructions(lib, fetch), rpn, i, Machine(stack[..ss], nextBlock, blocks)) == want
        decreases |rpn| - i
      {
        CountStep(rpn, i);
        var stop := Execute(lib, fetch, i, ss);
        if stop.Some? {
          return stop.value;
        }
        ss := ss - rpn[i].nparam + 1;
        i := i + 1;
      }
      assert rpn[..i] == rpn;
      var v := stack[0];
      assert stack[..ss] == [v];
      RunEnd(Instructions(lib, fetch), rpn, Machine(stack[..ss], nextBlock, blocks));
      ghost var cleaned := Survivors(blocks, ExceptOf(v));
      assert want == (Returned(v), Machine([v], nextBlock, cleaned));
      BufflistClean(ExceptOf(v));
      r := Returned(v);
    }
  }

  // ---------------------------------------------------------------- properties of a run

  /** Every instruction but `(` runs without tripping an assert once check_RPN has passed it:
      the operand counts fit and each function's argument count is in its range. */
  lemma ApplyNoAbort(lib: Libc, fetch: Option<Fetcher>, t: Token, args: seq<Value>)
    requires Executable(t) && t.kind != Beg && |args| == t.nparam
    requires t.kind == Func ==> FuncMin(t.subtype) <= t.nparam <= FuncMax(t.subtype)
    ensures !Apply(lib, fetch, t, args).Abort?
  {
    if t.kind == Func {
      CallAbortsIffOutOfRange(lib, t.subtype, args);
    }
  }

  /** A semantics under which only `(` aborts on operands check_RPN lets through. */
  ghost predicate OnlyOpenAborts(sem: Semantics) {
    forall t: Token, args: seq<Value> ::
      Executable(t) && t.kind != Beg && |args| == t.nparam &&
      (t.kind == Func ==> FuncMin(t.subtype) <= t.nparam <= FuncMax(t.subtype))
      ==> !sem(t, args).Abort?
  }

  lemma InstructionsOnlyOpenAborts(lib: Libc, fetch: Option<Fetcher>)
    ensures OnlyOpenAborts(Instructions(lib, fetch))
  {
    forall t: Token, args: seq<Value> |
      Executable(t) && t.kind != Beg && |args| == t.nparam &&
      (t.kind == Func ==> FuncMin(t.subtype) <= t.nparam <= FuncMax(t.subtype))
      ensures !Instructions(lib, fetch)(t, args).Abort?
    {
      ApplyNoAbort(lib, fetch, t, args);
    }
  }

  /** No `(` from instruction i on. */
  predicate NoOpenFrom(rpn: seq<Token>, i: nat)
    requires i <= |rpn|
    decreases |rpn| - i
  {
    i == |rpn| || (rpn[i].kind != Beg && NoOpenFrom(rpn, i + 1))
  }

  lemma {:induction false} NoOpenEverywhere(rpn: seq<Token>, i: nat)
    requires i <= |rpn| && forall j :: i <= j < |rpn| ==> rpn[j].kind != Beg
    ensures NoOpenFrom(rpn, i)
    decreases |rpn| - i
  {
    if i < |rpn| {
      NoOpenEverywhere(rpn, i + 1);
    }
  }

  /**
   * express_calculate's own asserts hold on every compiled expression, so a run can abort
   * only at a `(` that reached the output: a compiled expression without one never aborts.
   */
  lemma RunAbortsOnlyWithOpen(lib: Libc, fetch: Option<Fetcher>, rpn: seq<Token>, next: nat, blocks: seq<Block>)
    requires Accepts(rpn) && AllExecutable(rpn)
    requires forall j :: 0 <= j < |rpn| ==> rpn[j].kind != Beg
    ensures Run(lib, fetch, rpn, next, blocks).0 != Aborted
  {
    InstructionsOnlyOpenAborts(lib, fetch);
    NoOpenEverywhere(rpn, 0);
    assert rpn[..0] == [];
    RunAbortsOnlyAtOpen(Instructions(lib, fetch), rpn, 0, Machine([], next, blocks));
  }

  /**
   * The converse case: the `(` that `1+(!` leaves in the output passes check_RPN, and the
   * run reaches it and aborts on the unknown instruction.
   */
  lemma RunAbortsAtDrainedOpen(lib: Libc, fetch: Option<Fetcher>, v: real, next: nat, blocks: seq<Block>)
    ensures var rpn := [NumToken(v), OperatorToken(Not), OpenToken, OperatorToken(Add)];
      Accepts(rpn) && AllExecutable(rpn) && Run(lib, fetch, rpn, next, blocks).0 == Aborted
  {
    var rpn := [NumToken(v), OperatorToken(Not), OpenToken, OperatorToken(Add)];
    DrainedOpenStored(v);
    DrainedOpenInstructions(lib, fetch, v);
    DrainedOpenAborts(Instructions(lib, fetch), rpn, Machine([], next, blocks));
  }

  /** `1 ! ( +` passes check_RPN and express_create stores every instruction of it. */
  lemma DrainedOpenStored(v: real)
    ensures var rpn := [NumToken(v), OperatorToken(Not), OpenToken, OperatorToken(Add)];
      Accepts(rpn) && AllExecutable(rpn)
  {
    var rpn := [NumToken(v), OperatorToken(Not), OpenToken, OperatorToken(Add)];
    assert Accepts(rpn) by {
      FinishDrainsOpen(NumToken(v));
    }
    assert AllExecutable(rpn) by {
      assert Executable(rpn[0]) && Executable(rpn[1]) && Executable(rpn[2]) && Executable(rpn[3]);
    }
  }

  /** A number and `!` push a value under express_calculate's switch, and `(` aborts. */
  lemma DrainedOpenInstructions(lib: Libc, fetch: Option<Fetcher>, v: real)
    ensures Instructions(lib, fetch)(NumToken(v), []).Push?
    ensures forall x :: Instructions(lib, fetch)(OperatorToken(Not), [x]).Push?
    ensures Instructions(lib, fetch)(OpenToken, []).Abort?
  {
  }

  /** The run of `1 ! ( +` under any semantics in which a number and `!` push and `(` aborts. */
  lemma DrainedOpenAborts(sem: Semantics, rpn: seq<Token>, m: Machine)
    requires |rpn| == 4 && rpn[0].nparam == 0 && rpn[1].nparam == 1 && rpn[2].nparam == 0 && m.vals == []
    requires sem(rpn[0], []).Push?
    requires forall x :: sem(rpn[1], [x]).Push?
    requires sem(rpn[2], []).Abort?
    ensures RunFrom(sem, rpn, 0, m).0 == Aborted
  {
    assert m.vals[0..] == [];
    var m1 := Store(sem(rpn[0], []), m, 0);
    assert RunFrom(sem, rpn, 0, m) == RunFrom(sem, rpn, 1, m1) by {
      RunStep(sem, rpn, 0, m);
    }
    assert m1.vals[0..] == [m1.vals[0]];
    var m2 := Store(sem(rpn[1], [m1.vals[0]]), m1, 0);
    assert RunFrom(sem, rpn, 1, m1) == RunFrom(sem, rpn, 2, m2) by {
      RunStep(sem, rpn, 1, m1);
    }
    assert m2.vals[1..] == [];
    RunStep(sem, rpn, 2, m2);
  }

  /** From instruction i on, with the operand count check_RPN computed and no `(` left to
      run, the run does not abort. */
  lemma {:induction false} RunAbortsOnlyAtOpen(sem: Semantics, rpn: seq<Token>, i: nat, m: Machine)
    requires OnlyOpenAborts(sem) && Accepts(rpn) && AllExecutable(rpn)
    requires i <= |rpn| && |m.vals| == Depth(rpn[..i]) && NoOpenFrom(rpn, i)
    ensures RunFrom(sem, rpn, i, m).0 != Aborted
    decreases |rpn| - i
  {
    if i == |rpn| {
      assert rpn[..i] == rpn;
    } else {
      var next, stop := AbortFreeStep(sem, rpn, i, m);
      if !stop {
        RunAbortsOnlyAtOpen(sem, rpn, i + 1, next);
      }
    }
  }

  /** One instruction other than `(` of a compiled expression: its operands are there, it does
      not abort, and the count after it is the one check_RPN computed. */
  lemma AbortFreeStep(sem: Semantics, rpn: seq<Token>, i: nat, m: Machine) returns (next: Machine, stop: bool)
    requires OnlyOpenAborts(sem) && Accepts(rpn) && AllExecutable(rpn)
    requires i < |rpn| && |m.vals| == Depth(rpn[..i]) && rpn[i].kind != Beg
    ensures stop ==> RunFrom(sem, rpn, i, m).0 == Undefined
    ensures !stop ==> RunFrom(sem, rpn, i, m) == RunFrom(sem, rpn, i + 1, next)
    ensures !stop ==> |next.vals| == Depth(rpn[..i + 1])
  {
    CountStep(rpn, i);
    AcceptedDepth(rpn, i);
    assert ArityOkAt(rpn, i);
    assert Executable(rpn[i]);
    RunStep(sem, rpn, i, m);
    var base := |m.vals| - rpn[i].nparam;
    var eff := sem(rpn[i], m.vals[base..]);
    stop := eff.UB?;
    if !stop {
      next := Store(eff, m, base);
    } else {
      next := m;
    }
  }

  /** A semantics that never produces TV_NONE from operands that are not TV_NONE. */
  ghost predicate NeverUnset(sem: Semantics) {
    forall t: Token, args: seq<Value> :: Unset !in args && sem(t, args).Push? ==> sem(t, args).v != Unset
  }

  lemma InstructionsNeverUnset(lib: Libc, fetch: Option<Fetcher>)
    ensures NeverUnset(Instructions(lib, fetch))
  {
    forall t: Token, args: seq<Value> | Unset !in args && Instructions(lib, fetch)(t, args).Push?
      ensures Instructions(lib, fetch)(t, args).v != Unset
    {
      if Runnable(t) && |args| == t.nparam {
        ApplyNeverUnset(lib, fetch, t, args);
      }
    }
  }

  /** express_calculate returns a TV_NUM or a TV_STR, never TV_NONE. */
  lemma RunNeverUnset(lib: Libc, fetch: Option<Fetcher>, rpn: seq<Token>, next: nat, blocks: seq<Block>)
    ensures Run(lib, fetch, rpn, next, blocks).0.Returned? ==> Run(lib, fetch, rpn, next, blocks).0.value != Unset
  {
    InstructionsNeverUnset(lib, fetch);
    RunFromNeverUnset(Instructions(lib, fetch), rpn, 0, Machine([], next, blocks));
  }

  lemma {:induction false} RunFromNeverUnset(sem: Semantics, rpn: seq<Token>, i: nat, m: Machine)
    requires NeverUnset(sem) && i <= |rpn| && Unset !in m.vals
    ensures RunFrom(sem, rpn, i, m).0.Returned? ==> RunFrom(sem, rpn, i, m).0.value != Unset
    decreases |rpn| - i
  {
    if i < |rpn| && rpn[i].nparam <= |m.vals| {
      var base := |m.vals| - rpn[i].nparam;
      var eff := sem(rpn[i], m.vals[base..]);
      if (eff.Push? || eff.PushScratch?) && base < |rpn| {
        StoreNeverUnset(eff, m, base);
        RunFromNeverUnset(sem, rpn, i + 1, Store(eff, m, base));
      }
    }
  }

  lemma StoreNeverUnset(eff: Effect, m: Machine, base: nat)
    requires (eff.Push? || eff.PushScratch?) && base <= |m.vals| && Unset !in m.vals
    requires eff.Push? ==> eff.v != Unset
    ensures Unset !in Store(eff, m, base).vals
  {
    var r := Store(eff, m, base);
    assert r.vals == m.vals[..base] + [r.vals[base]];
  }

  /** Storing a result keeps the scratch addresses distinct and below the next one. */
  lemma StoreKeepsScratch(eff: Effect, m: Machine, base: nat)
    requires eff.Push? || eff.PushScratch?
    requires base <= |m.vals| && Distinct(m.blocks) && forall b :: b in m.blocks ==> b.id < m.next
    ensures var r := Store(eff, m, base);
      Distinct(r.blocks) && forall b :: b in r.blocks ==> b.id < r.next
  {
    if eff.PushScratch? {
      var r := Store(eff, m, base);
      assert r.blocks == [r.blocks[0]] + m.blocks;
      forall i, j | 0 <= i < j < |r.blocks| ensures r.blocks[i].id != r.blocks[j].id {
        if i == 0 {
          assert r.blocks[j] == m.blocks[j - 1];
        } else {
          assert r.blocks[i] == m.blocks[i - 1] && r.blocks[j] == m.blocks[j - 1];
        }
      }
    }
  }

  /**
   * After a run the scratch list holds at most one block, and only the block whose buffer is
   * the returned string itself: a result pointing into the middle of a block (strstr of a
   * substr) keeps nothing, and the string it points into is freed.
   */
  lemma RunKeepsOnlyResultBlock(lib: Libc, fetch: Option<Fetcher>, rpn: seq<Token>, next: nat, blocks: seq<Block>)
    requires Distinct(blocks) && forall b :: b in blocks ==> b.id < next
    ensures var (e, f) := Run(lib, fetch, rpn, next, blocks);
      e.Returned? ==>
        && |f.blocks| <= 1
        && (forall b :: b in f.blocks ==> IsBuffer(ExceptOf(e.value), b))
        && Distinct(f.blocks) && forall b :: b in f.blocks ==> b.id < f.next
  {
    RunFromKeepsOnlyResultBlock(Instructions(lib, fetch), rpn, 0, Machine([], next, blocks));
  }

  lemma {:induction false} RunFromKeepsOnlyResultBlock(sem: Semantics, rpn: seq<Token>, i: nat, m: Machine)
    requires i <= |rpn| && Distinct(m.blocks) && forall b :: b in m.blocks ==> b.id < m.next
    ensures var (e, f) := RunFrom(sem, rpn, i, m);
      e.Returned? ==>
        && |f.blocks| <= 1
        && (forall b :: b in f.blocks ==> IsBuffer(ExceptOf(e.value), b))
        && Distinct(f.blocks) && forall b :: b in f.blocks ==> b.id < f.next
    decreases |rpn| - i
  {
    if i == |rpn| {
      if |m.vals| == 1 {
        SurvivorsAtMostOne(m.blocks, ExceptOf(m.vals[0]));
      }
    } else if rpn[i].nparam <= |m.vals| {
      var base := |m.vals| - rpn[i].nparam;
      var eff := sem(rpn[i], m.vals[base..]);
      if (eff.Push? || eff.PushScratch?) && base < |rpn| {
        StoreKeepsScratch(eff, m, base);
        RunFromKeepsOnlyResultBlock(sem, rpn, i + 1, Store(eff, m, base));
      }
    }
  }
}
