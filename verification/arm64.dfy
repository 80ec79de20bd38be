/** The ARM64 emitter (arm64.go): the architecture-bound helper of the
    descriptor and every instruction-emitting operation of an ARM64 session.
    Each operation checks the roles of the registers it reads, writes its
    lines, and records the roles of the registers it defines, keyed by their
    ARM64 encodings. */
module Arm64 {
  import opened Ints
  import opened Decimal
  import opened Words
  import opened Text
  import opened Arch
  import opened Abi
  import opened Session
  import opened Operands
  import opened Lanes
  import R = Arm64Regs

  // ----- register names as results -----------------------------------------------

  /** The two operand widths of an ARM64 register name: `x` and `w`. */
  datatype Width = W64 | W32

  function NameAt(w: Width, x: u8): string
    requires R.HasName(x)
  {
    match w
    case W64 => R.Name64(x)
    case W32 => R.Name32(x)
  }

  /** `reg` or `reg4`, failing where Go panics. */
  function RegName(w: Width, x: u8): (r: Result<string>)
    ensures r.Ok? <==> R.HasName(x)
    ensures r.Ok? ==> r.value == NameAt(w, x) && Word(r.value)
    ensures r.Err? ==> r.error == BadRegister(ARM64, x)
  {
    if R.HasName(x) then
      R.NamesAreWords(x);
      Ok(NameAt(w, x))
    else
      Err(BadRegister(ARM64, x))
  }

  /** Whether a register's ARM64 encoding has a name. */
  predicate Has(r: Reg) {
    R.HasName(r.arm64)
  }

  /** The 64-bit name of a register's ARM64 encoding. */
  function Q(r: Reg): string
    requires Has(r)
  {
    R.Name64(r.arm64)
  }

  /** The 32-bit name of a register's ARM64 encoding. */
  function Q4(r: Reg): string
    requires Has(r)
  {
    R.Name32(r.arm64)
  }

  // ----- roles ----------------------------------------------------------------------

  /** `check`: the role check on the register's ARM64 encoding. */
  function Check(st: State, r: Reg): Result<State> {
    CheckUsage(st, r.arm64, r.use)
  }

  predicate Adm(st: State, r: Reg) {
    Admits(st, r.arm64, r.use)
  }

  /** `Set`: records the register's role under its ARM64 encoding. */
  function SetRole(st: State, r: Reg): State {
    SetUsage(st, r.arm64, r.use)
  }

  /** `b` is `a` with `added` appended and `reg`'s role recorded. */
  predicate Defines(a: State, b: State, added: seq<string>, reg: Reg) {
    Defined(a, b, added, reg.arm64, reg.use)
  }

  // ----- condition and shift names -------------------------------------------------

  /** `cond`: the condition suffix of `b.<cond>`. */
  function CondSuffix(c: Cond): string {
    match c
    case EQ => "eq"
    case NE => "ne"
    case LT => "lt"
    case LE => "le"
    case GT => "gt"
    case GE => "ge"
  }

  /** `shift`: the mnemonic of a shift. */
  function ShiftMnemonic(s: Shift): string {
    match s
    case Left => "lsl"
    case RightLogical => "lsr"
    case RightArithmetic => "asr"
  }

  /** Each condition has its own suffix and each shift its own mnemonic, and
      they are all single fields. */
  lemma NamesDistinct(c1: Cond, c2: Cond, s1: Shift, s2: Shift)
    ensures CondSuffix(c1) == CondSuffix(c2) <==> c1 == c2
    ensures ShiftMnemonic(s1) == ShiftMnemonic(s2) <==> s1 == s2
    ensures Word("b." + CondSuffix(c1)) && Word(ShiftMnemonic(s1))
  {
  }

  // ----- the descriptor's helper ---------------------------------------------------

  /** `ArchARM64.ClearReg`: moves zero into the register, without touching
      roles; fails on a session bound to the other architecture. */
  function ClearReg(st: State, x: u8): (r: Result<State>)
    ensures r.Ok? <==> st.arch == ARM64 && R.HasName(x)
    ensures st.arch != ARM64 ==> r == Err(WrongArch(st.arch))
    ensures st.arch == ARM64 && r.Err? ==> r == Err(BadRegister(ARM64, x))
    ensures r.Ok? ==> Wrote(st, r.value, [Line("mov", R.Name64(x) + ", 0")])
  {
    if st.arch != ARM64 then Err(WrongArch(st.arch))
    else
      var d :- RegName(W64, x);
      assert d + ", " + "0" == d + ", 0";
      Ok(Insn2(st, "mov", d, "0"))
  }

  /** Every clearable register can be cleared on an ARM64 session. */
  lemma ClearableRegsClear(st: State, i: nat)
    requires st.arch == ARM64 && i < |R.ClearableRegs|
    ensures ClearReg(st, R.ClearableRegs[i]).Ok?
  {
    R.ClearableRegsSpec();
  }

  // ----- the lines `insnf` writes ------------------------------------------------------

  /** `ldr d, [b, n]`, `ldurb d, [b, n]` and `str s, [b, n]`. */
  lemma MemLine(m: string, d: string, b: string, offset: i64)
    requires m == "ldr" || m == "ldurb" || m == "str"
    requires Word(d) && Word(b)
    ensures InsnfLine(m + " " + (d + ", " + Arm64Mem(b, offset))) == Line(m, d + ", " + Arm64Mem(b, offset))
  {
    assert Word(m);
    Arm64MemOperands(d, b, offset);
    InsnfSplitLine(m, d + ", " + Arm64Mem(b, offset));
  }

  /** `str r, [sp, -8]!`: the pre-decrementing push. */
  lemma PushLine(r: string, sp: string)
    requires Word(r) && Word(sp)
    ensures InsnfLine("str" + " " + (r + ", [" + sp + ", -8]!")) == Line("str", r + ", [" + sp + ", -8]!")
  {
    assert Word("str");
    Arm64StackOperands(r, sp);
    InsnfSplitLine("str", r + ", [" + sp + ", -8]!");
  }

  /** `ldr r, [sp], 8`: the post-incrementing pop. */
  lemma PopLine(r: string, sp: string)
    requires Word(r) && Word(sp)
    ensures InsnfLine("ldr" + " " + (r + ", [" + sp + "], 8")) == Line("ldr", r + ", [" + sp + "], 8")
  {
    assert Word("ldr");
    Arm64StackOperands(r, sp);
    InsnfSplitLine("ldr", r + ", [" + sp + "], 8");
  }

  /** The prologue's and the epilogue's lines for the link register. */
  lemma LinkPushLine(sp: string)
    requires Word(sp)
    ensures InsnfLine("str" + " " + ("lr, [" + sp + ", -8]!")) == Line("str", "lr, [" + sp + ", -8]!")
  {
    assert "lr, [" + sp + ", -8]!" == "lr" + ", [" + sp + ", -8]!";
    PushLine("lr", sp);
  }

  lemma LinkPopLine(sp: string)
    requires Word(sp)
    ensures InsnfLine("ldr" + " " + ("lr, [" + sp + "], 8")) == Line("ldr", "lr, [" + sp + "], 8")
  {
    assert "lr, [" + sp + "], 8" == "lr" + ", [" + sp + "], 8";
    PopLine("lr", sp);
  }

  // ----- labels, functions and returns ----------------------------------------------------

  /** The heading of a label or function: for a global name an empty line and
      the visibility directives, then for every name an empty line and the
      label. ARM64 output is never aligned explicitly. */
  function LabelHead(name: string, withType: bool): (ls: seq<string>)
    ensures |ls| == if !Global(name) then 2 else if withType then 5 else 4
  {
    (if Global(name) then ["\n"] + VisibilityLines(name, withType) else []) + ["\n", LabelLine(name)]
  }

  /** The heading for a whitespace-free name, as text. */
  lemma LabelHeadText(name: string, withType: bool)
    requires Word(name)
    ensures Global(name) && withType ==> (LabelHead(name, withType) == ["\n",
      ".globl\t" + Symbol(name) + "\n", ".type\t" + Symbol(name) + ",@function\n", "\n", Symbol(name) + ":\n"])
    ensures Global(name) && !withType ==> (LabelHead(name, withType)
      == ["\n", ".globl\t" + Symbol(name) + "\n", "\n", Symbol(name) + ":\n"])
    ensures !Global(name) ==> LabelHead(name, withType) == ["\n", Symbol(name) + ":\n"]
  {
    LabelOfWord(name);
    if Global(name) {
      VisibilityText(name, withType);
    }
  }

  /** The common part of `Label`, `Function` and `FunctionWithoutPrologue`. */
  function Head(st: State, name: string, withType: bool): (r: State)
    ensures Grew(st, r, |LabelHead(name, withType)|)
    ensures r.lines == st.lines + LabelHead(name, withType)
  {
    if Global(name) then
      var b := Blank(st);
      var s := Visibility(b, name, withType);
      AppendThree(st.lines, ["\n"], VisibilityLines(name, withType), ["\n", LabelLine(name)]);
      var r := Heading(s, name);
      GrewTrans(b, s, r, |VisibilityLines(name, withType)|, 2);
      GrewTrans(st, b, r, 1, |VisibilityLines(name, withType)| + 2);
      r
    else
      assert [] + ["\n", LabelLine(name)] == ["\n", LabelLine(name)];
      Heading(st, name)
  }

  /** `Label`: a global name is exported and typed as a function. */
  function Label(st: State, name: string): (r: State)
    ensures Grew(st, r, if Global(name) then 5 else 2)
    ensures r.lines == st.lines + LabelHead(name, true)
  {
    Head(st, name, true)
  }

  /** The name of the stack pointer, which the prologue, the epilogue and the
      stack operations use. */
  function StackName(st: State): (r: Result<string>)
    ensures r == RegName(W64, st.sys.stackPtr.arm64)
  {
    RegName(W64, st.sys.stackPtr.arm64)
  }

  /** `Function`: the heading of `Label`, then the link register saved below
      the stack pointer, which is decremented first. */
  function Function(st: State, name: string): (r: Result<State>)
    ensures r.Ok? <==> Has(st.sys.stackPtr)
    ensures r.Err? ==> r.error == BadRegister(ARM64, st.sys.stackPtr.arm64)
    ensures r.Ok? ==> Grew(st, r.value, |LabelHead(name, true)| + 1)
    ensures r.Ok? ==> (r.value.lines == st.lines + LabelHead(name, true)
      + [Line("str", "lr, [" + Q(st.sys.stackPtr) + ", -8]!")])
  {
    var sp :- StackName(st);
    var s := Head(st, name, true);
    LinkPushLine(sp);
    var r := InsnfSplit(s, "str", "lr, [" + sp + ", -8]!");
    GrewTrans(st, s, r, |LabelHead(name, true)|, 1);
    Ok(r)
  }

  /** `FunctionWithoutPrologue`: like `Label`, but a global name is only
      exported, not typed, and nothing is saved. */
  function FunctionWithoutPrologue(st: State, name: string): (r: State)
    ensures Grew(st, r, if Global(name) then 4 else 2)
    ensures r.lines == st.lines + LabelHead(name, false)
  {
    Head(st, name, false)
  }

  /** `FunctionEpilogue`: the link register restored from the stack, which is
      incremented after. */
  function FunctionEpilogue(st: State): (r: Result<State>)
    ensures r.Ok? <==> Has(st.sys.stackPtr)
    ensures r.Err? ==> r.error == BadRegister(ARM64, st.sys.stackPtr.arm64)
    ensures r.Ok? ==> Wrote(st, r.value, [Line("ldr", "lr, [" + Q(st.sys.stackPtr) + "], 8")])
  {
    var sp :- StackName(st);
    LinkPopLine(sp);
    Ok(InsnfSplit(st, "ldr", "lr, [" + sp + "], 8"))
  }

  /** The two lines of the speculation barrier. */
  const BarrierLines: seq<string> := [Line("dsb", "sy"), Bare("isb")]

  /** `speculationBarrier`: a full data synchronisation barrier, then an
      instruction synchronisation barrier. */
  function Barrier(st: State): (r: State)
    ensures Wrote(st, r, BarrierLines) && Grew(st, r, 2)
  {
    EmitTwo(st, Line("dsb", "sy"), Bare("isb"));
    Insn0(Insn1(st, "dsb", "sy"), "isb")
  }

  /** `ReturnWithoutEpilogue`: `ret`, then the speculation barrier. */
  function ReturnWithoutEpilogue(st: State): (r: State)
    ensures Wrote(st, r, [Bare("ret")] + BarrierLines)
  {
    EmitThree(st, Bare("ret"), Line("dsb", "sy"), Bare("isb"));
    Barrier(Insn0(st, "ret"))
  }

  /** `Return`: the epilogue, then `ret` and the barrier. */
  function Return(st: State): (r: Result<State>)
    ensures r.Ok? <==> Has(st.sys.stackPtr)
    ensures r.Err? ==> r.error == BadRegister(ARM64, st.sys.stackPtr.arm64)
    ensures r.Ok? ==> Wrote(st, r.value,
      [Line("ldr", "lr, [" + Q(st.sys.stackPtr) + "], 8"), Bare("ret"), Line("dsb", "sy"), Bare("isb")])
  {
    var s :- FunctionEpilogue(st);
    EmitFour(st, Line("ldr", "lr, [" + Q(st.sys.stackPtr) + "], 8"), Bare("ret"), Line("dsb", "sy"), Bare("isb"));
    Ok(ReturnWithoutEpilogue(s))
  }

  // ----- moves ------------------------------------------------------------------------------

  /** `Address`: the address of a symbol, relative to the program counter. */
  function Address(st: State, dest: Reg, name: string): (r: Result<State>)
    ensures r.Ok? <==> Has(dest)
    ensures r.Err? ==> r.error == BadRegister(ARM64, dest.arm64)
    ensures r.Ok? ==> Defines(st, r.value, [Line("adr", Q(dest) + ", " + Symbol(name))], dest)
  {
    var d :- RegName(W64, dest.arm64);
    Ok(SetRole(Insn2(st, "adr", d, Symbol(name)), dest))
  }

  /** `MoveDef`: the value of a defined symbol. */
  function MoveDef(st: State, dest: Reg, name: string): (r: Result<State>)
    ensures r.Ok? <==> Has(dest)
    ensures r.Err? ==> r.error == BadRegister(ARM64, dest.arm64)
    ensures r.Ok? ==> Defines(st, r.value, [Line("mov", Q(dest) + ", " + Symbol(name))], dest)
  {
    var d :- RegName(W64, dest.arm64);
    Ok(SetRole(Insn2(st, "mov", d, Symbol(name)), dest))
  }

  /** The mnemonic of a move-wide instruction. */
  function WideMnemonic(op: WideOp): string {
    match op
    case Movz => "movz"
    case Movn => "movn"
    case Movk => "movk"
  }

  /** The line of one planned instruction for the register named `d`: a
      plain `mov` of a signed immediate, or a move-wide of a 16-bit immediate
      shifted to its lane. */
  function MovLine(d: string, m: Mov): string {
    match m
    case Plain(x) => Line("mov", d + ", " + Dec(x))
    case Wide(op, imm, k) => Line(WideMnemonic(op), d + ", " + Dec(imm) + ", " + LaneShift(k))
  }

  /** The shift operand that places an immediate in lane `k`. */
  function LaneShift(k: LaneIndex): string {
    "lsl #" + Dec(16 * k)
  }

  /** The lines of a planned sequence, in order. */
  function MovLines(d: string, ms: seq<Mov>): (ls: seq<string>)
    ensures |ls| == |ms|
    ensures forall i :: 0 <= i < |ms| ==> ls[i] == MovLine(d, ms[i])
    decreases |ms|
  {
    if ms == [] then [] else [MovLine(d, ms[0])] + MovLines(d, ms[1..])
  }

  /** `insn` of one planned instruction. */
  function InsnMov(st: State, d: string, m: Mov): (r: State)
    ensures Wrote(st, r, [MovLine(d, m)])
  {
    match m
    case Plain(x) => Insn2(st, "mov", d, Dec(x))
    case Wide(op, imm, k) => Insn3(st, WideMnemonic(op), d, Dec(imm), LaneShift(k))
  }

  /** The instructions of a plan, written one after the other. */
  function InsnMovs(st: State, d: string, ms: seq<Mov>): (r: State)
    ensures Wrote(st, r, MovLines(d, ms))
    decreases |ms|
  {
    if ms == [] then
      assert st.lines + [] == st.lines;
      st
    else
      var s := InsnMov(st, d, ms[0]);
      var r := InsnMovs(s, d, ms[1..]);
      AppendTwo(st.lines, [MovLine(d, ms[0])], MovLines(d, ms[1..]));
      r
  }

  /** `MoveImm64`: the instructions of `Plan` (lanes.dfy shows that the
      source's counting and emitting loops produce exactly them), written for
      the 64-bit name; the role is recorded by the deferred `Set`. */
  function MoveImm64(st: State, dest: Reg, value: u64): (r: Result<State>)
    ensures r.Ok? <==> Has(dest)
    ensures r.Err? ==> r.error == BadRegister(ARM64, dest.arm64)
    ensures r.Ok? ==> Defines(st, r.value, MovLines(Q(dest), Plan(value)), dest)
  {
    var d :- RegName(W64, dest.arm64);
    Ok(SetRole(InsnMovs(st, d, Plan(value)), dest))
  }

  /** `MoveImm`: `MoveImm64` of the same bits read unsigned, and the role
      recorded once more, which changes nothing. */
  function MoveImm(st: State, dest: Reg, value: i64): (r: Result<State>)
    ensures r == MoveImm64(st, dest, ToUint64(value))
  {
    var s :- MoveImm64(st, dest, ToUint64(value));
    assert s.usage[dest.arm64 := dest.use] == s.usage;
    Ok(SetRole(s, dest))
  }

  /** `MoveReg`: reads `src`; both registers are named, and a move is written
      only when the names differ, which is exactly when the encodings do. */
  function MoveReg(st: State, dest: Reg, src: Reg): (r: Result<State>)
    ensures r.Ok? <==> Adm(st, src) && Has(dest) && Has(src)
    ensures !Adm(st, src) ==> r == Check(st, src)
    ensures Adm(st, src) && !Has(dest) ==> r == Err(BadRegister(ARM64, dest.arm64))
    ensures Adm(st, src) && Has(dest) && !Has(src) ==> r == Err(BadRegister(ARM64, src.arm64))
    ensures r.Ok? && dest.arm64 == src.arm64 ==> Defines(st, r.value, [], dest)
    ensures r.Ok? && dest.arm64 != src.arm64 ==> Defines(st, r.value, [Line("mov", Q(dest) + ", " + Q(src))], dest)
  {
    var s :- Check(st, src);
    var d :- RegName(W64, dest.arm64);
    var a :- RegName(W64, src.arm64);
    R.NamesInjective(dest.arm64, src.arm64);
    if d != a then
      Ok(SetRole(Insn2(s, "mov", d, a), dest))
    else
      assert s.lines + [] == s.lines;
      Ok(SetRole(s, dest))
  }

  /** The name of a floating-point register. */
  function FloatName(n: u8): string {
    "d" + Dec(n)
  }

  /** `MoveRegFloat`: the bits of a floating-point register. */
  function MoveRegFloat(st: State, dest: Reg, src: u8): (r: Result<State>)
    ensures r.Ok? <==> Has(dest)
    ensures r.Err? ==> r.error == BadRegister(ARM64, dest.arm64)
    ensures r.Ok? ==> Defines(st, r.value, [Line("fmov", Q(dest) + ", " + FloatName(src))], dest)
  {
    var d :- RegName(W64, dest.arm64);
    Ok(SetRole(Insn2(st, "fmov", d, FloatName(src)), dest))
  }

  // ----- arithmetic -----------------------------------------------------------------------------

  /** `AddImm`: reads `src`; always one three-operand `add`. */
  function AddImm(st: State, dest: Reg, src: Reg, value: i64): (r: Result<State>)
    ensures r.Ok? <==> Adm(st, src) && Has(dest) && Has(src)
    ensures !Adm(st, src) ==> r == Check(st, src)
    ensures Adm(st, src) && !Has(dest) ==> r == Err(BadRegister(ARM64, dest.arm64))
    ensures Adm(st, src) && Has(dest) && !Has(src) ==> r == Err(BadRegister(ARM64, src.arm64))
    ensures r.Ok? ==> Defines(st, r.value, [Line("add", Q(dest) + ", " + Q(src) + ", " + Dec(value))], dest)
  {
    var s :- Check(st, src);
    var d :- RegName(W64, dest.arm64);
    var a :- RegName(W64, src.arm64);
    Ok(SetRole(Insn3(s, "add", d, a, Dec(value)), dest))
  }

  /** `AddReg`: reads both sources; always one three-operand `add`. */
  function AddReg(st: State, dest: Reg, src1: Reg, src2: Reg): (r: Result<State>)
    ensures r.Ok? <==> Adm(st, src1) && Adm(st, src2) && Has(dest) && Has(src1) && Has(src2)
    ensures !Adm(st, src1) ==> r == Check(st, src1)
    ensures Adm(st, src1) && !Adm(st, src2) ==> r == Check(st, src2)
    ensures Adm(st, src1) && Adm(st, src2) && !Has(dest) ==> r == Err(BadRegister(ARM64, dest.arm64))
    ensures Adm(st, src1) && Adm(st, src2) && Has(dest) && !Has(src1) ==> r == Err(BadRegister(ARM64, src1.arm64))
    ensures Adm(st, src1) && Adm(st, src2) && Has(dest) && Has(src1) && !Has(src2) ==> r == Err(BadRegister(ARM64, src2.arm64))
    ensures r.Ok? ==> Defines(st, r.value, [Line("add", Q(dest) + ", " + Q(src1) + ", " + Q(src2))], dest)
  {
    var s :- Check(st, src1);
    var s' :- Check(s, src2);
    var d :- RegName(W64, dest.arm64);
    var a :- RegName(W64, src1.arm64);
    var b :- RegName(W64, src2.arm64);
    Ok(SetRole(Insn3(s', "add", d, a, b), dest))
  }

  /** An instruction that combines a register with an immediate in place:
      reads and defines `dest`. */
  function RegImm(st: State, m: string, dest: Reg, value: i64): (r: Result<State>)
    ensures r.Ok? <==> Adm(st, dest) && Has(dest)
    ensures !Adm(st, dest) ==> r == Check(st, dest)
    ensures Adm(st, dest) && r.Err? ==> r.error == BadRegister(ARM64, dest.arm64)
    ensures r.Ok? ==> Defines(st, r.value, [Line(m, Q(dest) + ", " + Q(dest) + ", " + Dec(value))], dest)
  {
    var s :- Check(st, dest);
    var d :- RegName(W64, dest.arm64);
    Ok(SetRole(Insn3(s, m, d, d, Dec(value)), dest))
  }

  /** An instruction that combines two registers in place: reads both and
      defines `dest`. */
  function RegReg(st: State, m: string, dest: Reg, src: Reg): (r: Result<State>)
    ensures r.Ok? <==> Adm(st, dest) && Adm(st, src) && Has(dest) && Has(src)
    ensures !Adm(st, dest) ==> r == Check(st, dest)
    ensures Adm(st, dest) && !Adm(st, src) ==> r == Check(st, src)
    ensures Adm(st, dest) && Adm(st, src) && !Has(dest) ==> r == Err(BadRegister(ARM64, dest.arm64))
    ensures Adm(st, dest) && Adm(st, src) && Has(dest) && !Has(src) ==> r == Err(BadRegister(ARM64, src.arm64))
    ensures r.Ok? ==> Defines(st, r.value, [Line(m, Q(dest) + ", " + Q(dest) + ", " + Q(src))], dest)
  {
    var s :- Check(st, dest);
    var s' :- Check(s, src);
    var d :- RegName(W64, dest.arm64);
    var a :- RegName(W64, src.arm64);
    Ok(SetRole(Insn3(s', m, d, d, a), dest))
  }

  /** `SubtractImm`: reads `dest`; subtracting zero writes nothing, names
      nothing, but still records the role. */
  function SubtractImm(st: State, dest: Reg, value: i64): (r: Result<State>)
    ensures r.Ok? <==> Adm(st, dest) && (value == 0 || Has(dest))
    ensures !Adm(st, dest) ==> r == Check(st, dest)
    ensures Adm(st, dest) && r.Err? ==> r.error == BadRegister(ARM64, dest.arm64)
    ensures r.Ok? && value == 0 ==> Defines(st, r.value, [], dest)
    ensures r.Ok? && value != 0 ==> Defines(st, r.value, [Line("sub", Q(dest) + ", " + Q(dest) + ", " + Dec(value))], dest)
  {
    if value == 0 then
      var s :- Check(st, dest);
      assert s.lines + [] == s.lines;
      Ok(SetRole(s, dest))
    else
      RegImm(st, "sub", dest, value)
  }

  /** `SubtractReg`. */
  function SubtractReg(st: State, dest: Reg, src: Reg): (r: Result<State>)
    ensures r.Ok? <==> Adm(st, dest) && Adm(st, src) && Has(dest) && Has(src)
    ensures !Adm(st, dest) ==> r == Check(st, dest)
    ensures Adm(st, dest) && !Adm(st, src) ==> r == Check(st, src)
    ensures Adm(st, dest) && Adm(st, src) && !Has(dest) ==> r == Err(BadRegister(ARM64, dest.arm64))
    ensures Adm(st, dest) && Adm(st, src) && Has(dest) && !Has(src) ==> r == Err(BadRegister(ARM64, src.arm64))
    ensures r.Ok? ==> Defines(st, r.value, [Line("sub", Q(dest) + ", " + Q(dest) + ", " + Q(src))], dest)
  {
    RegReg(st, "sub", dest, src)
  }

  /** `MultiplyImm`: reads `src`, materialises the multiplier in `temp` with
      `MoveImm`, multiplies into `dest`, records `dest`'s role and finally
      records the empty role for `temp`. */
  function MultiplyImm(st: State, dest: Reg, src: Reg, value: i64, temp: Reg): (r: Result<State>)
    ensures r.Ok? <==> Adm(st, src) && Has(temp) && Has(dest) && Has(src)
    ensures !Adm(st, src) ==> r == Check(st, src)
    ensures Adm(st, src) && !Has(temp) ==> r == Err(BadRegister(ARM64, temp.arm64))
    ensures Adm(st, src) && Has(temp) && !Has(dest) ==> r == Err(BadRegister(ARM64, dest.arm64))
    ensures Adm(st, src) && Has(temp) && Has(dest) && !Has(src) ==> r == Err(BadRegister(ARM64, src.arm64))
    ensures r.Ok? ==> Wrote(st.(usage := st.usage[temp.arm64 := temp.use][dest.arm64 := dest.use][temp.arm64 := ""]),
      r.value, MovLines(Q(temp), Plan(ToUint64(value))) + [Line("mul", Q(dest) + ", " + Q(src) + ", " + Q(temp))])
  {
    var s :- Check(st, src);
    var t :- MoveImm(s, temp, value);
    var d :- RegName(W64, dest.arm64);
    var a :- RegName(W64, src.arm64);
    var u := SetRole(Insn3(t, "mul", d, a, Q(temp)), dest);
    Ok(SetRole(u, temp.As("")))
  }

  /** `AndImm`. */
  function AndImm(st: State, dest: Reg, value: i64): (r: Result<State>)
    ensures r.Ok? <==> Adm(st, dest) && Has(dest)
    ensures !Adm(st, dest) ==> r == Check(st, dest)
    ensures Adm(st, dest) && r.Err? ==> r.error == BadRegister(ARM64, dest.arm64)
    ensures r.Ok? ==> Defines(st, r.value, [Line("and", Q(dest) + ", " + Q(dest) + ", " + Dec(value))], dest)
  {
    RegImm(st, "and", dest, value)
  }

  /** `AndReg`. */
  function AndReg(st: State, dest: Reg, src: Reg): (r: Result<State>)
    ensures r.Ok? <==> Adm(st, dest) && Adm(st, src) && Has(dest) && Has(src)
    ensures !Adm(st, dest) ==> r == Check(st, dest)
    ensures Adm(st, dest) && !Adm(st, src) ==> r == Check(st, src)
    ensures Adm(st, dest) && Adm(st, src) && !Has(dest) ==> r == Err(BadRegister(ARM64, dest.arm64))
    ensures Adm(st, dest) && Adm(st, src) && Has(dest) && !Has(src) ==> r == Err(BadRegister(ARM64, src.arm64))
    ensures r.Ok? ==> Defines(st, r.value, [Line("and", Q(dest) + ", " + Q(dest) + ", " + Q(src))], dest)
  {
    RegReg(st, "and", dest, src)
  }

  /** `OrImm`. */
  function OrImm(st: State, dest: Reg, value: i64): (r: Result<State>)
    ensures r.Ok? <==> Adm(st, dest) && Has(dest)
    ensures !Adm(st, dest) ==> r == Check(st, dest)
    ensures Adm(st, dest) && r.Err? ==> r.error == BadRegister(ARM64, dest.arm64)
    ensures r.Ok? ==> Defines(st, r.value, [Line("orr", Q(dest) + ", " + Q(dest) + ", " + Dec(value))], dest)
  {
    RegImm(st, "orr", dest, value)
  }

  /** `OrReg`. */
  function OrReg(st: State, dest: Reg, src: Reg): (r: Result<State>)
    ensures r.Ok? <==> Adm(st, dest) && Adm(st, src) && Has(dest) && Has(src)
    ensures !Adm(st, dest) ==> r == Check(st, dest)
    ensures Adm(st, dest) && !Adm(st, src) ==> r == Check(st, src)
    ensures Adm(st, dest) && Adm(st, src) && !Has(dest) ==> r == Err(BadRegister(ARM64, dest.arm64))
    ensures Adm(st, dest) && Adm(st, src) && Has(dest) && !Has(src) ==> r == Err(BadRegister(ARM64, src.arm64))
    ensures r.Ok? ==> Defines(st, r.value, [Line("orr", Q(dest) + ", " + Q(dest) + ", " + Q(src))], dest)
  {
    RegReg(st, "orr", dest, src)
  }

  /** `ShiftImm`: reads the register; a zero count writes nothing, names
      nothing, but still records the role. */
  function ShiftImm(st: State, s: Shift, x: Reg, count: i64): (r: Result<State>)
    ensures r.Ok? <==> Adm(st, x) && (count == 0 || Has(x))
    ensures !Adm(st, x) ==> r == Check(st, x)
    ensures Adm(st, x) && r.Err? ==> r.error == BadRegister(ARM64, x.arm64)
    ensures r.Ok? && count == 0 ==> Defines(st, r.value, [], x)
    ensures r.Ok? && count != 0 ==> Defines(st, r.value, [Line(ShiftMnemonic(s), Q(x) + ", " + Q(x) + ", " + Dec(count))], x)
  {
    if count == 0 then
      var t :- Check(st, x);
      assert t.lines + [] == t.lines;
      Ok(SetRole(t, x))
    else
      RegImm(st, ShiftMnemonic(s), x, count)
  }

  // ----- memory ----------------------------------------------------------------------------------

  /** `Load` (`ldr` of the 64-bit name), `Load4Bytes` (`ldr` of the 32-bit
      name) and `LoadByte` (`ldurb` of the 32-bit name): reads the base; the
      destination is named before the base. */
  function LoadWith(st: State, m: string, w: Width, dest: Reg, base: Reg, offset: i64): (r: Result<State>)
    requires m == "ldr" || m == "ldurb"
    ensures r.Ok? <==> Adm(st, base) && Has(dest) && Has(base)
    ensures !Adm(st, base) ==> r == Check(st, base)
    ensures Adm(st, base) && !Has(dest) ==> r == Err(BadRegister(ARM64, dest.arm64))
    ensures Adm(st, base) && Has(dest) && !Has(base) ==> r == Err(BadRegister(ARM64, base.arm64))
    ensures r.Ok? ==> Defines(st, r.value, [Line(m, NameAt(w, dest.arm64) + ", " + Arm64Mem(Q(base), offset))], dest)
  {
    var s :- Check(st, base);
    var d :- RegName(w, dest.arm64);
    var b :- RegName(W64, base.arm64);
    MemLine(m, d, b, offset);
    Ok(SetRole(InsnfSplit(s, m, d + ", " + Arm64Mem(b, offset)), dest))
  }

  function Load(st: State, dest: Reg, base: Reg, offset: i64): (r: Result<State>)
    ensures r.Ok? <==> Adm(st, base) && Has(dest) && Has(base)
    ensures !Adm(st, base) ==> r == Check(st, base)
    ensures Adm(st, base) && !Has(dest) ==> r == Err(BadRegister(ARM64, dest.arm64))
    ensures Adm(st, base) && Has(dest) && !Has(base) ==> r == Err(BadRegister(ARM64, base.arm64))
    ensures r.Ok? ==> Defines(st, r.value, [Line("ldr", Q(dest) + ", " + Arm64Mem(Q(base), offset))], dest)
  {
    LoadWith(st, "ldr", W64, dest, base, offset)
  }

  function Load4Bytes(st: State, dest: Reg, base: Reg, offset: i64): (r: Result<State>)
    ensures r.Ok? <==> Adm(st, base) && Has(dest) && Has(base)
    ensures !Adm(st, base) ==> r == Check(st, base)
    ensures Adm(st, base) && !Has(dest) ==> r == Err(BadRegister(ARM64, dest.arm64))
    ensures Adm(st, base) && Has(dest) && !Has(base) ==> r == Err(BadRegister(ARM64, base.arm64))
    ensures r.Ok? ==> Defines(st, r.value, [Line("ldr", Q4(dest) + ", " + Arm64Mem(Q(base), offset))], dest)
  {
    LoadWith(st, "ldr", W32, dest, base, offset)
  }

  function LoadByte(st: State, dest: Reg, base: Reg, offset: i64): (r: Result<State>)
    ensures r.Ok? <==> Adm(st, base) && Has(dest) && Has(base)
    ensures !Adm(st, base) ==> r == Check(st, base)
    ensures Adm(st, base) && !Has(dest) ==> r == Err(BadRegister(ARM64, dest.arm64))
    ensures Adm(st, base) && Has(dest) && !Has(base) ==> r == Err(BadRegister(ARM64, base.arm64))
    ensures r.Ok? ==> Defines(st, r.value, [Line("ldurb", Q4(dest) + ", " + Arm64Mem(Q(base), offset))], dest)
  {
    LoadWith(st, "ldurb", W32, dest, base, offset)
  }

  /** `Store` (64-bit name) and `Store4Bytes` (32-bit name): reads base and
      source, which is named before the base; no role changes. */
  function StoreAs(st: State, w: Width, base: Reg, offset: i64, src: Reg): (r: Result<State>)
    ensures r.Ok? <==> Adm(st, base) && Adm(st, src) && Has(src) && Has(base)
    ensures !Adm(st, base) ==> r == Check(st, base)
    ensures Adm(st, base) && !Adm(st, src) ==> r == Check(st, src)
    ensures Adm(st, base) && Adm(st, src) && !Has(src) ==> r == Err(BadRegister(ARM64, src.arm64))
    ensures Adm(st, base) && Adm(st, src) && Has(src) && !Has(base) ==> r == Err(BadRegister(ARM64, base.arm64))
    ensures r.Ok? ==> Wrote(st, r.value, [Line("str", NameAt(w, src.arm64) + ", " + Arm64Mem(Q(base), offset))])
  {
    var s :- Check(st, base);
    var s' :- Check(s, src);
    var a :- RegName(w, src.arm64);
    var b :- RegName(W64, base.arm64);
    MemLine("str", a, b, offset);
    Ok(InsnfSplit(s', "str", a + ", " + Arm64Mem(b, offset)))
  }

  /** `Push`: reads the register (but not the stack pointer) and stores it
      below the stack pointer, decrementing it first. */
  function Push(st: State, x: Reg): (r: Result<State>)
    ensures r.Ok? <==> Adm(st, x) && Has(x) && Has(st.sys.stackPtr)
    ensures !Adm(st, x) ==> r == Check(st, x)
    ensures Adm(st, x) && !Has(x) ==> r == Err(BadRegister(ARM64, x.arm64))
    ensures Adm(st, x) && Has(x) && !Has(st.sys.stackPtr) ==> r == Err(BadRegister(ARM64, st.sys.stackPtr.arm64))
    ensures r.Ok? ==> Wrote(st, r.value, [Line("str", Q(x) + ", [" + Q(st.sys.stackPtr) + ", -8]!")])
  {
    var s :- Check(st, x);
    var d :- RegName(W64, x.arm64);
    var sp :- StackName(st);
    PushLine(d, sp);
    Ok(InsnfSplit(s, "str", d + ", [" + sp + ", -8]!"))
  }

  /** `Pop`: defines the register without reading anything, loading it from
      the stack pointer and incrementing it after. */
  function Pop(st: State, x: Reg): (r: Result<State>)
    ensures r.Ok? <==> Has(x) && Has(st.sys.stackPtr)
    ensures !Has(x) ==> r == Err(BadRegister(ARM64, x.arm64))
    ensures Has(x) && !Has(st.sys.stackPtr) ==> r == Err(BadRegister(ARM64, st.sys.stackPtr.arm64))
    ensures r.Ok? ==> Defines(st, r.value, [Line("ldr", Q(x) + ", [" + Q(st.sys.stackPtr) + "], 8")], x)
  {
    var d :- RegName(W64, x.arm64);
    var sp :- StackName(st);
    PopLine(d, sp);
    Ok(SetRole(InsnfSplit(st, "ldr", d + ", [" + sp + "], 8"), x))
  }

  // ----- control flow ----------------------------------------------------------------------------

  /** `Jump`. */
  function Jump(st: State, name: string): (r: State)
    ensures Wrote(st, r, [Line("b", Symbol(name))])
  {
    Insn1(st, "b", Symbol(name))
  }

  /** `Call`: branch with link. */
  function Call(st: State, name: string): (r: State)
    ensures Wrote(st, r, [Line("bl", Symbol(name))])
  {
    Insn1(st, "bl", Symbol(name))
  }

  /** `Unreachable`: a breakpoint. */
  function Unreachable(st: State): (r: State)
    ensures Wrote(st, r, [Line("brk", "0")])
  {
    Insn1(st, "brk", "0")
  }

  /** `JumpRegRoutine`: a plain indirect branch followed by the speculation
      barrier; the name prefix is not used on ARM64. */
  function JumpRegRoutine(st: State, x: Reg, prefix: string): (r: Result<State>)
    ensures r.Ok? <==> Adm(st, x) && Has(x)
    ensures !Adm(st, x) ==> r == Check(st, x)
    ensures Adm(st, x) && r.Err? ==> r.error == BadRegister(ARM64, x.arm64)
    ensures r.Ok? ==> Wrote(st, r.value, [Line("br", Q(x))] + BarrierLines)
  {
    var s :- Check(st, x);
    var d :- RegName(W64, x.arm64);
    EmitThree(s, Line("br", d), Line("dsb", "sy"), Bare("isb"));
    Ok(Barrier(Insn1(s, "br", d)))
  }

  /** A test of one bit and a branch on its outcome; the bit number is
      converted from `uint` to `int` as Go does. */
  function BitTest(st: State, m: string, x: Reg, bit: u64, name: string): (r: Result<State>)
    ensures r.Ok? <==> Adm(st, x) && Has(x)
    ensures !Adm(st, x) ==> r == Check(st, x)
    ensures Adm(st, x) && r.Err? ==> r.error == BadRegister(ARM64, x.arm64)
    ensures r.Ok? ==> Wrote(st, r.value, [Line(m, Q(x) + ", " + Dec(ToInt64(bit)) + ", " + Symbol(name))])
  {
    var s :- Check(st, x);
    var d :- RegName(W64, x.arm64);
    Ok(Insn3(s, m, d, Dec(ToInt64(bit)), Symbol(name)))
  }

  /** `JumpIfBitSet`. */
  function JumpIfBitSet(st: State, x: Reg, bit: u64, name: string): (r: Result<State>)
    ensures r.Ok? <==> Adm(st, x) && Has(x)
    ensures !Adm(st, x) ==> r == Check(st, x)
    ensures Adm(st, x) && r.Err? ==> r.error == BadRegister(ARM64, x.arm64)
    ensures r.Ok? ==> Wrote(st, r.value, [Line("tbnz", Q(x) + ", " + Dec(ToInt64(bit)) + ", " + Symbol(name))])
  {
    BitTest(st, "tbnz", x, bit, name)
  }

  /** `JumpIfBitNotSet`. */
  function JumpIfBitNotSet(st: State, x: Reg, bit: u64, name: string): (r: Result<State>)
    ensures r.Ok? <==> Adm(st, x) && Has(x)
    ensures !Adm(st, x) ==> r == Check(st, x)
    ensures Adm(st, x) && r.Err? ==> r.error == BadRegister(ARM64, x.arm64)
    ensures r.Ok? ==> Wrote(st, r.value, [Line("tbz", Q(x) + ", " + Dec(ToInt64(bit)) + ", " + Symbol(name))])
  {
    BitTest(st, "tbz", x, bit, name)
  }

  /** `JumpIfImm`: a comparison with the immediate, then a conditional branch. */
  function JumpIfImm(st: State, c: Cond, x: Reg, value: i64, name: string): (r: Result<State>)
    ensures r.Ok? <==> Adm(st, x) && Has(x)
    ensures !Adm(st, x) ==> r == Check(st, x)
    ensures Adm(st, x) && r.Err? ==> r.error == BadRegister(ARM64, x.arm64)
    ensures r.Ok? ==> Wrote(st, r.value,
      [Line("cmp", Q(x) + ", " + Dec(value)), Line("b." + CondSuffix(c), Symbol(name))])
  {
    var s :- Check(st, x);
    var d :- RegName(W64, x.arm64);
    EmitTwo(s, Line("cmp", d + ", " + Dec(value)), Line("b." + CondSuffix(c), Symbol(name)));
    Ok(Insn1(Insn2(s, "cmp", d, Dec(value)), "b." + CondSuffix(c), Symbol(name)))
  }

  /** `JumpIfReg`: reads both registers. */
  function JumpIfReg(st: State, c: Cond, dest: Reg, src: Reg, name: string): (r: Result<State>)
    ensures r.Ok? <==> Adm(st, dest) && Adm(st, src) && Has(dest) && Has(src)
    ensures !Adm(st, dest) ==> r == Check(st, dest)
    ensures Adm(st, dest) && !Adm(st, src) ==> r == Check(st, src)
    ensures Adm(st, dest) && Adm(st, src) && !Has(dest) ==> r == Err(BadRegister(ARM64, dest.arm64))
    ensures Adm(st, dest) && Adm(st, src) && Has(dest) && !Has(src) ==> r == Err(BadRegister(ARM64, src.arm64))
    ensures r.Ok? ==> Wrote(st, r.value,
      [Line("cmp", Q(dest) + ", " + Q(src)), Line("b." + CondSuffix(c), Symbol(name))])
  {
    var s :- Check(st, dest);
    var s' :- Check(s, src);
    var d :- RegName(W64, dest.arm64);
    var a :- RegName(W64, src.arm64);
    EmitTwo(s', Line("cmp", d + ", " + a), Line("b." + CondSuffix(c), Symbol(name)));
    Ok(Insn1(Insn2(s', "cmp", d, a), "b." + CondSuffix(c), Symbol(name)))
  }

  /** `Syscall`: the ARM64 number moved into the 32-bit name of the
      syscall-number register, `svc 0`, and the result register defined.
      Unlike on AMD64, no role is recorded for the number's register. */
  function Syscall(st: State, nr: Arch.Syscall): (r: Result<State>)
    ensures r.Ok? <==> Has(st.sys.syscallNr)
    ensures r.Err? ==> r.error == BadRegister(ARM64, st.sys.syscallNr.arm64)
    ensures r.Ok? ==> Defines(st, r.value,
      [Line("mov", Q4(st.sys.syscallNr) + ", " + Dec(nr.arm64)), Line("svc", "0")], st.sys.sysResult)
  {
    var n :- RegName(W32, st.sys.syscallNr.arm64);
    EmitTwo(st, Line("mov", n + ", " + Dec(nr.arm64)), Line("svc", "0"));
    Ok(SetRole(Insn1(Insn2(st, "mov", n, Dec(nr.arm64)), "svc", "0"), st.sys.sysResult))
  }

  /** On Linux the number goes to `w8` and the result is recorded for `x0`;
      the number's register keeps whatever role it had. */
  lemma LinuxSyscall(st: State, nr: Arch.Syscall)
    requires st.sys == Linux()
    ensures Syscall(st, nr).Ok?
    ensures Syscall(st, nr).value.lines == st.lines + [Line("mov", "w8, " + Dec(nr.arm64)), Line("svc", "0")]
    ensures Syscall(st, nr).value.usage == st.usage[R.X0 := "sysresult"]
    ensures (R.X8 in Syscall(st, nr).value.usage) == (R.X8 in st.usage)
  {
    assert R.Name32(R.X8) == "w8" by { assert Dec(8) == "8"; }
    assert R.Name32(R.X8) + ", " + Dec(nr.arm64) == "w8, " + Dec(nr.arm64);
  }

  // ----- how the operations relate -----------------------------------------------------------

  /** `MultiplyImm` hands `temp` back with the empty role: afterwards it can
      be read only in that role, and when `temp` and `dest` share an encoding
      the product's role is replaced by it as well. */
  lemma MultiplyImmReleasesTemp(st: State, dest: Reg, src: Reg, value: i64, temp: Reg)
    requires MultiplyImm(st, dest, src, value, temp).Ok?
    ensures var u := MultiplyImm(st, dest, src, value, temp).value;
      && u.usage[temp.arm64] == ""
      && (Adm(u, temp) <==> temp.use == "")
      && (temp.arm64 != dest.arm64 ==> Check(u, dest) == Ok(u))
      && (temp.arm64 == dest.arm64 && dest.use != "" ==> Check(u, dest) == Err(RoleMismatch(dest.arm64, dest.use, "")))
  {
  }

  /** Both ways of leaving through a register end with the same barrier: the
      indirect branch of `JumpRegRoutine` and the `ret` of
      `ReturnWithoutEpilogue` are each followed by exactly `BarrierLines`. */
  lemma IndirectBranchesBarred(st: State, x: Reg, prefix: string)
    requires Adm(st, x) && Has(x)
    ensures var j := JumpRegRoutine(st, x, prefix).value.lines;
      var t := ReturnWithoutEpilogue(st).lines;
      && |j| == |t| == |st.lines| + 3
      && j[|st.lines| + 1..] == t[|st.lines| + 1..] == BarrierLines
      && j[|st.lines|] == Line("br", Q(x)) && t[|st.lines|] == Bare("ret")
  {
    var j := JumpRegRoutine(st, x, prefix).value.lines;
    var t := ReturnWithoutEpilogue(st).lines;
    assert j == st.lines + [Line("br", Q(x))] + BarrierLines;
    assert t == st.lines + [Bare("ret")] + BarrierLines;
  }

  /** `Return` is the epilogue followed by `ReturnWithoutEpilogue`: its first
      line restores the link register and the rest is exactly what the
      variant without epilogue writes. */
  lemma ReturnIsEpilogueThenReturn(st: State)
    requires Has(st.sys.stackPtr)
    ensures var r := Return(st).value.lines;
      var e := FunctionEpilogue(st).value.lines;
      var t := ReturnWithoutEpilogue(st).lines;
      && r[..|st.lines| + 1] == e
      && r[|st.lines| + 1..] == t[|st.lines|..]
  {
    var r := Return(st).value.lines;
    var e := FunctionEpilogue(st).value.lines;
    var t := ReturnWithoutEpilogue(st).lines;
    assert r == e + [Bare("ret"), Line("dsb", "sy"), Bare("isb")];
    assert t[|st.lines|..] == [Bare("ret"), Line("dsb", "sy"), Bare("isb")];
  }
}
