/** The AMD64 emitter (amd64.go): the architecture-bound helpers of the
    descriptor and every instruction-emitting operation of an AMD64 session.
    Each operation checks the roles of the registers it reads, writes its
    lines, and records the roles of the registers it defines, keyed by their
    AMD64 encodings. */
module Amd64 {
  import opened Ints
  import opened Decimal
  import opened Words
  import opened Text
  import opened Arch
  import opened Abi
  import opened Session
  import opened Operands
  import A = Amd64Regs

  // ----- register names as results -----------------------------------------------

  /** The operand widths an AMD64 register name can have. */
  datatype Width = W64 | W32 | W8

  /** Whether `reg`, `reg4` or `reg1` names the encoding. */
  predicate Named(w: Width, x: u8) {
    match w
    case W64 => A.Has64(x)
    case W32 => A.HasPartial(x)
    case W8 => A.HasPartial(x)
  }

  function NameAt(w: Width, x: u8): string
    requires Named(w, x)
  {
    match w
    case W64 => A.Name64(x)
    case W32 => A.Name32(x)
    case W8 => A.Name8(x)
  }

  /** `reg`, `reg4` or `reg1`, failing where Go panics. */
  function RegName(w: Width, x: u8): (r: Result<string>)
    ensures r.Ok? <==> Named(w, x)
    ensures r.Ok? ==> r.value == NameAt(w, x) && Word(r.value)
    ensures r.Err? ==> r.error == BadRegister(AMD64, x)
  {
    if Named(w, x) then
      A.NamesAreWords(x);
      Ok(NameAt(w, x))
    else
      Err(BadRegister(AMD64, x))
  }

  /** The 64-bit name of a register's AMD64 encoding. */
  function Q(r: Reg): string
    requires A.Has64(r.amd64)
  {
    A.Name64(r.amd64)
  }

  /** The 32-bit name of a register's AMD64 encoding. */
  function Q4(r: Reg): string
    requires A.HasPartial(r.amd64)
  {
    A.Name32(r.amd64)
  }

  // ----- roles ----------------------------------------------------------------------

  /** `check`: the role check on the register's AMD64 encoding. */
  function Check(st: State, r: Reg): Result<State> {
    CheckUsage(st, r.amd64, r.use)
  }

  predicate Adm(st: State, r: Reg) {
    Admits(st, r.amd64, r.use)
  }

  /** `Set`: records the register's role under its AMD64 encoding. */
  function SetRole(st: State, r: Reg): State {
    SetUsage(st, r.amd64, r.use)
  }

  /** `b` is `a` with `added` appended and `reg`'s role recorded. */
  predicate Defines(a: State, b: State, added: seq<string>, reg: Reg) {
    Defined(a, b, added, reg.amd64, reg.use)
  }

  /** `b` is `a` with `n` lines appended and `reg`'s role recorded. */
  predicate DefinesN(a: State, b: State, n: nat, reg: Reg) {
    && b.arch == a.arch && b.sys == a.sys && b.unrecorded == a.unrecorded
    && |b.lines| == |a.lines| + n && b.lines[..|a.lines|] == a.lines
    && b.usage == a.usage[reg.amd64 := reg.use]
  }

  /** `Reg.Is` on AMD64: the same AMD64 encoding. */
  predicate Is(a: Reg, b: Reg) {
    a.amd64 == b.amd64
  }

  // ----- condition and shift names -------------------------------------------------

  /** `cond`: the condition-code suffix of a conditional jump. */
  function CondSuffix(c: Cond): string {
    match c
    case EQ => "e"
    case NE => "ne"
    case LT => "l"
    case LE => "le"
    case GT => "g"
    case GE => "ge"
  }

  /** `shift`: the mnemonic of a shift. */
  function ShiftMnemonic(s: Shift): string {
    match s
    case Left => "shl"
    case RightLogical => "shr"
    case RightArithmetic => "sar"
  }

  /** Each condition has its own suffix and each shift its own mnemonic, and
      they are all single fields. */
  lemma NamesDistinct(c1: Cond, c2: Cond, s1: Shift, s2: Shift)
    ensures CondSuffix(c1) == CondSuffix(c2) <==> c1 == c2
    ensures ShiftMnemonic(s1) == ShiftMnemonic(s2) <==> s1 == s2
    ensures Word("j" + CondSuffix(c1)) && Word(ShiftMnemonic(s1))
  {
  }

  // ----- the descriptor's helpers ------------------------------------------------------

  /** `ArchAMD64.ClearReg`: zeroes a register through its 32-bit name, without
      touching roles; fails on a session bound to the other architecture. */
  function ClearReg(st: State, x: u8): (r: Result<State>)
    ensures r.Ok? <==> st.arch == AMD64 && A.HasPartial(x)
    ensures st.arch != AMD64 ==> r == Err(WrongArch(st.arch))
    ensures st.arch == AMD64 && r.Err? ==> r == Err(BadRegister(AMD64, x))
    ensures r.Ok? ==> Wrote(st, r.value, [Line("xor", A.Name32(x) + ", " + A.Name32(x))])
  {
    if st.arch != AMD64 then Err(WrongArch(st.arch))
    else
      var d :- RegName(W32, x);
      Ok(Insn2(st, "xor", d, d))
  }

  /** Every clearable register can be cleared on an AMD64 session. */
  lemma ClearableRegsClear(st: State, i: nat)
    requires st.arch == AMD64 && i < |A.ClearableRegs|
    ensures ClearReg(st, A.ClearableRegs[i]).Ok?
  {
    A.ClearableRegsSpec();
  }

  /** `ArchAMD64.OrMem4BytesImm`: ORs an immediate into a 4-byte memory word. */
  function OrMem4BytesImm(st: State, base: u8, offset: i64, value: i64): (r: Result<State>)
    ensures r.Ok? <==> st.arch == AMD64 && A.Has64(base)
    ensures st.arch != AMD64 ==> r == Err(WrongArch(st.arch))
    ensures st.arch == AMD64 && !A.Has64(base) ==> r == Err(BadRegister(AMD64, base))
    ensures r.Ok? ==> Wrote(st, r.value,
      [Line("or", "dword ptr " + Amd64Mem(A.Name64(base), offset) + ", " + Dec(value))])
  {
    if st.arch != AMD64 then Err(WrongArch(st.arch))
    else
      var b :- RegName(W64, base);
      OrMemLine(b, offset, value);
      Ok(InsnfSplit(st, "or", "dword ptr " + Amd64Mem(b, offset) + ", " + Dec(value)))
  }

  /** `ArchAMD64.ExchangeMem4BytesReg`: swaps a 4-byte memory word with the
      32-bit view of a register. The base is named before the register. */
  function ExchangeMem4BytesReg(st: State, base: u8, offset: i64, x: u8): (r: Result<State>)
    ensures r.Ok? <==> st.arch == AMD64 && A.Has64(base) && A.HasPartial(x)
    ensures st.arch != AMD64 ==> r == Err(WrongArch(st.arch))
    ensures st.arch == AMD64 && !A.Has64(base) ==> r == Err(BadRegister(AMD64, base))
    ensures st.arch == AMD64 && A.Has64(base) && !A.HasPartial(x) ==> r == Err(BadRegister(AMD64, x))
    ensures r.Ok? ==> Wrote(st, r.value,
      [Line("xchg", Amd64Mem(A.Name64(base), offset) + ", " + A.Name32(x))])
  {
    if st.arch != AMD64 then Err(WrongArch(st.arch))
    else
      var b :- RegName(W64, base);
      var v :- RegName(W32, x);
      MemRegLine("xchg", b, offset, v);
      Ok(InsnfSplit(st, "xchg", Amd64Mem(b, offset) + ", " + v))
  }

  // ----- the lines `insnf` writes ------------------------------------------------------

  /** `or dword ptr [b +- n], v`. */
  lemma OrMemLine(b: string, offset: i64, value: i64)
    requires Word(b)
    ensures InsnfLine("or" + " " + ("dword ptr " + Amd64Mem(b, offset) + ", " + Dec(value)))
      == Line("or", "dword ptr " + Amd64Mem(b, offset) + ", " + Dec(value))
  {
    assert Word("or");
    DecWord(value);
    DwordOperands(b, offset, Dec(value));
    InsnfSplitLine("or", "dword ptr " + Amd64Mem(b, offset) + ", " + Dec(value));
  }

  /** `mov [b +- n], r` and `xchg [b +- n], r`. */
  lemma MemRegLine(m: string, b: string, offset: i64, a: string)
    requires m == "mov" || m == "xchg"
    requires Word(b) && Word(a)
    ensures InsnfLine(m + " " + (Amd64Mem(b, offset) + ", " + a)) == Line(m, Amd64Mem(b, offset) + ", " + a)
  {
    assert Word(m);
    Amd64StoreOperands(b, offset, a);
    InsnfSplitLine(m, Amd64Mem(b, offset) + ", " + a);
  }

  /** `mov r, [b +- n]`. */
  lemma RegMemLine(d: string, b: string, offset: i64)
    requires Word(d) && Word(b)
    ensures InsnfLine("mov" + " " + (d + ", " + Amd64Mem(b, offset))) == Line("mov", d + ", " + Amd64Mem(b, offset))
  {
    assert Word("mov");
    Amd64LoadOperands(d, b, offset);
    InsnfSplitLine("mov", d + ", " + Amd64Mem(b, offset));
  }

  /** `lea r, [a + b]`. */
  lemma LeaLine(d: string, a: string, b: string)
    requires Word(d) && Word(a) && Word(b)
    ensures InsnfLine("lea" + " " + (d + ", [" + a + " + " + b + "]")) == Line("lea", d + ", [" + a + " + " + b + "]")
  {
    assert Word("lea");
    LeaOperands(d, a, b);
    InsnfSplitLine("lea", d + ", [" + a + " + " + b + "]");
  }

  /** `lea r, [rip + sym]`. */
  lemma RipLine(d: string, sym: string)
    requires Word(d) && Word(sym)
    ensures InsnfLine("lea" + " " + (d + ", [rip + " + sym + "]")) == Line("lea", d + ", [rip + " + sym + "]")
  {
    assert Word("lea");
    RipOperands(d, sym);
    InsnfSplitLine("lea", d + ", [rip + " + sym + "]");
  }

  /** `mov r, sym`. */
  lemma RegSymLine(d: string, sym: string)
    requires Word(d) && Word(sym)
    ensures InsnfLine("mov" + " " + (d + ", " + sym)) == Line("mov", d + ", " + sym)
  {
    assert Word("mov");
    PairOperands(d, sym);
    InsnfSplitLine("mov", d + ", " + sym);
  }

  // ----- labels, functions and returns ----------------------------------------------------

  /** An empty line and a 16-byte alignment, padded with `int3` when `trap`
      holds and with `nop` otherwise. */
  function Aligned(st: State, trap: bool): (r: State)
    ensures Grew(st, r, 2)
    ensures trap ==> r.lines == st.lines + ["\n", ".align\t16,0xcc\n"]
    ensures !trap ==> r.lines == st.lines + ["\n", ".align\t16,0x90\n"]
  {
    AlignDirective(Blank(st), if trap then "0xcc" else "0x90")
  }

  /** `Label`: a global name is aligned with `nop` padding, exported and typed as
      a function; every name gets an empty line and its label. */
  function Label(st: State, name: string): (r: State)
    ensures Grew(st, r, if Global(name) then 6 else 2)
    ensures Global(name) ==> (r.lines == st.lines + ["\n", ".align\t16,0x90\n"]
      + VisibilityLines(name, true) + ["\n", LabelLine(name)])
    ensures !Global(name) ==> r.lines == st.lines + ["\n", LabelLine(name)]
  {
    if Global(name) then
      var s := Visibility(Aligned(st, false), name, true);
      GrewTrans(st, Aligned(st, false), s, 2, 2);
      var r := Heading(s, name);
      GrewTrans(st, s, r, 4, 2);
      r
    else
      Heading(st, name)
  }

  /** `FunctionEpilogue` writes nothing on AMD64. */
  function FunctionEpilogue(st: State): (r: State)
    ensures Grew(st, r, 0) && r == st
  {
    st
  }

  /** The heading of a function: an empty line and a 16-byte alignment padded
      with `int3`, the visibility directives of a global name, then an empty
      line and the label. */
  function FunctionHead(name: string, withType: bool): (ls: seq<string>)
    ensures |ls| == if !Global(name) then 4 else if withType then 6 else 5
  {
    ["\n", ".align\t16,0xcc\n"] + (if Global(name) then VisibilityLines(name, withType) else [])
      + ["\n", LabelLine(name)]
  }

  /** `Function`: always aligned with `int3` padding; a global name is
      exported and typed as a function. */
  function Function(st: State, name: string): (r: State)
    ensures Grew(st, r, if Global(name) then 6 else 4)
    ensures r.lines == st.lines + FunctionHead(name, true)
  {
    var s := Aligned(st, true);
    var t := if Global(name) then Visibility(s, name, true) else s;
    assert Wrote(s, t, if Global(name) then VisibilityLines(name, true) else []);
    var r := Heading(t, name);
    AppendThree(st.lines, ["\n", ".align\t16,0xcc\n"], if Global(name) then VisibilityLines(name, true) else [],
      ["\n", LabelLine(name)]);
    r
  }

  /** `FunctionWithoutPrologue`: like `Function`, but a global name is only
      exported, not typed. */
  function FunctionWithoutPrologue(st: State, name: string): (r: State)
    ensures Grew(st, r, if Global(name) then 5 else 4)
    ensures r.lines == st.lines + FunctionHead(name, false)
  {
    var s := Aligned(st, true);
    var t := if Global(name) then Visibility(s, name, false) else s;
    assert Wrote(s, t, if Global(name) then VisibilityLines(name, false) else []);
    var r := Heading(t, name);
    AppendThree(st.lines, ["\n", ".align\t16,0xcc\n"], if Global(name) then VisibilityLines(name, false) else [],
      ["\n", LabelLine(name)]);
    r
  }

  /** The text of a label for a whitespace-free name. */
  lemma LabelText(st: State, name: string)
    requires Word(name)
    ensures Global(name) ==> (Label(st, name).lines == st.lines + ["\n", ".align\t16,0x90\n"]
      + [".globl\t" + Symbol(name) + "\n", ".type\t" + Symbol(name) + ",@function\n"] + ["\n", Symbol(name) + ":\n"])
    ensures !Global(name) ==> Label(st, name).lines == st.lines + ["\n", Symbol(name) + ":\n"]
  {
    VisibilityText(name, true);
    LabelOfWord(name);
  }

  /** The text of a function heading for a whitespace-free name. */
  lemma FunctionHeadText(name: string, withType: bool)
    requires Word(name)
    ensures Global(name) && withType ==> (FunctionHead(name, withType) == ["\n", ".align\t16,0xcc\n",
      ".globl\t" + Symbol(name) + "\n", ".type\t" + Symbol(name) + ",@function\n", "\n", Symbol(name) + ":\n"])
    ensures Global(name) && !withType ==> (FunctionHead(name, withType)
      == ["\n", ".align\t16,0xcc\n", ".globl\t" + Symbol(name) + "\n", "\n", Symbol(name) + ":\n"])
    ensures !Global(name) ==> FunctionHead(name, withType) == ["\n", ".align\t16,0xcc\n", "\n", Symbol(name) + ":\n"]
  {
    LabelOfWord(name);
    if Global(name) {
      VisibilityText(name, withType);
    }
  }

  /** `ReturnWithoutEpilogue`: `ret`, then `int3` as a barrier against
      speculation past the return. */
  function ReturnWithoutEpilogue(st: State): (r: State)
    ensures Wrote(st, r, [Bare("ret"), Bare("int3")])
  {
    EmitTwo(st, Bare("ret"), Bare("int3"));
    Insn0(Insn0(st, "ret"), "int3")
  }

  /** `Return`: the same two instructions, as the epilogue is empty. */
  function Return(st: State): (r: State)
    ensures Wrote(st, r, [Bare("ret"), Bare("int3")])
    ensures r == ReturnWithoutEpilogue(FunctionEpilogue(st))
  {
    ReturnWithoutEpilogue(st)
  }

  // ----- moves ------------------------------------------------------------------------------

  /** Whether a signed value has a sign-extended 32-bit immediate form. */
  predicate Fits32(v: int) {
    -0x8000_0000 <= v <= 0x7fff_ffff
  }

  /** `Address`: the address of a symbol, relative to the instruction pointer. */
  function Address(st: State, dest: Reg, name: string): (r: Result<State>)
    ensures r.Ok? <==> A.Has64(dest.amd64)
    ensures r.Err? ==> r.error == BadRegister(AMD64, dest.amd64)
    ensures r.Ok? ==> DefinesN(st, r.value, 1, dest)
    ensures r.Ok? && Word(name) ==> Defines(st, r.value, [Line("lea", Q(dest) + ", [rip + " + Symbol(name) + "]")], dest)
  {
    var d :- RegName(W64, dest.amd64);
    var sym := Symbol(name);
    if Word(name) then
      SymbolWord(name);
      RipLine(d, sym);
      Ok(SetRole(InsnfSplit(st, "lea", d + ", [rip + " + sym + "]"), dest))
    else
      Ok(SetRole(InsnfSplit(st, "lea", d + ", [rip + " + sym + "]"), dest))
  }

  /** `MoveDef`: the value of a defined symbol. */
  function MoveDef(st: State, dest: Reg, name: string): (r: Result<State>)
    ensures r.Ok? <==> A.Has64(dest.amd64)
    ensures r.Err? ==> r.error == BadRegister(AMD64, dest.amd64)
    ensures r.Ok? ==> DefinesN(st, r.value, 1, dest)
    ensures r.Ok? && Word(name) ==> Defines(st, r.value, [Line("mov", Q(dest) + ", " + Symbol(name))], dest)
  {
    var d :- RegName(W64, dest.amd64);
    var sym := Symbol(name);
    if Word(name) then
      SymbolWord(name);
      RegSymLine(d, sym);
      Ok(SetRole(InsnfSplit(st, "mov", d + ", " + sym), dest))
    else
      Ok(SetRole(InsnfSplit(st, "mov", d + ", " + sym), dest))
  }

  /** `MoveImm`: zero is tested first and cleared with `xor` of the 32-bit
      name; a value with a 32-bit immediate form is moved into the 32-bit
      name; anything else into the 64-bit name. */
  function MoveImm(st: State, dest: Reg, value: i64): (r: Result<State>)
    ensures r.Ok? <==> if Fits32(value) then A.HasPartial(dest.amd64) else A.Has64(dest.amd64)
    ensures r.Err? ==> r.error == BadRegister(AMD64, dest.amd64)
    ensures r.Ok? && value == 0 ==> Defines(st, r.value, [Line("xor", Q4(dest) + ", " + Q4(dest))], dest)
    ensures r.Ok? && value != 0 && Fits32(value) ==>
      Defines(st, r.value, [Line("mov", Q4(dest) + ", " + Dec(value))], dest)
    ensures r.Ok? && !Fits32(value) ==> Defines(st, r.value, [Line("mov", Q(dest) + ", " + Dec(value))], dest)
  {
    if value == 0 then
      var d :- RegName(W32, dest.amd64);
      Ok(SetRole(Insn2(st, "xor", d, d), dest))
    else if Fits32(value) then
      var d :- RegName(W32, dest.amd64);
      Ok(SetRole(Insn2(st, "mov", d, Dec(value)), dest))
    else
      var d :- RegName(W64, dest.amd64);
      Ok(SetRole(Insn2(st, "mov", d, Dec(value)), dest))
  }

  /** `MoveImm64`: the same selection made on the value read as signed; the
      32-bit form renders it signed, the 64-bit form unsigned. */
  function MoveImm64(st: State, dest: Reg, value: u64): (r: Result<State>)
    ensures r.Ok? <==> if Fits32(ToInt64(value)) then A.HasPartial(dest.amd64) else A.Has64(dest.amd64)
    ensures r.Err? ==> r.error == BadRegister(AMD64, dest.amd64)
    ensures r.Ok? && value == 0 ==> Defines(st, r.value, [Line("xor", Q4(dest) + ", " + Q4(dest))], dest)
    ensures r.Ok? && value != 0 && Fits32(ToInt64(value)) ==>
      Defines(st, r.value, [Line("mov", Q4(dest) + ", " + Dec(ToInt64(value)))], dest)
    ensures r.Ok? && !Fits32(ToInt64(value)) ==> Defines(st, r.value, [Line("mov", Q(dest) + ", " + Dec(value))], dest)
  {
    if value == 0 then
      var d :- RegName(W32, dest.amd64);
      Ok(SetRole(Insn2(st, "xor", d, d), dest))
    else if Fits32(ToInt64(value)) then
      var d :- RegName(W32, dest.amd64);
      Ok(SetRole(Insn2(st, "mov", d, Dec(ToInt64(value))), dest))
    else
      var d :- RegName(W64, dest.amd64);
      Ok(SetRole(Insn2(st, "mov", d, Dec(value)), dest))
  }

  /** The two immediate moves write the same text for the same bits, except
      for a 64-bit pattern with the top bit set outside the 32-bit range,
      which `MoveImm64` renders unsigned; they accept the same registers. */
  lemma MoveImm64AgreesWithMoveImm(st: State, dest: Reg, value: u64)
    ensures value < TWO_TO_THE_63 || Fits32(ToInt64(value)) ==>
      MoveImm64(st, dest, value) == MoveImm(st, dest, ToInt64(value))
    ensures MoveImm64(st, dest, value).Ok? <==> MoveImm(st, dest, ToInt64(value)).Ok?
  {
    if value < TWO_TO_THE_63 {
      assert ToInt64(value) as int == value as int;
    }
  }

  /** Where the texts differ, both numbers read back exactly and denote the
      same bits modulo 2^64. */
  lemma MoveImm64SameBits(value: u64)
    ensures ParseDec(Dec(value)) == Some(value as int) && ParseDec(Dec(ToInt64(value))) == Some(ToInt64(value) as int)
    ensures (value as int) % TWO_TO_THE_64 == (ToInt64(value) as int) % TWO_TO_THE_64
  {
    DecRoundTrip(value);
    DecRoundTrip(ToInt64(value));
  }

  /** `MoveReg`: reads `src`; a move only between different registers. */
  function MoveReg(st: State, dest: Reg, src: Reg): (r: Result<State>)
    ensures r.Ok? <==> Adm(st, src) && (Is(dest, src) || (A.Has64(dest.amd64) && A.Has64(src.amd64)))
    ensures !Adm(st, src) ==> r == Check(st, src)
    ensures Adm(st, src) && !Is(dest, src) && !A.Has64(dest.amd64) ==> r == Err(BadRegister(AMD64, dest.amd64))
    ensures Adm(st, src) && !Is(dest, src) && A.Has64(dest.amd64) && !A.Has64(src.amd64) ==> r == Err(BadRegister(AMD64, src.amd64))
    ensures r.Ok? && Is(dest, src) ==> Defines(st, r.value, [], dest)
    ensures r.Ok? && !Is(dest, src) ==> Defines(st, r.value, [Line("mov", Q(dest) + ", " + Q(src))], dest)
  {
    var s :- Check(st, src);
    if Is(dest, src) then
      assert s.lines + [] == s.lines;
      Ok(SetRole(s, dest))
    else
      var d :- RegName(W64, dest.amd64);
      var a :- RegName(W64, src.amd64);
      Ok(SetRole(Insn2(s, "mov", d, a), dest))
  }

  /** The name of an SSE register. */
  function Xmm(n: u8): string {
    "xmm" + Dec(n)
  }

  /** `MoveRegFloat`: the bits of an SSE register. */
  function MoveRegFloat(st: State, dest: Reg, src: u8): (r: Result<State>)
    ensures r.Ok? <==> A.Has64(dest.amd64)
    ensures r.Err? ==> r.error == BadRegister(AMD64, dest.amd64)
    ensures r.Ok? ==> Defines(st, r.value, [Line("movq", Q(dest) + ", " + Xmm(src))], dest)
  {
    var d :- RegName(W64, dest.amd64);
    Ok(SetRole(Insn2(st, "movq", d, Xmm(src)), dest))
  }

  // ----- arithmetic -----------------------------------------------------------------------------

  /** `AddImm`: reads `src`. Adding zero is a register move (nothing at all
      when `dest` is `src`); adding in place is one `add`; a positive value
      into another register is one `lea`; a negative one is `mov` then `add`. */
  function AddImm(st: State, dest: Reg, src: Reg, value: i64): (r: Result<State>)
    ensures r.Ok? <==> Adm(st, src) && ((value == 0 && Is(dest, src)) || (A.Has64(dest.amd64) && A.Has64(src.amd64)))
    ensures !Adm(st, src) ==> r == Check(st, src)
    ensures Adm(st, src) && !(value == 0 && Is(dest, src)) && !A.Has64(dest.amd64) ==> r == Err(BadRegister(AMD64, dest.amd64))
    ensures Adm(st, src) && A.Has64(dest.amd64) && !A.Has64(src.amd64) ==> r == Err(BadRegister(AMD64, src.amd64))
    ensures r.Ok? && value == 0 && Is(dest, src) ==> Defines(st, r.value, [], dest)
    ensures r.Ok? && value == 0 && !Is(dest, src) ==>
      Defines(st, r.value, [Line("mov", Q(dest) + ", " + Q(src))], dest)
    ensures r.Ok? && value != 0 && Is(dest, src) ==>
      Defines(st, r.value, [Line("add", Q(dest) + ", " + Dec(value))], dest)
    ensures r.Ok? && value > 0 && !Is(dest, src) ==>
      Defines(st, r.value, [Line("lea", Q(dest) + ", [" + Q(src) + " + " + Dec(value) + "]")], dest)
    ensures r.Ok? && value < 0 && !Is(dest, src) ==>
      Defines(st, r.value, [Line("mov", Q(dest) + ", " + Q(src)), Line("add", Q(dest) + ", " + Dec(value))], dest)
  {
    var s :- Check(st, src);
    if value == 0 then
      var t :- MoveReg(s, dest, src);
      Ok(SetRole(t, dest))
    else if Is(dest, src) then
      var d :- RegName(W64, dest.amd64);
      Ok(SetRole(Insn2(s, "add", d, Dec(value)), dest))
    else if value > 0 then
      var d :- RegName(W64, dest.amd64);
      var a :- RegName(W64, src.amd64);
      DecWord(value);
      LeaLine(d, a, Dec(value));
      Ok(SetRole(InsnfSplit(s, "lea", d + ", [" + a + " + " + Dec(value) + "]"), dest))
    else
      var d :- RegName(W64, dest.amd64);
      var a :- RegName(W64, src.amd64);
      EmitTwo(s, Line("mov", d + ", " + a), Line("add", d + ", " + Dec(value)));
      Ok(SetRole(Insn2(Insn2(s, "mov", d, a), "add", d, Dec(value)), dest))
  }

  /** `AddReg`: reads both sources; adds in place when `dest` is one of them,
      else sums them with `lea`. */
  function AddReg(st: State, dest: Reg, src1: Reg, src2: Reg): (r: Result<State>)
    ensures r.Ok? <==> (Adm(st, src1) && Adm(st, src2)
      && A.Has64(dest.amd64) && A.Has64(src1.amd64) && A.Has64(src2.amd64))
    ensures !Adm(st, src1) ==> r == Check(st, src1)
    ensures Adm(st, src1) && !Adm(st, src2) ==> r == Check(st, src2)
    ensures Adm(st, src1) && Adm(st, src2) && !A.Has64(dest.amd64) ==> r == Err(BadRegister(AMD64, dest.amd64))
    ensures Adm(st, src1) && Adm(st, src2) && A.Has64(dest.amd64) && !A.Has64(src1.amd64) ==> r == Err(BadRegister(AMD64, src1.amd64))
    ensures Adm(st, src1) && Adm(st, src2) && A.Has64(dest.amd64) && A.Has64(src1.amd64) && !A.Has64(src2.amd64) ==> r == Err(BadRegister(AMD64, src2.amd64))
    ensures r.Ok? && Is(dest, src1) ==> Defines(st, r.value, [Line("add", Q(dest) + ", " + Q(src2))], dest)
    ensures r.Ok? && !Is(dest, src1) && Is(dest, src2) ==>
      Defines(st, r.value, [Line("add", Q(dest) + ", " + Q(src1))], dest)
    ensures r.Ok? && !Is(dest, src1) && !Is(dest, src2) ==>
      Defines(st, r.value, [Line("lea", Q(dest) + ", [" + Q(src1) + " + " + Q(src2) + "]")], dest)
  {
    var s :- Check(st, src1);
    var s' :- Check(s, src2);
    if Is(dest, src1) then
      var d :- RegName(W64, dest.amd64);
      var b :- RegName(W64, src2.amd64);
      Ok(SetRole(Insn2(s', "add", d, b), dest))
    else if Is(dest, src2) then
      var d :- RegName(W64, dest.amd64);
      var a :- RegName(W64, src1.amd64);
      Ok(SetRole(Insn2(s', "add", d, a), dest))
    else
      var d :- RegName(W64, dest.amd64);
      var a :- RegName(W64, src1.amd64);
      var b :- RegName(W64, src2.amd64);
      LeaLine(d, a, b);
      Ok(SetRole(InsnfSplit(s', "lea", d + ", [" + a + " + " + b + "]"), dest))
  }

  /** `SubtractImm`: reads `dest`; subtracting zero writes nothing but still
      records the role. */
  function SubtractImm(st: State, dest: Reg, value: i64): (r: Result<State>)
    ensures r.Ok? <==> Adm(st, dest) && (value == 0 || A.Has64(dest.amd64))
    ensures !Adm(st, dest) ==> r == Check(st, dest)
    ensures Adm(st, dest) && r.Err? ==> r.error == BadRegister(AMD64, dest.amd64)
    ensures r.Ok? && value == 0 ==> Defines(st, r.value, [], dest)
    ensures r.Ok? && value != 0 ==> Defines(st, r.value, [Line("sub", Q(dest) + ", " + Dec(value))], dest)
  {
    var s :- Check(st, dest);
    if value == 0 then
      assert s.lines + [] == s.lines;
      Ok(SetRole(s, dest))
    else
      var d :- RegName(W64, dest.amd64);
      Ok(SetRole(Insn2(s, "sub", d, Dec(value)), dest))
  }

  /** A two-register instruction that reads both and defines the first. */
  function RegReg(st: State, m: string, dest: Reg, src: Reg): (r: Result<State>)
    ensures r.Ok? <==> Adm(st, dest) && Adm(st, src) && A.Has64(dest.amd64) && A.Has64(src.amd64)
    ensures !Adm(st, dest) ==> r == Check(st, dest)
    ensures Adm(st, dest) && !Adm(st, src) ==> r == Check(st, src)
    ensures Adm(st, dest) && Adm(st, src) && !A.Has64(dest.amd64) ==> r == Err(BadRegister(AMD64, dest.amd64))
    ensures Adm(st, dest) && Adm(st, src) && A.Has64(dest.amd64) && !A.Has64(src.amd64) ==> r == Err(BadRegister(AMD64, src.amd64))
    ensures r.Ok? ==> Defines(st, r.value, [Line(m, Q(dest) + ", " + Q(src))], dest)
  {
    var s :- Check(st, dest);
    var s' :- Check(s, src);
    var d :- RegName(W64, dest.amd64);
    var a :- RegName(W64, src.amd64);
    Ok(SetRole(Insn2(s', m, d, a), dest))
  }

  /** `SubtractReg`. */
  function SubtractReg(st: State, dest: Reg, src: Reg): (r: Result<State>)
    ensures r.Ok? <==> Adm(st, dest) && Adm(st, src) && A.Has64(dest.amd64) && A.Has64(src.amd64)
    ensures !Adm(st, dest) ==> r == Check(st, dest)
    ensures Adm(st, dest) && !Adm(st, src) ==> r == Check(st, src)
    ensures Adm(st, dest) && Adm(st, src) && !A.Has64(dest.amd64) ==> r == Err(BadRegister(AMD64, dest.amd64))
    ensures Adm(st, dest) && Adm(st, src) && A.Has64(dest.amd64) && !A.Has64(src.amd64) ==> r == Err(BadRegister(AMD64, src.amd64))
    ensures r.Ok? ==> Defines(st, r.value, [Line("sub", Q(dest) + ", " + Q(src))], dest)
  {
    RegReg(st, "sub", dest, src)
  }

  /** `MultiplyImm`: reads `dest` and `src`, records `temp`'s role (though no
      instruction uses it), then a three-operand `imul` defines `dest`. */
  function MultiplyImm(st: State, dest: Reg, src: Reg, value: i64, temp: Reg): (r: Result<State>)
    ensures r.Ok? <==> Adm(st, dest) && Adm(st, src) && A.Has64(dest.amd64) && A.Has64(src.amd64)
    ensures !Adm(st, dest) ==> r == Check(st, dest)
    ensures Adm(st, dest) && !Adm(st, src) ==> r == Check(st, src)
    ensures Adm(st, dest) && Adm(st, src) && !A.Has64(dest.amd64) ==> r == Err(BadRegister(AMD64, dest.amd64))
    ensures Adm(st, dest) && Adm(st, src) && A.Has64(dest.amd64) && !A.Has64(src.amd64) ==> r == Err(BadRegister(AMD64, src.amd64))
    ensures r.Ok? ==> Wrote(st.(usage := st.usage[temp.amd64 := temp.use][dest.amd64 := dest.use]), r.value,
      [Line("imul", Q(dest) + ", " + Q(src) + ", " + Dec(value))])
  {
    var s :- Check(st, dest);
    var s' :- Check(s, src);
    var t := SetRole(s', temp);
    var d :- RegName(W64, dest.amd64);
    var a :- RegName(W64, src.amd64);
    Ok(SetRole(Insn3(t, "imul", d, a, Dec(value)), dest))
  }

  /** `AndImm`: reads `dest`; AND with zero clears through the 32-bit name; a
      positive 31-bit mask uses the 32-bit name, as the upper half becomes
      zero either way; any other mask uses the 64-bit name. */
  function AndImm(st: State, dest: Reg, value: i64): (r: Result<State>)
    ensures r.Ok? <==> Adm(st, dest) && (if 0 <= value <= 0x7fff_ffff then A.HasPartial(dest.amd64) else A.Has64(dest.amd64))
    ensures !Adm(st, dest) ==> r == Check(st, dest)
    ensures Adm(st, dest) && r.Err? ==> r.error == BadRegister(AMD64, dest.amd64)
    ensures r.Ok? && value == 0 ==> Defines(st, r.value, [Line("xor", Q4(dest) + ", " + Q4(dest))], dest)
    ensures r.Ok? && 0 < value <= 0x7fff_ffff ==> Defines(st, r.value, [Line("and", Q4(dest) + ", " + Dec(value))], dest)
    ensures r.Ok? && !(0 <= value <= 0x7fff_ffff) ==> Defines(st, r.value, [Line("and", Q(dest) + ", " + Dec(value))], dest)
  {
    var s :- Check(st, dest);
    if value == 0 then
      var d :- RegName(W32, dest.amd64);
      Ok(SetRole(Insn2(s, "xor", d, d), dest))
    else if 0 < value <= 0x7fff_ffff then
      var d :- RegName(W32, dest.amd64);
      Ok(SetRole(Insn2(s, "and", d, Dec(value)), dest))
    else
      var d :- RegName(W64, dest.amd64);
      Ok(SetRole(Insn2(s, "and", d, Dec(value)), dest))
  }

  /** `AndReg`. */
  function AndReg(st: State, dest: Reg, src: Reg): (r: Result<State>)
    ensures r.Ok? <==> Adm(st, dest) && Adm(st, src) && A.Has64(dest.amd64) && A.Has64(src.amd64)
    ensures !Adm(st, dest) ==> r == Check(st, dest)
    ensures Adm(st, dest) && !Adm(st, src) ==> r == Check(st, src)
    ensures Adm(st, dest) && Adm(st, src) && !A.Has64(dest.amd64) ==> r == Err(BadRegister(AMD64, dest.amd64))
    ensures Adm(st, dest) && Adm(st, src) && A.Has64(dest.amd64) && !A.Has64(src.amd64) ==> r == Err(BadRegister(AMD64, src.amd64))
    ensures r.Ok? ==> Defines(st, r.value, [Line("and", Q(dest) + ", " + Q(src))], dest)
  {
    RegReg(st, "and", dest, src)
  }

  /** `OrImm`: reads `dest`; always the 64-bit name. */
  function OrImm(st: State, dest: Reg, value: i64): (r: Result<State>)
    ensures r.Ok? <==> Adm(st, dest) && A.Has64(dest.amd64)
    ensures !Adm(st, dest) ==> r == Check(st, dest)
    ensures Adm(st, dest) && r.Err? ==> r.error == BadRegister(AMD64, dest.amd64)
    ensures r.Ok? ==> Defines(st, r.value, [Line("or", Q(dest) + ", " + Dec(value))], dest)
  {
    var s :- Check(st, dest);
    var d :- RegName(W64, dest.amd64);
    Ok(SetRole(Insn2(s, "or", d, Dec(value)), dest))
  }

  /** `OrReg`. */
  function OrReg(st: State, dest: Reg, src: Reg): (r: Result<State>)
    ensures r.Ok? <==> Adm(st, dest) && Adm(st, src) && A.Has64(dest.amd64) && A.Has64(src.amd64)
    ensures !Adm(st, dest) ==> r == Check(st, dest)
    ensures Adm(st, dest) && !Adm(st, src) ==> r == Check(st, src)
    ensures Adm(st, dest) && Adm(st, src) && !A.Has64(dest.amd64) ==> r == Err(BadRegister(AMD64, dest.amd64))
    ensures Adm(st, dest) && Adm(st, src) && A.Has64(dest.amd64) && !A.Has64(src.amd64) ==> r == Err(BadRegister(AMD64, src.amd64))
    ensures r.Ok? ==> Defines(st, r.value, [Line("or", Q(dest) + ", " + Q(src))], dest)
  {
    RegReg(st, "or", dest, src)
  }

  /** `ShiftImm`: reads the register; a zero count writes nothing but still
      records the role. */
  function ShiftImm(st: State, s: Shift, x: Reg, count: i64): (r: Result<State>)
    ensures r.Ok? <==> Adm(st, x) && (count == 0 || A.Has64(x.amd64))
    ensures !Adm(st, x) ==> r == Check(st, x)
    ensures Adm(st, x) && r.Err? ==> r.error == BadRegister(AMD64, x.amd64)
    ensures r.Ok? && count == 0 ==> Defines(st, r.value, [], x)
    ensures r.Ok? && count != 0 ==> Defines(st, r.value, [Line(ShiftMnemonic(s), Q(x) + ", " + Dec(count))], x)
  {
    var t :- Check(st, x);
    if count == 0 then
      assert t.lines + [] == t.lines;
      Ok(SetRole(t, x))
    else
      var d :- RegName(W64, x.amd64);
      Ok(SetRole(Insn2(t, ShiftMnemonic(s), d, Dec(count)), x))
  }

  // ----- memory ----------------------------------------------------------------------------------

  /** `Load` (64-bit), `Load4Bytes` (32-bit) and `LoadByte` (8-bit): reads the
      base; the destination is named at the width of the access. */
  function LoadAs(st: State, w: Width, dest: Reg, base: Reg, offset: i64): (r: Result<State>)
    ensures r.Ok? <==> Adm(st, base) && Named(w, dest.amd64) && A.Has64(base.amd64)
    ensures !Adm(st, base) ==> r == Check(st, base)
    ensures Adm(st, base) && !Named(w, dest.amd64) ==> r == Err(BadRegister(AMD64, dest.amd64))
    ensures Adm(st, base) && Named(w, dest.amd64) && !A.Has64(base.amd64) ==> r == Err(BadRegister(AMD64, base.amd64))
    ensures r.Ok? ==> Defines(st, r.value,
      [Line("mov", NameAt(w, dest.amd64) + ", " + Amd64Mem(Q(base), offset))], dest)
  {
    var s :- Check(st, base);
    var d :- RegName(w, dest.amd64);
    var b :- RegName(W64, base.amd64);
    RegMemLine(d, b, offset);
    Ok(SetRole(InsnfSplit(s, "mov", d + ", " + Amd64Mem(b, offset)), dest))
  }

  /** `Store` (64-bit) and `Store4Bytes` (32-bit): reads base and source; no
      role changes. */
  function StoreAs(st: State, w: Width, base: Reg, offset: i64, src: Reg): (r: Result<State>)
    requires w != W8
    ensures r.Ok? <==> Adm(st, base) && Adm(st, src) && A.Has64(base.amd64) && Named(w, src.amd64)
    ensures !Adm(st, base) ==> r == Check(st, base)
    ensures Adm(st, base) && !Adm(st, src) ==> r == Check(st, src)
    ensures Adm(st, base) && Adm(st, src) && !A.Has64(base.amd64) ==> r == Err(BadRegister(AMD64, base.amd64))
    ensures Adm(st, base) && Adm(st, src) && A.Has64(base.amd64) && !Named(w, src.amd64) ==> r == Err(BadRegister(AMD64, src.amd64))
    ensures r.Ok? ==> Wrote(st, r.value,
      [Line("mov", Amd64Mem(Q(base), offset) + ", " + NameAt(w, src.amd64))])
  {
    var s :- Check(st, base);
    var s' :- Check(s, src);
    var b :- RegName(W64, base.amd64);
    var a :- RegName(w, src.amd64);
    MemRegLine("mov", b, offset, a);
    Ok(InsnfSplit(s', "mov", Amd64Mem(b, offset) + ", " + a))
  }

  /** `Push`: reads the register. */
  function Push(st: State, x: Reg): (r: Result<State>)
    ensures r.Ok? <==> Adm(st, x) && A.Has64(x.amd64)
    ensures !Adm(st, x) ==> r == Check(st, x)
    ensures Adm(st, x) && r.Err? ==> r.error == BadRegister(AMD64, x.amd64)
    ensures r.Ok? ==> Wrote(st, r.value, [Line("push", Q(x))])
  {
    var s :- Check(st, x);
    var d :- RegName(W64, x.amd64);
    Ok(Insn1(s, "push", d))
  }

  /** `Pop`: defines the register without reading it. */
  function Pop(st: State, x: Reg): (r: Result<State>)
    ensures r.Ok? <==> A.Has64(x.amd64)
    ensures r.Err? ==> r.error == BadRegister(AMD64, x.amd64)
    ensures r.Ok? ==> Defines(st, r.value, [Line("pop", Q(x))], x)
  {
    var d :- RegName(W64, x.amd64);
    Ok(SetRole(Insn1(st, "pop", d), x))
  }

  // ----- control flow ----------------------------------------------------------------------------

  /** `Jump`. */
  function Jump(st: State, name: string): (r: State)
    ensures Wrote(st, r, [Line("jmp", Symbol(name))])
    ensures r == Emit(st, Line("jmp", Symbol(name)))
  {
    Insn1(st, "jmp", Symbol(name))
  }

  /** `Call`. */
  function Call(st: State, name: string): (r: State)
    ensures Wrote(st, r, [Line("call", Symbol(name))])
    ensures r == Emit(st, Line("call", Symbol(name)))
  {
    Insn1(st, "call", Symbol(name))
  }

  /** `Unreachable`: a trap. */
  function Unreachable(st: State): (r: State)
    ensures Wrote(st, r, [Bare("int3")])
  {
    Insn0(st, "int3")
  }

  /** The first half of `JumpRegRoutine`: the call to the setup routine and
      the `pause` loop that catches a speculated return. */
  function Trampoline(st: State, prefix: string): (r: State)
    ensures Grew(st, r, 4)
    ensures r.lines == st.lines + TrampolineLines(prefix)
  {
    var s1 := Call(st, prefix + "_setup");
    var s2 := LabelOf(s1, prefix + "_capture");
    var s3 := Insn0(s2, "pause");
    EmitFour(st, Line("call", Symbol(prefix + "_setup")), LabelLine(prefix + "_capture"),
      Bare("pause"), Line("jmp", Symbol(prefix + "_capture")));
    Jump(s3, prefix + "_capture")
  }

  /** The setup routine of `JumpRegRoutine`: it overwrites its own return
      address with the target and returns to it, leaving zero in the
      register that held the target. */
  function SetupRoutine(st: State, x: Reg, name: string): (r: Result<State>)
    ensures r.Ok? <==> Adm(st, st.sys.stackPtr) && Adm(st, x) && A.Has64(st.sys.stackPtr.amd64) && A.HasPartial(x.amd64)
    ensures !Adm(st, st.sys.stackPtr) ==> r == Check(st, st.sys.stackPtr)
    ensures Adm(st, st.sys.stackPtr) && !Adm(st, x) ==> r == Check(st, x)
    ensures Adm(st, st.sys.stackPtr) && Adm(st, x) && !A.Has64(st.sys.stackPtr.amd64) ==> r == Err(BadRegister(AMD64, st.sys.stackPtr.amd64))
    ensures Adm(st, st.sys.stackPtr) && Adm(st, x) && A.Has64(st.sys.stackPtr.amd64) && !A.HasPartial(x.amd64) ==> r == Err(BadRegister(AMD64, x.amd64))
    ensures r.Ok? ==> DefinesN(st, r.value, (if Global(name) then 5 else 4) + 4, x)
    ensures r.Ok? ==> r.value.lines == st.lines + FunctionHead(name, false) + OverwriteLines(st.sys.stackPtr, x)
  {
    var s := FunctionWithoutPrologue(st, name);
    var r :- OverwriteReturn(s, x);
    GrewThenDefines(st, s, r, if Global(name) then 5 else 4, OverwriteLines(s.sys.stackPtr, x), x);
    Ok(r)
  }

  /** The body of the setup routine: the register stored over the return
      address on top of the stack, then cleared, then the return. */
  function OverwriteReturn(st: State, x: Reg): (r: Result<State>)
    ensures r.Ok? <==> Adm(st, st.sys.stackPtr) && Adm(st, x) && A.Has64(st.sys.stackPtr.amd64) && A.HasPartial(x.amd64)
    ensures !Adm(st, st.sys.stackPtr) ==> r == Check(st, st.sys.stackPtr)
    ensures Adm(st, st.sys.stackPtr) && !Adm(st, x) ==> r == Check(st, x)
    ensures Adm(st, st.sys.stackPtr) && Adm(st, x) && !A.Has64(st.sys.stackPtr.amd64) ==> r == Err(BadRegister(AMD64, st.sys.stackPtr.amd64))
    ensures Adm(st, st.sys.stackPtr) && Adm(st, x) && A.Has64(st.sys.stackPtr.amd64) && !A.HasPartial(x.amd64) ==> r == Err(BadRegister(AMD64, x.amd64))
    ensures r.Ok? ==> Defines(st, r.value, OverwriteLines(st.sys.stackPtr, x), x)
  {
    var t :- StoreAs(st, W64, st.sys.stackPtr, 0, x);
    var u :- MoveImm(t, x, 0);
    Ok(Return(u))
  }

  /** The four lines of `OverwriteReturn`: a 64-bit store through the stack
      pointer, the 32-bit `xor` that clears the register, and the return. */
  function OverwriteLines(sp: Reg, x: Reg): (ls: seq<string>)
    requires A.Has64(sp.amd64) && A.HasPartial(x.amd64)
    ensures |ls| == 4
  {
    [Line("mov", Amd64Mem(Q(sp), 0) + ", " + Q(x)), Line("xor", Q4(x) + ", " + Q4(x)), Bare("ret"), Bare("int3")]
  }

  /** The four lines of `Trampoline`. */
  function TrampolineLines(prefix: string): (ls: seq<string>)
    ensures |ls| == 4
  {
    [Line("call", Symbol(prefix + "_setup")), LabelLine(prefix + "_capture"),
     Bare("pause"), Line("jmp", Symbol(prefix + "_capture"))]
  }

  /** Appending lines and then appending more while recording a role. */
  lemma GrewThenDefines(a: State, b: State, c: State, n: nat, added: seq<string>, x: Reg)
    requires Grew(a, b, n) && Defines(b, c, added, x)
    ensures DefinesN(a, c, n + |added|, x)
  {
    assert c.lines[..|a.lines|] == c.lines[..|b.lines|][..|a.lines|];
  }

  /** Appending lines and then appending more while recording a role. */
  lemma GrewDefines(a: State, b: State, c: State, n: nat, m: nat, x: Reg)
    requires Grew(a, b, n) && DefinesN(b, c, m, x)
    ensures DefinesN(a, c, n + m, x)
  {
    assert c.lines[..|a.lines|] == c.lines[..|b.lines|][..|a.lines|];
  }

  /** `JumpRegRoutine`: a call to a setup routine whose return address is
      overwritten with the target, so that the `ret` goes there; a
      speculated return lands in the `pause` loop instead. */
  function JumpRegRoutine(st: State, x: Reg, prefix: string): (r: Result<State>)
    ensures r.Ok? <==> Adm(st, x) && Adm(st, st.sys.stackPtr) && A.Has64(st.sys.stackPtr.amd64) && A.HasPartial(x.amd64)
    ensures !Adm(st, x) ==> r == Check(st, x)
    ensures Adm(st, x) && !Adm(st, st.sys.stackPtr) ==> r == Check(st, st.sys.stackPtr)
    ensures Adm(st, x) && Adm(st, st.sys.stackPtr) && !A.Has64(st.sys.stackPtr.amd64) ==> r == Err(BadRegister(AMD64, st.sys.stackPtr.amd64))
    ensures Adm(st, x) && Adm(st, st.sys.stackPtr) && A.Has64(st.sys.stackPtr.amd64) && !A.HasPartial(x.amd64) ==> r == Err(BadRegister(AMD64, x.amd64))
    ensures r.Ok? ==> DefinesN(st, r.value, 4 + (if Global(prefix + "_setup") then 5 else 4) + 4, x)
    ensures r.Ok? ==> (r.value.lines == st.lines + TrampolineLines(prefix)
      + FunctionHead(prefix + "_setup", false) + OverwriteLines(st.sys.stackPtr, x))
  {
    var s :- Check(st, x);
    var t := Trampoline(s, prefix);
    var r :- SetupRoutine(t, x, prefix + "_setup");
    GrewDefines(st, t, r, 4, (if Global(prefix + "_setup") then 5 else 4) + 4, x);
    Ok(r)
  }

  lemma LocalSuffix(prefix: string, suffix: string)
    requires Word(prefix) && !Global(prefix) && NoSpace(suffix)
    ensures Word(prefix + suffix) && !Global(prefix + suffix)
  {
    WordConcat(prefix, suffix);
    assert (prefix + suffix)[0] == prefix[0];
  }

  /** `JumpRegRoutine` is the trampoline followed by the setup routine. */
  lemma JumpRegRoutineParts(st: State, x: Reg, prefix: string)
    requires Adm(st, x)
    ensures JumpRegRoutine(st, x, prefix) == SetupRoutine(Trampoline(st, prefix), x, prefix + "_setup")
  {
  }

  /** A bit test and a conditional jump on its outcome. A bit below 31 is
      tested through the 32-bit name; the mask is `1 << bit` on a signed
      64-bit `int`. */
  function BitTest(st: State, x: Reg, bit: u64, name: string, jump: string): (r: Result<State>)
    ensures r.Ok? <==> Adm(st, x) && (if bit < 31 then A.HasPartial(x.amd64) else A.Has64(x.amd64))
    ensures !Adm(st, x) ==> r == Check(st, x)
    ensures Adm(st, x) && r.Err? ==> r.error == BadRegister(AMD64, x.amd64)
    ensures r.Ok? && bit < 31 ==> Wrote(st, r.value,
      [Line("test", Q4(x) + ", " + Dec(OneShiftedLeft(bit))), Line(jump, Symbol(name))])
    ensures r.Ok? && bit >= 31 ==> Wrote(st, r.value,
      [Line("test", Q(x) + ", " + Dec(OneShiftedLeft(bit))), Line(jump, Symbol(name))])
  {
    var s :- Check(st, x);
    var d :- RegName(if bit < 31 then W32 else W64, x.amd64);
    EmitTwo(s, Line("test", d + ", " + Dec(OneShiftedLeft(bit))), Line(jump, Symbol(name)));
    Ok(Insn1(Insn2(s, "test", d, Dec(OneShiftedLeft(bit))), jump, Symbol(name)))
  }

  /** `JumpIfBitSet`. */
  function JumpIfBitSet(st: State, x: Reg, bit: u64, name: string): (r: Result<State>)
    ensures r.Ok? <==> Adm(st, x) && (if bit < 31 then A.HasPartial(x.amd64) else A.Has64(x.amd64))
    ensures !Adm(st, x) ==> r == Check(st, x)
    ensures Adm(st, x) && r.Err? ==> r.error == BadRegister(AMD64, x.amd64)
    ensures r.Ok? && bit < 31 ==> Wrote(st, r.value,
      [Line("test", Q4(x) + ", " + Dec(OneShiftedLeft(bit))), Line("jne", Symbol(name))])
    ensures r.Ok? && bit >= 31 ==> Wrote(st, r.value,
      [Line("test", Q(x) + ", " + Dec(OneShiftedLeft(bit))), Line("jne", Symbol(name))])
  {
    BitTest(st, x, bit, name, "jne")
  }

  /** `JumpIfBitNotSet`. */
  function JumpIfBitNotSet(st: State, x: Reg, bit: u64, name: string): (r: Result<State>)
    ensures r.Ok? <==> Adm(st, x) && (if bit < 31 then A.HasPartial(x.amd64) else A.Has64(x.amd64))
    ensures !Adm(st, x) ==> r == Check(st, x)
    ensures Adm(st, x) && r.Err? ==> r.error == BadRegister(AMD64, x.amd64)
    ensures r.Ok? && bit < 31 ==> Wrote(st, r.value,
      [Line("test", Q4(x) + ", " + Dec(OneShiftedLeft(bit))), Line("je", Symbol(name))])
    ensures r.Ok? && bit >= 31 ==> Wrote(st, r.value,
      [Line("test", Q(x) + ", " + Dec(OneShiftedLeft(bit))), Line("je", Symbol(name))])
  {
    BitTest(st, x, bit, name, "je")
  }

  /** The mask of a bit test selects exactly that bit: a positive power of two
      below bit 63, the sign bit at 63, and nothing beyond. The 32-bit form is
      used only for masks that are positive 32-bit immediates. */
  lemma BitTestMask(bit: u64)
    ensures bit < 63 ==> OneShiftedLeft(bit) == Pow2(bit)
    ensures bit < 31 ==> 0 < OneShiftedLeft(bit) <= 0x4000_0000
    ensures bit == 63 ==> OneShiftedLeft(bit) == -TWO_TO_THE_63
    ensures bit >= 64 ==> OneShiftedLeft(bit) == 0
  {
    if bit < 30 {
      Pow2Bound(bit, 30);
    }
    Pow2At30();
  }

  /** `JumpIfImm`: comparing with zero for equality tests the register
      against itself; any other comparison uses `cmp`. */
  function JumpIfImm(st: State, c: Cond, x: Reg, value: i64, name: string): (r: Result<State>)
    ensures r.Ok? <==> Adm(st, x) && A.Has64(x.amd64)
    ensures !Adm(st, x) ==> r == Check(st, x)
    ensures Adm(st, x) && r.Err? ==> r.error == BadRegister(AMD64, x.amd64)
    ensures r.Ok? && value == 0 && (c == EQ || c == NE) ==> Wrote(st, r.value,
      [Line("test", Q(x) + ", " + Q(x)), Line("j" + CondSuffix(c), Symbol(name))])
    ensures r.Ok? && !(value == 0 && (c == EQ || c == NE)) ==> Wrote(st, r.value,
      [Line("cmp", Q(x) + ", " + Dec(value)), Line("j" + CondSuffix(c), Symbol(name))])
  {
    var s :- Check(st, x);
    var d :- RegName(W64, x.amd64);
    var t := if value == 0 && (c == EQ || c == NE) then Insn2(s, "test", d, d) else Insn2(s, "cmp", d, Dec(value));
    EmitTwo(s, Line("test", d + ", " + d), Line("j" + CondSuffix(c), Symbol(name)));
    EmitTwo(s, Line("cmp", d + ", " + Dec(value)), Line("j" + CondSuffix(c), Symbol(name)));
    Ok(Insn1(t, "j" + CondSuffix(c), Symbol(name)))
  }

  /** `JumpIfReg`: reads both registers. */
  function JumpIfReg(st: State, c: Cond, dest: Reg, src: Reg, name: string): (r: Result<State>)
    ensures r.Ok? <==> Adm(st, dest) && Adm(st, src) && A.Has64(dest.amd64) && A.Has64(src.amd64)
    ensures !Adm(st, dest) ==> r == Check(st, dest)
    ensures Adm(st, dest) && !Adm(st, src) ==> r == Check(st, src)
    ensures Adm(st, dest) && Adm(st, src) && !A.Has64(dest.amd64) ==> r == Err(BadRegister(AMD64, dest.amd64))
    ensures Adm(st, dest) && Adm(st, src) && A.Has64(dest.amd64) && !A.Has64(src.amd64) ==> r == Err(BadRegister(AMD64, src.amd64))
    ensures r.Ok? ==> Wrote(st, r.value,
      [Line("cmp", Q(dest) + ", " + Q(src)), Line("j" + CondSuffix(c), Symbol(name))])
  {
    var s :- Check(st, dest);
    var s' :- Check(s, src);
    var d :- RegName(W64, dest.amd64);
    var a :- RegName(W64, src.amd64);
    EmitTwo(s', Line("cmp", d + ", " + a), Line("j" + CondSuffix(c), Symbol(name)));
    Ok(Insn1(Insn2(s', "cmp", d, a), "j" + CondSuffix(c), Symbol(name)))
  }

  /** `Syscall`: the AMD64 number into the syscall-number register (with
      `MoveImm`, so it is defined there), `syscall`, and the result register
      defined. */
  function Syscall(st: State, nr: Arch.Syscall): (r: Result<State>)
    ensures r.Ok? <==> MoveImm(st, st.sys.syscallNr, nr.amd64).Ok?
    ensures r.Err? ==> r.error == BadRegister(AMD64, st.sys.syscallNr.amd64)
    ensures r.Ok? ==> var m := MoveImm(st, st.sys.syscallNr, nr.amd64).value;
      Defines(m, r.value, [Bare("syscall")], st.sys.sysResult)
  {
    var s :- MoveImm(st, st.sys.syscallNr, nr.amd64);
    Ok(SetRole(Insn0(s, "syscall"), st.sys.sysResult))
  }

  /** On Linux the syscall number is moved into `eax` (or `rax`) and the
      result recorded for `rax`, replacing the number's role. */
  lemma LinuxSyscall(st: State, nr: Arch.Syscall)
    requires st.sys == Linux() && nr.amd64 != 0 && Fits32(nr.amd64)
    ensures Syscall(st, nr).Ok?
    ensures Syscall(st, nr).value.lines == st.lines + [Line("mov", "eax, " + Dec(nr.amd64)), Bare("syscall")]
    ensures Syscall(st, nr).value.usage == st.usage[A.RAX := "sysresult"]
  {
    assert A.Name32(A.RAX) == "eax";
    assert A.Name32(A.RAX) + ", " + Dec(nr.amd64) == "eax, " + Dec(nr.amd64);
  }
}
