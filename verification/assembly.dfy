/** The architecture-independent surface of an assembly session
    (assembly.go): creating a session, which writes the header, and the
    `ArchAssembly` operations, dispatched to the emitter of the
    architecture the session is bound to. */
module Assembly {
  import opened Ints
  import opened Text
  import opened Arch
  import opened Abi
  import opened Session
  import Amd64
  import Arm64

  // ----- a fresh session -------------------------------------------------------------------

  /** The header the session starts with: `header1`, the syntax mode on
      AMD64 only, then `header2`. */
  function HeaderLines(arch: ArchKind): seq<string> {
    Header1 + (if arch == AMD64 then IntelSyntax else []) + Header2
  }

  /** `NewAssembly`: a session bound to `arch` and `sys` whose buffer holds
      only the header and which has recorded no roles yet. */
  function NewAssembly(arch: ArchKind, sys: System, unrecorded: UnrecordedRoles): (st: State)
    ensures st.arch == arch && st.sys == sys && st.unrecorded == unrecorded && st.usage == map[]
    ensures |st.lines| == if arch == AMD64 then 6 else 4
    ensures st.lines[0] == "// Generated by gate.computer/ga, DO NOT EDIT!\n"
    ensures st.lines[|st.lines| - 2..] == [".section .note.GNU-stack,\"\",%progbits\n", ".section .text\n"]
    ensures ".intel_syntax noprefix\n" in st.lines <==> arch == AMD64
  {
    State(arch, sys, HeaderLines(arch), map[], unrecorded)
  }

  /** The text of a fresh AMD64 session. */
  lemma Amd64HeaderText(sys: System, unrecorded: UnrecordedRoles)
    ensures Output(NewAssembly(AMD64, sys, unrecorded))
      == "// Generated by gate.computer/ga, DO NOT EDIT!\n" + "\n" + ".intel_syntax noprefix\n"
        + ("\n" + ".section .note.GNU-stack,\"\",%progbits\n" + ".section .text\n")
  {
    var front := Header1 + IntelSyntax;
    assert HeaderLines(AMD64) == front + Header2;
    ConcatSplit(front, Header2);
    assert front == [Header1[0], IntelSyntax[0], IntelSyntax[1]];
    ConcatThree(Header1[0], IntelSyntax[0], IntelSyntax[1]);
    ConcatThree(Header2[0], Header2[1], Header2[2]);
  }

  /** The text of a fresh ARM64 session: the same without the syntax mode. */
  lemma Arm64HeaderText(sys: System, unrecorded: UnrecordedRoles)
    ensures Output(NewAssembly(ARM64, sys, unrecorded))
      == "// Generated by gate.computer/ga, DO NOT EDIT!\n"
        + ("\n" + ".section .note.GNU-stack,\"\",%progbits\n" + ".section .text\n")
  {
    assert HeaderLines(ARM64) == Header1 + Header2;
    ConcatSplit(Header1, Header2);
    ConcatOne(Header1[0]);
    ConcatThree(Header2[0], Header2[1], Header2[2]);
  }

  lemma ConcatOne(a: string)
    ensures Concat([a]) == a
  {
    assert [a][1..] == [];
  }

  lemma ConcatThree(a: string, b: string, c: string)
    ensures Concat([a, b, c]) == a + b + c
  {
    assert [a, b, c][1..] == [b, c];
    assert [b, c][1..] == [c];
    ConcatOne(c);
  }

  /** The text of consecutive lines is the text of the first part followed
      by the text of the second. */
  lemma {:induction false} ConcatSplit(a: seq<string>, b: seq<string>)
    ensures Concat(a + b) == Concat(a) + Concat(b)
    decreases |a|
  {
    if a == [] {
      assert a + b == b;
    } else {
      assert (a + b)[1..] == a[1..] + b;
      ConcatSplit(a[1..], b);
    }
  }

  // ----- the operations ---------------------------------------------------------------------

  /** Headings, prologues and returns. */
  datatype HeadOp =
    | Label(name: string)
    | FunctionEpilogue
    | Function(name: string)
    | FunctionWithoutPrologue(name: string)
    | Return
    | ReturnWithoutEpilogue

  /** Moves into a register. */
  datatype MoveOp =
    | Address(dest: Reg, name: string)
    | MoveDef(dest: Reg, name: string)
    | MoveImm(dest: Reg, value: i64)
    | MoveImm64(dest: Reg, bits: u64)
    | MoveReg(dest: Reg, src: Reg)
    | MoveRegFloat(dest: Reg, fsrc: u8)

  /** The three-operand arithmetic: addition and multiplication. */
  datatype ArithOp =
    | AddImm(dest: Reg, src: Reg, value: i64)
    | AddReg(dest: Reg, src1: Reg, src2: Reg)
    | MultiplyImm(dest: Reg, src: Reg, value: i64, temp: Reg)

  /** Subtraction, bitwise operations and shifts, all in place. */
  datatype LogicOp =
    | SubtractImm(dest: Reg, value: i64)
    | SubtractReg(dest: Reg, src: Reg)
    | AndImm(dest: Reg, value: i64)
    | AndReg(dest: Reg, src: Reg)
    | OrImm(dest: Reg, value: i64)
    | OrReg(dest: Reg, src: Reg)
    | ShiftImm(s: Shift, dest: Reg, value: i64)

  /** Memory and stack accesses. */
  datatype MemOp =
    | Load(dest: Reg, base: Reg, offset: i64)
    | Load4Bytes(dest: Reg, base: Reg, offset: i64)
    | LoadByte(dest: Reg, base: Reg, offset: i64)
    | Store(base: Reg, offset: i64, src: Reg)
    | Store4Bytes(base: Reg, offset: i64, src: Reg)
    | Push(r: Reg)
    | Pop(r: Reg)

  /** Direct calls and jumps, plain and conditional. */
  datatype BranchOp =
    | Call(name: string)
    | Jump(name: string)
    | JumpIfBitSet(r: Reg, bit: u64, name: string)
    | JumpIfBitNotSet(r: Reg, bit: u64, name: string)
    | JumpIfImm(c: Cond, r: Reg, value: i64, name: string)
    | JumpIfReg(c: Cond, dest: Reg, src: Reg, name: string)

  /** The indirect jump, system calls and the trap. */
  datatype SpecialOp =
    | JumpRegRoutine(r: Reg, prefix: string)
    | Syscall(nr: Arch.Syscall)
    | Unreachable

  /** One method of the `ArchAssembly` interface with its arguments. */
  datatype Op =
    | Head(h: HeadOp)
    | Move(m: MoveOp)
    | Arith(a: ArithOp)
    | Logic(l: LogicOp)
    | Mem(x: MemOp)
    | Branch(b: BranchOp)
    | Special(p: SpecialOp)

  // ----- dispatch ----------------------------------------------------------------------------

  function Amd64Head(st: State, op: HeadOp): Result<State> {
    match op
    case Label(name) => Ok(Amd64.Label(st, name))
    case FunctionEpilogue => Ok(Amd64.FunctionEpilogue(st))
    case Function(name) => Ok(Amd64.Function(st, name))
    case FunctionWithoutPrologue(name) => Ok(Amd64.FunctionWithoutPrologue(st, name))
    case Return => Ok(Amd64.Return(st))
    case ReturnWithoutEpilogue => Ok(Amd64.ReturnWithoutEpilogue(st))
  }

  function Arm64Head(st: State, op: HeadOp): Result<State> {
    match op
    case Label(name) => Ok(Arm64.Label(st, name))
    case FunctionEpilogue => Arm64.FunctionEpilogue(st)
    case Function(name) => Arm64.Function(st, name)
    case FunctionWithoutPrologue(name) => Ok(Arm64.FunctionWithoutPrologue(st, name))
    case Return => Arm64.Return(st)
    case ReturnWithoutEpilogue => Ok(Arm64.ReturnWithoutEpilogue(st))
  }

  function Amd64Move(st: State, op: MoveOp): Result<State> {
    match op
    case Address(dest, name) => Amd64.Address(st, dest, name)
    case MoveDef(dest, name) => Amd64.MoveDef(st, dest, name)
    case MoveImm(dest, value) => Amd64.MoveImm(st, dest, value)
    case MoveImm64(dest, bits) => Amd64.MoveImm64(st, dest, bits)
    case MoveReg(dest, src) => Amd64.MoveReg(st, dest, src)
    case MoveRegFloat(dest, fsrc) => Amd64.MoveRegFloat(st, dest, fsrc)
  }

  function Arm64Move(st: State, op: MoveOp): Result<State> {
    match op
    case Address(dest, name) => Arm64.Address(st, dest, name)
    case MoveDef(dest, name) => Arm64.MoveDef(st, dest, name)
    case MoveImm(dest, value) => Arm64.MoveImm(st, dest, value)
    case MoveImm64(dest, bits) => Arm64.MoveImm64(st, dest, bits)
    case MoveReg(dest, src) => Arm64.MoveReg(st, dest, src)
    case MoveRegFloat(dest, fsrc) => Arm64.MoveRegFloat(st, dest, fsrc)
  }

  function Amd64Arith(st: State, op: ArithOp): Result<State> {
    match op
    case AddImm(dest, src, value) => Amd64.AddImm(st, dest, src, value)
    case AddReg(dest, src1, src2) => Amd64.AddReg(st, dest, src1, src2)
    case MultiplyImm(dest, src, value, temp) => Amd64.MultiplyImm(st, dest, src, value, temp)
  }

  function Arm64Arith(st: State, op: ArithOp): Result<State> {
    match op
    case AddImm(dest, src, value) => Arm64.AddImm(st, dest, src, value)
    case AddReg(dest, src1, src2) => Arm64.AddReg(st, dest, src1, src2)
    case MultiplyImm(dest, src, value, temp) => Arm64.MultiplyImm(st, dest, src, value, temp)
  }

  function Amd64Logic(st: State, op: LogicOp): Result<State> {
    match op
    case SubtractImm(dest, value) => Amd64.SubtractImm(st, dest, value)
    case SubtractReg(dest, src) => Amd64.SubtractReg(st, dest, src)
    case AndImm(dest, value) => Amd64.AndImm(st, dest, value)
    case AndReg(dest, src) => Amd64.AndReg(st, dest, src)
    case OrImm(dest, value) => Amd64.OrImm(st, dest, value)
    case OrReg(dest, src) => Amd64.OrReg(st, dest, src)
    case ShiftImm(s, dest, value) => Amd64.ShiftImm(st, s, dest, value)
  }

  function Arm64Logic(st: State, op: LogicOp): Result<State> {
    match op
    case SubtractImm(dest, value) => Arm64.SubtractImm(st, dest, value)
    case SubtractReg(dest, src) => Arm64.SubtractReg(st, dest, src)
    case AndImm(dest, value) => Arm64.AndImm(st, dest, value)
    case AndReg(dest, src) => Arm64.AndReg(st, dest, src)
    case OrImm(dest, value) => Arm64.OrImm(st, dest, value)
    case OrReg(dest, src) => Arm64.OrReg(st, dest, src)
    case ShiftImm(s, dest, value) => Arm64.ShiftImm(st, s, dest, value)
  }

  function Amd64Mem(st: State, op: MemOp): Result<State> {
    match op
    case Load(dest, base, offset) => Amd64.LoadAs(st, Amd64.W64, dest, base, offset)
    case Load4Bytes(dest, base, offset) => Amd64.LoadAs(st, Amd64.W32, dest, base, offset)
    case LoadByte(dest, base, offset) => Amd64.LoadAs(st, Amd64.W8, dest, base, offset)
    case Store(base, offset, src) => Amd64.StoreAs(st, Amd64.W64, base, offset, src)
    case Store4Bytes(base, offset, src) => Amd64.StoreAs(st, Amd64.W32, base, offset, src)
    case Push(r) => Amd64.Push(st, r)
    case Pop(r) => Amd64.Pop(st, r)
  }

  function Arm64Mem(st: State, op: MemOp): Result<State> {
    match op
    case Load(dest, base, offset) => Arm64.Load(st, dest, base, offset)
    case Load4Bytes(dest, base, offset) => Arm64.Load4Bytes(st, dest, base, offset)
    case LoadByte(dest, base, offset) => Arm64.LoadByte(st, dest, base, offset)
    case Store(base, offset, src) => Arm64.StoreAs(st, Arm64.W64, base, offset, src)
    case Store4Bytes(base, offset, src) => Arm64.StoreAs(st, Arm64.W32, base, offset, src)
    case Push(r) => Arm64.Push(st, r)
    case Pop(r) => Arm64.Pop(st, r)
  }

  function Amd64Branch(st: State, op: BranchOp): Result<State> {
    match op
    case Call(name) => Ok(Amd64.Call(st, name))
    case Jump(name) => Ok(Amd64.Jump(st, name))
    case JumpIfBitSet(r, bit, name) => Amd64.JumpIfBitSet(st, r, bit, name)
    case JumpIfBitNotSet(r, bit, name) => Amd64.JumpIfBitNotSet(st, r, bit, name)
    case JumpIfImm(c, r, value, name) => Amd64.JumpIfImm(st, c, r, value, name)
    case JumpIfReg(c, dest, src, name) => Amd64.JumpIfReg(st, c, dest, src, name)
  }

  function Arm64Branch(st: State, op: BranchOp): Result<State> {
    match op
    case Call(name) => Ok(Arm64.Call(st, name))
    case Jump(name) => Ok(Arm64.Jump(st, name))
    case JumpIfBitSet(r, bit, name) => Arm64.JumpIfBitSet(st, r, bit, name)
    case JumpIfBitNotSet(r, bit, name) => Arm64.JumpIfBitNotSet(st, r, bit, name)
    case JumpIfImm(c, r, value, name) => Arm64.JumpIfImm(st, c, r, value, name)
    case JumpIfReg(c, dest, src, name) => Arm64.JumpIfReg(st, c, dest, src, name)
  }

  function Amd64Special(st: State, op: SpecialOp): Result<State> {
    match op
    case JumpRegRoutine(r, prefix) => Amd64.JumpRegRoutine(st, r, prefix)
    case Syscall(nr) => Amd64.Syscall(st, nr)
    case Unreachable => Ok(Amd64.Unreachable(st))
  }

  function Arm64Special(st: State, op: SpecialOp): Result<State> {
    match op
    case JumpRegRoutine(r, prefix) => Arm64.JumpRegRoutine(st, r, prefix)
    case Syscall(nr) => Arm64.Syscall(st, nr)
    case Unreachable => Ok(Arm64.Unreachable(st))
  }

  /** A call of the interface method on the session: the emitter of the
      architecture the session is bound to does the work. */
  function Apply(st: State, op: Op): Result<State> {
    if st.arch == AMD64 then
      match op
      case Head(h) => Amd64Head(st, h)
      case Move(m) => Amd64Move(st, m)
      case Arith(a) => Amd64Arith(st, a)
      case Logic(l) => Amd64Logic(st, l)
      case Mem(x) => Amd64Mem(st, x)
      case Branch(b) => Amd64Branch(st, b)
      case Special(p) => Amd64Special(st, p)
    else
      match op
      case Head(h) => Arm64Head(st, h)
      case Move(m) => Arm64Move(st, m)
      case Arith(a) => Arm64Arith(st, a)
      case Logic(l) => Arm64Logic(st, l)
      case Mem(x) => Arm64Mem(st, x)
      case Branch(b) => Arm64Branch(st, b)
      case Special(p) => Arm64Special(st, p)
  }

  /** A sequence of calls; the first failure stops the session. */
  function Run(st: State, ops: seq<Op>): Result<State>
    decreases |ops|
  {
    if ops == [] then Ok(st)
    else
      match Apply(st, ops[0])
      case Ok(s) => Run(s, ops[1..])
      case Err(e) => Err(e)
  }

  // ----- which registers each call reads and defines -------------------------------------------

  /** The registers a call passes to the role check, in order. Only AMD64's
      `MultiplyImm` checks its destination as well, and only AMD64's
      `JumpRegRoutine` goes on to check the stack pointer and the register
      again, in the `Store` of its setup routine. */
  function Reads(a: ArchKind, sys: System, op: Op): seq<Reg> {
    match op
    case Head(_) => []
    case Move(m) => if m.MoveReg? then [m.src] else []
    case Arith(x) =>
      (match x
       case AddImm(_, src, _) => [src]
       case AddReg(_, src1, src2) => [src1, src2]
       case MultiplyImm(dest, src, _, _) => if a == AMD64 then [dest, src] else [src])
    case Logic(l) => if l.SubtractReg? || l.AndReg? || l.OrReg? then [l.dest, l.src] else [l.dest]
    case Mem(x) =>
      (match x
       case Load(_, base, _) => [base]
       case Load4Bytes(_, base, _) => [base]
       case LoadByte(_, base, _) => [base]
       case Store(base, _, src) => [base, src]
       case Store4Bytes(base, _, src) => [base, src]
       case Push(r) => [r]
       case Pop(_) => [])
    case Branch(b) =>
      (match b
       case JumpIfBitSet(r, _, _) => [r]
       case JumpIfBitNotSet(r, _, _) => [r]
       case JumpIfImm(_, r, _, _) => [r]
       case JumpIfReg(_, dest, src, _) => [dest, src]
       case _ => [])
    case Special(p) =>
      (match p
       case JumpRegRoutine(r, _) => if a == AMD64 then [r, sys.stackPtr, r] else [r]
       case _ => [])
  }

  /** The registers whose role a call records, in the order it records
      them. The two architectures differ in three calls: AMD64's
      `MultiplyImm` records `temp` in its own role where ARM64 finally
      records the empty role for it, AMD64's `JumpRegRoutine` defines the
      register it zeroes, and AMD64's `Syscall` defines the syscall-number
      register before the result register. */
  function Defs(a: ArchKind, sys: System, op: Op): seq<Reg> {
    match op
    case Head(_) => []
    case Move(m) => [m.dest]
    case Arith(x) =>
      if x.MultiplyImm? then
        if a == AMD64 then [x.temp, x.dest] else [x.temp, x.dest, x.temp.As("")]
      else [x.dest]
    case Logic(l) => [l.dest]
    case Mem(x) =>
      (match x
       case Load(dest, _, _) => [dest]
       case Load4Bytes(dest, _, _) => [dest]
       case LoadByte(dest, _, _) => [dest]
       case Pop(r) => [r]
       case _ => [])
    case Branch(_) => []
    case Special(p) =>
      (match p
       case JumpRegRoutine(r, _) => if a == AMD64 then [r] else []
       case Syscall(_) => if a == AMD64 then [sys.syscallNr, sys.sysResult] else [sys.sysResult]
       case Unreachable => [])
  }

  /** The roles after recording `regs` one after the other. */
  function Record(usage: map<u8, string>, a: ArchKind, regs: seq<Reg>): map<u8, string>
    decreases |regs|
  {
    if regs == [] then usage
    else Record(usage[Encoding(a, regs[0]) := regs[0].use], a, regs[1..])
  }

  lemma RecordOne(usage: map<u8, string>, a: ArchKind, x: Reg)
    ensures Record(usage, a, [x]) == usage[Encoding(a, x) := x.use]
  {
    assert [x][1..] == [];
  }

  lemma RecordTwo(usage: map<u8, string>, a: ArchKind, x: Reg, y: Reg)
    ensures Record(usage, a, [x, y]) == usage[Encoding(a, x) := x.use][Encoding(a, y) := y.use]
  {
    assert [x, y][1..] == [y];
    RecordOne(usage[Encoding(a, x) := x.use], a, y);
  }

  lemma RecordThree(usage: map<u8, string>, a: ArchKind, x: Reg, y: Reg, z: Reg)
    ensures Record(usage, a, [x, y, z])
      == usage[Encoding(a, x) := x.use][Encoding(a, y) := y.use][Encoding(a, z) := z.use]
  {
    assert [x, y, z][1..] == [y, z];
    RecordTwo(usage[Encoding(a, x) := x.use], a, y, z);
  }

  /** Every register in `regs` passes the role check of the session. */
  predicate AllAdmitted(st: State, regs: seq<Reg>) {
    forall i :: 0 <= i < |regs| ==> Admits(st, Encoding(st.arch, regs[i]), regs[i].use)
  }

  predicate RoleError(e: Error) {
    e.RoleMismatch? || e.RoleUnrecorded?
  }

  /** The role discipline of one call: a call that succeeds only appended
      lines, every register it reads passed the role check, and exactly the
      roles it defines were recorded, in order; a call that reads a register
      the check refuses fails with a role error; and a call whose reads all
      pass can fail only for a register without a name. */
  predicate Disciplined(st: State, r: Result<State>, checked: seq<Reg>, defined: seq<Reg>) {
    && (r.Ok? ==> Appends(st, r.value) && AllAdmitted(st, checked) && r.value.usage == Record(st.usage, st.arch, defined))
    && (!AllAdmitted(st, checked) ==> r.Err? && RoleError(r.error))
    && (AllAdmitted(st, checked) && r.Err? ==> r.error.BadRegister? && r.error.arch == st.arch)
  }

  /** The role check passes for a short list exactly when it passes for each
      register in it. */
  lemma AdmittedOne(st: State, x: Reg)
    ensures AllAdmitted(st, [x]) <==> Admits(st, Encoding(st.arch, x), x.use)
  {
    assert [x][0] == x;
  }

  lemma AdmittedTwo(st: State, x: Reg, y: Reg)
    ensures AllAdmitted(st, [x, y]) <==> Admits(st, Encoding(st.arch, x), x.use) && Admits(st, Encoding(st.arch, y), y.use)
  {
    assert [x, y][0] == x && [x, y][1] == y;
  }

  lemma AdmittedThree(st: State, x: Reg, y: Reg, z: Reg)
    ensures AllAdmitted(st, [x, y, z])
      <==> Admits(st, Encoding(st.arch, x), x.use) && Admits(st, Encoding(st.arch, y), y.use) && Admits(st, Encoding(st.arch, z), z.use)
  {
    assert [x, y, z][0] == x && [x, y, z][1] == y && [x, y, z][2] == z;
  }

  lemma Amd64HeadDisciplined(st: State, op: HeadOp)
    requires st.arch == AMD64
    ensures Disciplined(st, Amd64Head(st, op), Reads(AMD64, st.sys, Head(op)), Defs(AMD64, st.sys, Head(op)))
  {}

  lemma Arm64HeadDisciplined(st: State, op: HeadOp)
    requires st.arch == ARM64
    ensures Disciplined(st, Arm64Head(st, op), Reads(ARM64, st.sys, Head(op)), Defs(ARM64, st.sys, Head(op)))
  {}

  lemma Amd64MoveDisciplined(st: State, op: MoveOp)
    requires st.arch == AMD64
    ensures Disciplined(st, Amd64Move(st, op), Reads(AMD64, st.sys, Move(op)), Defs(AMD64, st.sys, Move(op)))
  {
    RecordOne(st.usage, AMD64, op.dest);
    if op.MoveReg? {
      AdmittedOne(st, op.src);
    }
  }

  lemma Arm64MoveDisciplined(st: State, op: MoveOp)
    requires st.arch == ARM64
    ensures Disciplined(st, Arm64Move(st, op), Reads(ARM64, st.sys, Move(op)), Defs(ARM64, st.sys, Move(op)))
  {
    RecordOne(st.usage, ARM64, op.dest);
    if op.MoveReg? {
      AdmittedOne(st, op.src);
    }
  }

  lemma Amd64ArithDisciplined(st: State, op: ArithOp)
    requires st.arch == AMD64
    ensures Disciplined(st, Amd64Arith(st, op), Reads(AMD64, st.sys, Arith(op)), Defs(AMD64, st.sys, Arith(op)))
  {
    match op
    case AddImm(dest, src, _) =>
      assert Reads(AMD64, st.sys, Arith(op)) == [src];
      AdmittedOne(st, src);
      RecordOne(st.usage, AMD64, dest);
    case AddReg(dest, src1, src2) =>
      assert Reads(AMD64, st.sys, Arith(op)) == [src1, src2];
      AdmittedTwo(st, src1, src2);
      RecordOne(st.usage, AMD64, dest);
    case MultiplyImm(dest, src, _, temp) =>
      assert Reads(AMD64, st.sys, Arith(op)) == [dest, src];
      AdmittedTwo(st, dest, src);
      RecordTwo(st.usage, AMD64, temp, dest);
  }

  lemma Arm64ArithDisciplined(st: State, op: ArithOp)
    requires st.arch == ARM64
    ensures Disciplined(st, Arm64Arith(st, op), Reads(ARM64, st.sys, Arith(op)), Defs(ARM64, st.sys, Arith(op)))
  {
    match op
    case AddImm(dest, src, _) =>
      assert Reads(ARM64, st.sys, Arith(op)) == [src];
      AdmittedOne(st, src);
      RecordOne(st.usage, ARM64, dest);
    case AddReg(dest, src1, src2) =>
      assert Reads(ARM64, st.sys, Arith(op)) == [src1, src2];
      AdmittedTwo(st, src1, src2);
      RecordOne(st.usage, ARM64, dest);
    case MultiplyImm(dest, src, _, temp) =>
      assert Reads(ARM64, st.sys, Arith(op)) == [src];
      AdmittedOne(st, src);
      RecordThree(st.usage, ARM64, temp, dest, temp.As(""));
  }

  lemma Amd64LogicDisciplined(st: State, op: LogicOp)
    requires st.arch == AMD64
    ensures Disciplined(st, Amd64Logic(st, op), Reads(AMD64, st.sys, Logic(op)), Defs(AMD64, st.sys, Logic(op)))
  {
    RecordOne(st.usage, AMD64, op.dest);
    if op.SubtractReg? || op.AndReg? || op.OrReg? {
      AdmittedTwo(st, op.dest, op.src);
    } else {
      AdmittedOne(st, op.dest);
    }
  }

  lemma Arm64LogicDisciplined(st: State, op: LogicOp)
    requires st.arch == ARM64
    ensures Disciplined(st, Arm64Logic(st, op), Reads(ARM64, st.sys, Logic(op)), Defs(ARM64, st.sys, Logic(op)))
  {
    RecordOne(st.usage, ARM64, op.dest);
    if op.SubtractReg? || op.AndReg? || op.OrReg? {
      AdmittedTwo(st, op.dest, op.src);
    } else {
      AdmittedOne(st, op.dest);
    }
  }

  lemma Amd64MemDisciplined(st: State, op: MemOp)
    requires st.arch == AMD64
    ensures Disciplined(st, Amd64Mem(st, op), Reads(AMD64, st.sys, Mem(op)), Defs(AMD64, st.sys, Mem(op)))
  {
    match op
    case Load(dest, base, offset) => Amd64LoadDisciplined(st, Amd64.W64, dest, base, offset);
    case Load4Bytes(dest, base, offset) => Amd64LoadDisciplined(st, Amd64.W32, dest, base, offset);
    case LoadByte(dest, base, offset) => Amd64LoadDisciplined(st, Amd64.W8, dest, base, offset);
    case Store(base, offset, src) => Amd64StoreDisciplined(st, Amd64.W64, base, offset, src);
    case Store4Bytes(base, offset, src) => Amd64StoreDisciplined(st, Amd64.W32, base, offset, src);
    case Push(r) => AdmittedOne(st, r);
    case Pop(r) => RecordOne(st.usage, AMD64, r);
  }

  lemma Amd64LoadDisciplined(st: State, w: Amd64.Width, dest: Reg, base: Reg, offset: i64)
    requires st.arch == AMD64
    ensures Disciplined(st, Amd64.LoadAs(st, w, dest, base, offset), [base], [dest])
  {
    AdmittedOne(st, base);
    RecordOne(st.usage, AMD64, dest);
  }

  lemma Amd64StoreDisciplined(st: State, w: Amd64.Width, base: Reg, offset: i64, src: Reg)
    requires st.arch == AMD64 && w != Amd64.W8
    ensures Disciplined(st, Amd64.StoreAs(st, w, base, offset, src), [base, src], [])
  {
    AdmittedTwo(st, base, src);
  }

  lemma Arm64MemDisciplined(st: State, op: MemOp)
    requires st.arch == ARM64
    ensures Disciplined(st, Arm64Mem(st, op), Reads(ARM64, st.sys, Mem(op)), Defs(ARM64, st.sys, Mem(op)))
  {
    match op
    case Load(dest, base, offset) => Arm64LoadDisciplined(st, "ldr", Arm64.W64, dest, base, offset);
    case Load4Bytes(dest, base, offset) => Arm64LoadDisciplined(st, "ldr", Arm64.W32, dest, base, offset);
    case LoadByte(dest, base, offset) => Arm64LoadDisciplined(st, "ldurb", Arm64.W32, dest, base, offset);
    case Store(base, offset, src) => Arm64StoreDisciplined(st, Arm64.W64, base, offset, src);
    case Store4Bytes(base, offset, src) => Arm64StoreDisciplined(st, Arm64.W32, base, offset, src);
    case Push(r) => AdmittedOne(st, r);
    case Pop(r) => RecordOne(st.usage, ARM64, r);
  }

  lemma Arm64LoadDisciplined(st: State, m: string, w: Arm64.Width, dest: Reg, base: Reg, offset: i64)
    requires st.arch == ARM64 && (m == "ldr" || m == "ldurb")
    ensures Disciplined(st, Arm64.LoadWith(st, m, w, dest, base, offset), [base], [dest])
  {
    AdmittedOne(st, base);
    RecordOne(st.usage, ARM64, dest);
  }

  lemma Arm64StoreDisciplined(st: State, w: Arm64.Width, base: Reg, offset: i64, src: Reg)
    requires st.arch == ARM64
    ensures Disciplined(st, Arm64.StoreAs(st, w, base, offset, src), [base, src], [])
  {
    AdmittedTwo(st, base, src);
  }

  lemma Amd64BranchDisciplined(st: State, op: BranchOp)
    requires st.arch == AMD64
    ensures Disciplined(st, Amd64Branch(st, op), Reads(AMD64, st.sys, Branch(op)), Defs(AMD64, st.sys, Branch(op)))
  {
    match op
    case Call(_) =>
    case Jump(_) =>
    case JumpIfBitSet(r, bit, name) =>
      assert Reads(AMD64, st.sys, Branch(op)) == [r];
      AdmittedOne(st, r);
    case JumpIfBitNotSet(r, bit, name) =>
      assert Reads(AMD64, st.sys, Branch(op)) == [r];
      AdmittedOne(st, r);
    case JumpIfImm(c, r, value, name) =>
      assert Reads(AMD64, st.sys, Branch(op)) == [r];
      AdmittedOne(st, r);
    case JumpIfReg(c, dest, src, name) =>
      assert Reads(AMD64, st.sys, Branch(op)) == [dest, src];
      AdmittedTwo(st, dest, src);
  }

  lemma Arm64BranchDisciplined(st: State, op: BranchOp)
    requires st.arch == ARM64
    ensures Disciplined(st, Arm64Branch(st, op), Reads(ARM64, st.sys, Branch(op)), Defs(ARM64, st.sys, Branch(op)))
  {
    match op
    case Call(_) =>
    case Jump(_) =>
    case JumpIfBitSet(r, bit, name) =>
      assert Reads(ARM64, st.sys, Branch(op)) == [r];
      AdmittedOne(st, r);
    case JumpIfBitNotSet(r, bit, name) =>
      assert Reads(ARM64, st.sys, Branch(op)) == [r];
      AdmittedOne(st, r);
    case JumpIfImm(c, r, value, name) =>
      assert Reads(ARM64, st.sys, Branch(op)) == [r];
      AdmittedOne(st, r);
    case JumpIfReg(c, dest, src, name) =>
      assert Reads(ARM64, st.sys, Branch(op)) == [dest, src];
      AdmittedTwo(st, dest, src);
  }

  lemma Amd64SpecialDisciplined(st: State, op: SpecialOp)
    requires st.arch == AMD64
    ensures Disciplined(st, Amd64Special(st, op), Reads(AMD64, st.sys, Special(op)), Defs(AMD64, st.sys, Special(op)))
  {
    match op
    case JumpRegRoutine(r, prefix) =>
      assert Reads(AMD64, st.sys, Special(op)) == [r, st.sys.stackPtr, r];
      assert Defs(AMD64, st.sys, Special(op)) == [r];
      Amd64JumpRegRoutineDisciplined(st, r, prefix);
    case Syscall(nr) =>
      assert Defs(AMD64, st.sys, Special(op)) == [st.sys.syscallNr, st.sys.sysResult];
      Amd64SyscallDisciplined(st, nr);
    case Unreachable =>
  }

  lemma Arm64SpecialDisciplined(st: State, op: SpecialOp)
    requires st.arch == ARM64
    ensures Disciplined(st, Arm64Special(st, op), Reads(ARM64, st.sys, Special(op)), Defs(ARM64, st.sys, Special(op)))
  {
    match op
    case JumpRegRoutine(r, _) =>
      assert Reads(ARM64, st.sys, Special(op)) == [r];
      AdmittedOne(st, r);
    case Syscall(_) =>
      RecordOne(st.usage, ARM64, st.sys.sysResult);
    case Unreachable =>
  }

  lemma Amd64JumpRegRoutineDisciplined(st: State, r: Reg, prefix: string)
    requires st.arch == AMD64
    ensures Disciplined(st, Amd64.JumpRegRoutine(st, r, prefix), [r, st.sys.stackPtr, r], [r])
  {
    AdmittedThree(st, r, st.sys.stackPtr, r);
    RecordOne(st.usage, AMD64, r);
  }

  lemma Amd64SyscallDisciplined(st: State, nr: Arch.Syscall)
    requires st.arch == AMD64
    ensures Disciplined(st, Amd64.Syscall(st, nr), [], [st.sys.syscallNr, st.sys.sysResult])
  {
    RecordTwo(st.usage, AMD64, st.sys.syscallNr, st.sys.sysResult);
  }

  // ----- whole sessions ------------------------------------------------------------------------

  /** Every interface call keeps the role discipline on either architecture;
      in particular it fails with a role error exactly when the role check
      refuses a register it reads. */
  lemma ApplyDisciplined(st: State, op: Op)
    ensures Disciplined(st, Apply(st, op), Reads(st.arch, st.sys, op), Defs(st.arch, st.sys, op))
    ensures (Apply(st, op).Err? && RoleError(Apply(st, op).error)) <==> !AllAdmitted(st, Reads(st.arch, st.sys, op))
  {
    if st.arch == AMD64 {
      match op
      case Head(h) => Amd64HeadDisciplined(st, h);
      case Move(m) => Amd64MoveDisciplined(st, m);
      case Arith(a) => Amd64ArithDisciplined(st, a);
      case Logic(l) => Amd64LogicDisciplined(st, l);
      case Mem(x) => Amd64MemDisciplined(st, x);
      case Branch(b) => Amd64BranchDisciplined(st, b);
      case Special(p) => Amd64SpecialDisciplined(st, p);
    } else {
      match op
      case Head(h) => Arm64HeadDisciplined(st, h);
      case Move(m) => Arm64MoveDisciplined(st, m);
      case Arith(a) => Arm64ArithDisciplined(st, a);
      case Logic(l) => Arm64LogicDisciplined(st, l);
      case Mem(x) => Arm64MemDisciplined(st, x);
      case Branch(b) => Arm64BranchDisciplined(st, b);
      case Special(p) => Arm64SpecialDisciplined(st, p);
    }
  }

  /** The registers a sequence of calls defines, call after call. */
  function AllDefs(a: ArchKind, sys: System, ops: seq<Op>): seq<Reg>
    decreases |ops|
  {
    if ops == [] then [] else Defs(a, sys, ops[0]) + AllDefs(a, sys, ops[1..])
  }

  lemma {:induction false} RecordConcat(usage: map<u8, string>, a: ArchKind, x: seq<Reg>, y: seq<Reg>)
    ensures Record(usage, a, x + y) == Record(Record(usage, a, x), a, y)
    decreases |x|
  {
    if x == [] {
      assert x + y == y;
    } else {
      assert (x + y)[0] == x[0] && (x + y)[1..] == x[1..] + y;
      RecordConcat(usage[Encoding(a, x[0]) := x[0].use], a, x[1..], y);
    }
  }

  lemma AppendsTrans(a: State, b: State, c: State)
    requires Appends(a, b) && Appends(b, c)
    ensures Appends(a, c)
  {
    assert c.lines[..|a.lines|] == c.lines[..|b.lines|][..|a.lines|];
  }

  /** A session that runs to the end only appended to its text, and the
      roles it ends with are those its calls defined, recorded in order. */
  lemma {:induction false} RunAppends(st: State, ops: seq<Op>)
    ensures Run(st, ops).Ok? ==> Appends(st, Run(st, ops).value)
    ensures Run(st, ops).Ok? ==> Run(st, ops).value.usage == Record(st.usage, st.arch, AllDefs(st.arch, st.sys, ops))
    decreases |ops|
  {
    if ops != [] {
      ApplyDisciplined(st, ops[0]);
      var r := Apply(st, ops[0]);
      if r.Ok? {
        RunAppends(r.value, ops[1..]);
        if Run(st, ops).Ok? {
          AppendsTrans(st, r.value, Run(st, ops).value);
          RecordConcat(st.usage, st.arch, Defs(st.arch, st.sys, ops[0]), AllDefs(st.arch, st.sys, ops[1..]));
        }
      }
    }
  }

  /** What a session has printed stays a prefix of what it prints later. */
  lemma OutputGrows(st: State, ops: seq<Op>)
    ensures Run(st, ops).Ok? ==> Output(st) <= Output(Run(st, ops).value)
  {
    RunAppends(st, ops);
    if Run(st, ops).Ok? {
      var e := Run(st, ops).value;
      assert e.lines == st.lines + e.lines[|st.lines|..];
      ConcatSplit(st.lines, e.lines[|st.lines|..]);
    }
  }

  /** A session stops at the first call that reads a register the role
      check refuses, with a role error. */
  lemma RunStopsAtRefusedRead(st: State, op: Op, rest: seq<Op>)
    requires !AllAdmitted(st, Reads(st.arch, st.sys, op))
    ensures Run(st, [op] + rest).Err? && RoleError(Run(st, [op] + rest).error)
  {
    ApplyDisciplined(st, op);
    assert ([op] + rest)[0] == op;
  }

  /** Each architecture reads only its own half of a syscall number. */
  lemma SyscallReadsOwnNumber(st: State, nr: Arch.Syscall, v: i64)
    ensures Amd64.Syscall(st, nr) == Amd64.Syscall(st, nr.(arm64 := v))
    ensures Arm64.Syscall(st, nr) == Arm64.Syscall(st, nr.(amd64 := v))
  {
  }
}
