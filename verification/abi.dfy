/** The system ABI descriptor (system.go): which register holds what across
    system calls and library calls, on both architectures at once. */
module Abi {
  import opened Ints
  import opened Decimal
  import opened Arch
  import A = Amd64Regs
  import R = Arm64Regs

  datatype System = System(
    stackPtr: Reg,
    syscallNr: Reg,
    sysParams: seq<Reg>,
    sysResult: Reg,
    libParams: seq<Reg>,
    libResult: Reg)

  /** The Linux calling conventions. */
  function Linux(): System {
    System(
      Reg(A.RSP, R.XSP, "stack"),
      Reg(A.RAX, R.X8, "syscall"),
      [ Reg(A.RDI, R.X0, "sysparam0"),
        Reg(A.RSI, R.X1, "sysparam1"),
        Reg(A.RDX, R.X2, "sysparam2"),
        Reg(A.R10, R.X3, "sysparam3"),
        Reg(A.R8, R.X4, "sysparam4"),
        Reg(A.R9, R.X5, "sysparam5")],
      Reg(A.RAX, R.X0, "sysresult"),
      [ Reg(A.RDI, R.X0, "libparam0"),
        Reg(A.RSI, R.X1, "libparam1"),
        Reg(A.RDX, R.X2, "libparam2"),
        Reg(A.RCX, R.X3, "libparam3"),
        Reg(A.R8, R.X4, "libparam4"),
        Reg(A.R9, R.X5, "libparam5")],
      Reg(A.RAX, R.X0, "libresult"))
  }

  /** All encodings of one architecture in a parameter list are different. */
  predicate Distinct(a: ArchKind, regs: seq<Reg>) {
    forall i, j :: 0 <= i < j < |regs| ==> Encoding(a, regs[i]) != Encoding(a, regs[j])
  }

  /** No parameter register is the stack pointer. */
  predicate AvoidsStack(sys: System, regs: seq<Reg>) {
    forall i :: 0 <= i < |regs| ==>
      regs[i].amd64 != sys.stackPtr.amd64 && regs[i].arm64 != sys.stackPtr.arm64
  }

  /** Six parameters of each kind; the syscall and call lists differ only in
      the fourth AMD64 register (R10 for system calls, RCX for calls), while
      ARM64 passes both kinds in X0 to X5. */
  lemma LinuxParameterLists()
    ensures var s := Linux();
      && |s.sysParams| == 6 && |s.libParams| == 6
      && (forall i :: 0 <= i < 6 && i != 3 ==> s.sysParams[i].amd64 == s.libParams[i].amd64)
      && s.sysParams[3].amd64 == A.R10 && s.libParams[3].amd64 == A.RCX
      && (forall i :: 0 <= i < 6 ==> s.sysParams[i].arm64 == s.libParams[i].arm64 == i)
  {
  }

  /** Within each list the encodings are pairwise distinct on both
      architectures, and the stack pointer is never a parameter. */
  lemma LinuxParametersDistinct()
    ensures var s := Linux();
      && Distinct(AMD64, s.sysParams) && Distinct(ARM64, s.sysParams)
      && Distinct(AMD64, s.libParams) && Distinct(ARM64, s.libParams)
      && AvoidsStack(s, s.sysParams) && AvoidsStack(s, s.libParams)
  {
    SysParamsDistinct();
    LibParamsDistinct();
  }

  lemma SysParamsDistinct()
    ensures Distinct(AMD64, Linux().sysParams) && Distinct(ARM64, Linux().sysParams)
  {
  }

  lemma LibParamsDistinct()
    ensures Distinct(AMD64, Linux().libParams) && Distinct(ARM64, Linux().libParams)
  {
  }

  /** The syscall number and result share RAX on AMD64 but not a register on ARM64. */
  lemma LinuxSyscallRegisters()
    ensures var s := Linux();
      && s.syscallNr.amd64 == s.sysResult.amd64 == A.RAX
      && s.syscallNr.arm64 == R.X8 && s.sysResult.arm64 == R.X0
      && s.syscallNr.arm64 != s.sysResult.arm64
  {
  }

  /** The stack pointer is in neither architecture's list of clearable registers. */
  lemma StackNotClearable()
    ensures Linux().stackPtr.amd64 !in A.ClearableRegs
    ensures Linux().stackPtr.arm64 !in R.ClearableRegs
  {
    A.ClearableRegsSpec();
    R.ClearableRegsSpec();
  }

  /** Parameter `i` is labelled with its decimal index. */
  lemma LinuxParameterLabels()
    ensures var s := Linux();
      && (forall i :: 0 <= i < 6 ==> s.sysParams[i].use == "sysparam" + Dec(i))
      && (forall i :: 0 <= i < 6 ==> s.libParams[i].use == "libparam" + Dec(i))
  {
    var s := Linux();
    forall i | 0 <= i < 6
      ensures s.sysParams[i].use == "sysparam" + Dec(i)
      ensures s.libParams[i].use == "libparam" + Dec(i)
    {
      assert Dec(i) == [DigitChar(i)];
    }
  }

  /** The role labels, in declaration order, are exactly those of system.go. */
  lemma LinuxRoleLabels()
    ensures Roles(Linux()) == ["stack", "syscall",
        "sysparam0", "sysparam1", "sysparam2", "sysparam3", "sysparam4", "sysparam5",
        "sysresult",
        "libparam0", "libparam1", "libparam2", "libparam3", "libparam4", "libparam5",
        "libresult"]
  {
  }

  function Uses(regs: seq<Reg>): (u: seq<string>)
    ensures |u| == |regs| && forall i :: 0 <= i < |regs| ==> u[i] == regs[i].use
  {
    seq(|regs|, i requires 0 <= i < |regs| => regs[i].use)
  }

  /** Every role label the descriptor assigns, in declaration order. */
  function Roles(s: System): seq<string> {
    [s.stackPtr.use, s.syscallNr.use] + Uses(s.sysParams) + [s.sysResult.use]
      + Uses(s.libParams) + [s.libResult.use]
  }
}
