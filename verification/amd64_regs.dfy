/** AMD64 register encodings, their 64-, 32- and 8-bit names, and the
    registers the architecture descriptor lists as safe to clear (amd64.go). */
module Amd64Regs {
  import opened Ints
  import opened Decimal
  import opened Words
  import opened Text

  const RAX: u8 := 0
  const RCX: u8 := 1
  const RDX: u8 := 2
  const RBX: u8 := 3
  const RSP: u8 := 4
  const RBP: u8 := 5
  const RSI: u8 := 6
  const RDI: u8 := 7
  const R8: u8 := 8
  const R9: u8 := 9
  const R10: u8 := 10
  const R11: u8 := 11
  const R12: u8 := 12
  const R13: u8 := 13
  const R14: u8 := 14
  const R15: u8 := 15

  /** `reg` is defined for the sixteen general-purpose registers. */
  predicate Has64(r: u8) {
    r < 16
  }

  /** `reg4` and `reg1` are also undefined for the stack pointer. */
  predicate HasPartial(r: u8) {
    r < 16 && r != RSP
  }

  /** The name `reg` gives: the legacy names, then `r8` ... `r15`. */
  function Name64(r: u8): string
    requires Has64(r)
  {
    if r == RAX then "rax"
    else if r == RCX then "rcx"
    else if r == RDX then "rdx"
    else if r == RBX then "rbx"
    else if r == RSP then "rsp"
    else if r == RBP then "rbp"
    else if r == RSI then "rsi"
    else if r == RDI then "rdi"
    else "r" + Dec(r)
  }

  /** The name `reg4` gives: the legacy `e..` names, then `r8d` ... `r15d`. */
  function Name32(r: u8): string
    requires HasPartial(r)
  {
    if r == RAX then "eax"
    else if r == RCX then "ecx"
    else if r == RDX then "edx"
    else if r == RBX then "ebx"
    else if r == RBP then "ebp"
    else if r == RSI then "esi"
    else if r == RDI then "edi"
    else "r" + Dec(r) + "d"
  }

  /** The name `reg1` gives: the legacy byte names, then `r8db` ... `r15db`. */
  function Name8(r: u8): string
    requires HasPartial(r)
  {
    if r == RAX then "al"
    else if r == RCX then "cl"
    else if r == RDX then "dl"
    else if r == RBX then "bl"
    else if r == RBP then "bpl"
    else if r == RSI then "sil"
    else if r == RDI then "dil"
    else "r" + Dec(r) + "db"
  }

  /** `AMD64.ClearableRegs`: every register except the stack pointer. */
  const ClearableRegs: seq<u8> := [RAX, RCX, RDX, RBX, RBP, RSI, RDI, R8, R9, R10, R11, R12, R13, R14, R15]

  /** The clearable registers are exactly those with a 32-bit name, listed
      once each in encoding order, so the stack pointer is not among them. */
  lemma ClearableRegsSpec()
    ensures forall r: u8 :: r in ClearableRegs <==> HasPartial(r)
    ensures forall i, j :: 0 <= i < j < |ClearableRegs| ==> ClearableRegs[i] < ClearableRegs[j]
    ensures RSP !in ClearableRegs
  {
    forall r: u8 | HasPartial(r) ensures r in ClearableRegs {
      assert ClearableRegs[if r < RSP then r else r - 1] == r;
    }
  }

  /** The text after the leading `r` of a numbered register name starts with a digit. */
  lemma NumberedName(r: u8, suffix: string)
    requires 8 <= r < 16
    ensures var n := "r" + Dec(r) + suffix; |n| >= 2 && n[0] == 'r' && IsDigit(n[1])
  {
  }

  /** Distinct registers have distinct 64-bit names. */
  lemma Name64Injective(a: u8, b: u8)
    requires Has64(a) && Has64(b) && Name64(a) == Name64(b)
    ensures a == b
  {
    if a >= 8 && b >= 8 {
      assert Name64(a)[1..] == Dec(a) && Name64(b)[1..] == Dec(b);
      DecInjective(a, b);
    } else if a >= 8 {
      NumberedName(a, "");
    } else if b >= 8 {
      NumberedName(b, "");
    }
  }

  /** Distinct registers have distinct 32-bit names. */
  lemma Name32Injective(a: u8, b: u8)
    requires HasPartial(a) && HasPartial(b) && Name32(a) == Name32(b)
    ensures a == b
  {
    if a >= 8 && b >= 8 {
      assert Name32(a)[1..|Name32(a)| - 1] == Dec(a);
      assert Name32(b)[1..|Name32(b)| - 1] == Dec(b);
      DecInjective(a, b);
    } else if a >= 8 {
      NumberedName(a, "d");
    } else if b >= 8 {
      NumberedName(b, "d");
    }
  }

  /** Distinct registers have distinct 8-bit names. */
  lemma Name8Injective(a: u8, b: u8)
    requires HasPartial(a) && HasPartial(b) && Name8(a) == Name8(b)
    ensures a == b
  {
    if a >= 8 && b >= 8 {
      assert Name8(a)[1..|Name8(a)| - 2] == Dec(a);
      assert Name8(b)[1..|Name8(b)| - 2] == Dec(b);
      DecInjective(a, b);
    } else if a >= 8 {
      NumberedName(a, "db");
    } else if b >= 8 {
      NumberedName(b, "db");
    }
  }

  /** Every name is a single field. */
  lemma NamesAreWords(r: u8)
    ensures Has64(r) ==> Word(Name64(r))
    ensures HasPartial(r) ==> Word(Name32(r)) && Word(Name8(r))
  {
    if r < 8 {
      LegacyNamesAreWords(r);
    } else if r < 16 {
      ExtendedNamesAreWords(r);
    }
  }

  lemma LegacyNamesAreWords(r: u8)
    requires r < 8
    ensures Word(Name64(r))
    ensures HasPartial(r) ==> Word(Name32(r)) && Word(Name8(r))
  {
  }

  lemma ExtendedNamesAreWords(r: u8)
    requires 8 <= r < 16
    ensures Word(Name64(r)) && Word(Name32(r)) && Word(Name8(r))
  {
    DecWord(r);
    WordConcat("r", Dec(r));
    WordConcat("r" + Dec(r), "d");
    WordConcat("r" + Dec(r), "db");
  }
}
