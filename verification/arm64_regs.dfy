/** ARM64 register encodings, their names, and the registers the architecture
    descriptor lists as safe to clear (arm64.go). */
module Arm64Regs {
  import opened Ints
  import opened Decimal
  import opened Words
  import opened Text

  const X0: u8 := 0
  const X1: u8 := 1
  const X2: u8 := 2
  const X3: u8 := 3
  const X4: u8 := 4
  const X5: u8 := 5
  const X6: u8 := 6
  const X7: u8 := 7
  const X8: u8 := 8
  const X9: u8 := 9
  const X10: u8 := 10
  const X11: u8 := 11
  const X12: u8 := 12
  const X13: u8 := 13
  const X14: u8 := 14
  const X15: u8 := 15
  const X16: u8 := 16
  const X17: u8 := 17
  const X18: u8 := 18
  const X19: u8 := 19
  const X20: u8 := 20
  const X21: u8 := 21
  const X22: u8 := 22
  const X23: u8 := 23
  const X24: u8 := 24
  const X25: u8 := 25
  const X26: u8 := 26
  const X27: u8 := 27
  const X28: u8 := 28
  const X29: u8 := 29
  const X30: u8 := 30
  const X31: u8 := 31

  /** The link register. */
  const XLR: u8 := X30
  /** The stack pointer, which shares its encoding with the zero register. */
  const XSP: u8 := X31
  const XZR: u8 := X31

  /** `reg` and `reg4` are defined below 32. */
  predicate HasName(r: u8) {
    r < 32
  }

  /** The name `reg` gives: `x` and the encoding. */
  function Name64(r: u8): string
    requires HasName(r)
  {
    "x" + Dec(r)
  }

  /** The name `reg4` gives: `w` and the encoding. */
  function Name32(r: u8): string
    requires HasName(r)
  {
    "w" + Dec(r)
  }

  /** `ARM64.ClearableRegs`: X0 to X29, leaving out the link register and the
      stack pointer. */
  const ClearableRegs: seq<u8> := [
    X0, X1, X2, X3, X4, X5, X6, X7, X8, X9, X10, X11, X12, X13, X14, X15,
    X16, X17, X18, X19, X20, X21, X22, X23, X24, X25, X26, X27, X28, X29]

  /** The clearable registers are X0 to X29 in order; neither the link
      register nor the stack pointer is among them. */
  lemma ClearableRegsSpec()
    ensures |ClearableRegs| == 30
    ensures forall i :: 0 <= i < |ClearableRegs| ==> ClearableRegs[i] == i
    ensures forall r: u8 :: r in ClearableRegs <==> r < 30
    ensures XLR !in ClearableRegs && XSP !in ClearableRegs
  {
    forall r: u8 | r < 30 ensures r in ClearableRegs {
      assert ClearableRegs[r] == r;
    }
  }

  /** Distinct registers have distinct names, and 64-bit and 32-bit names never coincide. */
  lemma NamesInjective(a: u8, b: u8)
    requires HasName(a) && HasName(b)
    ensures Name64(a) == Name64(b) ==> a == b
    ensures Name32(a) == Name32(b) ==> a == b
    ensures Name64(a) != Name32(b)
  {
    if Name64(a) == Name64(b) {
      assert Name64(a)[1..] == Dec(a) && Name64(b)[1..] == Dec(b);
      DecInjective(a, b);
    }
    if Name32(a) == Name32(b) {
      assert Name32(a)[1..] == Dec(a) && Name32(b)[1..] == Dec(b);
      DecInjective(a, b);
    }
    assert Name64(a)[0] != Name32(b)[0];
  }

  /** Every name is a single field. */
  lemma NamesAreWords(r: u8)
    requires HasName(r)
    ensures Word(Name64(r)) && Word(Name32(r))
  {
    DecWord(r);
    WordConcat("x", Dec(r));
    WordConcat("w", Dec(r));
  }
}
