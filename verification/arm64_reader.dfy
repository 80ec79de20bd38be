/** Reading the text of an ARM64 materialisation back. `MoveImm64` writes one
    `mov`, or between one and four `movz`/`movn`/`movk` lines; this module
    reads such lines back into instructions and runs them, so that the
    emitted TEXT, not just the planned instruction list, is shown to leave
    the requested value in the register. */
module Arm64Reader {
  import opened Ints
  import opened Decimal
  import opened Words
  import opened Arch
  import opened Session
  import opened Operands
  import opened Lanes
  import Arm64
  import R = Arm64Regs

  // ----- the fields of an instruction line --------------------------------------------

  lemma WordEndBeforeSpace(a: string, c: char, i: nat)
    requires IsSpace(c) && i <= |a|
    ensures WordEnd(a + [c], i) == WordEnd(a, i)
    decreases |a| - i
  {
    if i < |a| {
      assert (a + [c])[i] == a[i];
      if !IsSpace(a[i]) {
        WordEndBeforeSpace(a, c, i + 1);
      }
    } else {
      assert (a + [c])[i] == c;
    }
  }

  /** A trailing white-space character adds no field. */
  lemma {:induction false} FieldsDropTrailingSpace(a: string, c: char)
    requires IsSpace(c)
    ensures Fields(a + [c]) == Fields(a)
    decreases |a|
  {
    var s := a + [c];
    if |a| == 0 {
      assert s[1..] == [];
    } else if IsSpace(a[0]) {
      assert s[1..] == a[1..] + [c];
      FieldsDropTrailingSpace(a[1..], c);
    } else {
      var n := WordEnd(a, 1);
      WordEndBeforeSpace(a, c, 1);
      assert s[..n] == a[..n];
      assert s[n..] == a[n..] + [c];
      FieldsDropTrailingSpace(a[n..], c);
    }
  }

  /** A word followed by any white-space character is the first field. */
  lemma FieldsAfterWord(w: string, c: char, rest: string)
    requires Word(w) && IsSpace(c)
    ensures Fields(w + [c] + rest) == [w] + Fields(rest)
  {
    var s := w + [c] + rest;
    WordEndSkipsWord(w, [c] + rest, 1);
    assert s == w + ([c] + rest);
    assert s[..|w|] == w;
    assert s[|w|..] == [c] + rest;
    assert s[|w|..][1..] == rest;
  }

  /** The fields of an instruction line are its mnemonic and the fields of its operands. */
  lemma FieldsOfLine(m: string, ops: string)
    requires Word(m)
    ensures Fields(Line(m, ops)) == [m] + Fields(ops)
  {
    var l := Line(m, ops);
    assert l[1..] == m + ['\t'] + (ops + ['\n']);
    FieldsAfterWord(m, '\t', ops + ['\n']);
    FieldsDropTrailingSpace(ops, '\n');
  }

  // ----- the reader -----------------------------------------------------------------------------

  /** The text before a trailing comma. */
  function BeforeComma(f: string): Option<string> {
    if |f| > 0 && f[|f| - 1] == ',' then Some(f[..|f| - 1]) else None
  }

  function WideOpOf(m: string): Option<WideOp> {
    if m == "movz" then Some(Movz)
    else if m == "movn" then Some(Movn)
    else if m == "movk" then Some(Movk)
    else None
  }

  /** One move into the register named `d`: `mov d, x` with a 64-bit signed
      `x`, or a move-wide of a 16-bit immediate shifted left by a multiple
      of 16 below 64. Anything else, including a move into another
      register, does not read. */
  function ReadMov(d: string, line: string): Option<Mov> {
    ReadFields(d, Fields(line))
  }

  function ReadFields(d: string, fs: seq<string>): Option<Mov> {
    if |fs| == 3 && fs[0] == "mov" && fs[1] == d + "," then ReadPlain(fs[2])
    else if |fs| == 5 && fs[1] == d + "," && fs[3] == "lsl" then ReadWide(fs[0], fs[2], fs[4])
    else None
  }

  /** The immediate of a plain `mov`. */
  function ReadPlain(f: string): Option<Mov> {
    match ParseDec(f)
    case Some(x) => if -TWO_TO_THE_63 <= x < TWO_TO_THE_63 then Some(Plain(x)) else None
    case None => None
  }

  /** A move-wide from its mnemonic, its immediate field (with the comma) and
      its shift field (with the `#`). */
  function ReadWide(m: string, i: string, s: string): Option<Mov> {
    match (WideOpOf(m), BeforeComma(i), ParseDec(if |s| > 0 && s[0] == '#' then s[1..] else ""))
    case (Some(op), Some(t), Some(shift)) =>
      (match ParseDec(t)
       case Some(imm) =>
         if 0 <= imm < LANE_SIZE && 0 <= shift < 64 && shift % 16 == 0 then Some(Wide(op, imm, shift / 16))
         else None
       case None => None)
    case _ => None
  }

  /** Every line, read in order; `None` as soon as one does not read. */
  function ReadMovs(d: string, lines: seq<string>): (r: Option<seq<Mov>>)
    ensures r.Some? ==> |r.value| == |lines|
    decreases |lines|
  {
    if lines == [] then Some([])
    else
      match (ReadMov(d, lines[0]), ReadMovs(d, lines[1..]))
      case (Some(m), Some(ms)) => Some([m] + ms)
      case _ => None
  }

  /** What the register holds after running the lines, given what it held before. */
  function Run(d: string, lines: seq<string>, reg: u64): Option<u64> {
    match ReadMovs(d, lines)
    case Some(ms) => Some(Replay(reg, ms))
    case None => None
  }

  // ----- writing then reading -----------------------------------------------------------------

  lemma OperandFields2(d: string, x: string)
    requires Word(d) && Word(x)
    ensures Fields(d + ", " + x) == [d + ",", x]
  {
    WordComma(d);
    assert d + ", " + x == (d + ",") + [' '] + x;
    FieldsAfterWord(d + ",", ' ', x);
    FieldsOfWord(x);
  }

  /** The operands of a move-wide, regrouped around single spaces. */
  lemma WideOperandText(d: string, imm: string, shift: string)
    ensures d + ", " + imm + ", " + ("lsl #" + shift)
      == (d + ",") + [' '] + ((imm + ",") + [' '] + ("lsl" + [' '] + ("#" + shift)))
  {
    assert ", " == [','] + [' '];
    assert "lsl #" == "lsl" + [' '] + ['#'];
  }

  lemma ShiftFields(shift: string)
    requires Word(shift)
    ensures Fields("lsl" + [' '] + ("#" + shift)) == ["lsl", "#" + shift]
  {
    var hs := "#" + shift;
    assert Word(hs) by { Glue("#", shift, ""); assert "#" + shift + "" == hs; }
    assert Word("lsl");
    FieldsAfterWord("lsl", ' ', hs);
    FieldsOfWord(hs);
  }

  lemma OperandFields4(d: string, imm: string, shift: string)
    requires Word(d) && Word(imm) && Word(shift)
    ensures Fields(d + ", " + imm + ", " + ("lsl #" + shift)) == [d + ",", imm + ",", "lsl", "#" + shift]
  {
    var tail := "lsl" + [' '] + ("#" + shift);
    var mid := (imm + ",") + [' '] + tail;
    assert Fields(mid) == [imm + ",", "lsl", "#" + shift] by {
      WordComma(imm);
      ShiftFields(shift);
      FieldsAfterWord(imm + ",", ' ', tail);
    }
    assert Fields((d + ",") + [' '] + mid) == [d + ","] + Fields(mid) by {
      WordComma(d);
      FieldsAfterWord(d + ",", ' ', mid);
    }
    WideOperandText(d, imm, shift);
  }

  lemma ReadPlainLine(d: string, x: i64)
    requires Word(d)
    ensures ReadMov(d, Arm64.MovLine(d, Plain(x))) == Some(Plain(x))
  {
    DecNoSpace(x);
    FieldsOfLine("mov", d + ", " + Dec(x));
    OperandFields2(d, Dec(x));
    DecRoundTrip(x);
  }

  lemma ReadWideFields(op: WideOp, imm: Lane, k: LaneIndex)
    ensures ReadWide(Arm64.WideMnemonic(op), Dec(imm) + ",", "#" + Dec(16 * k)) == Some(Wide(op, imm, k))
  {
    assert WideOpOf(Arm64.WideMnemonic(op)) == Some(op);
    assert BeforeComma(Dec(imm) + ",") == Some(Dec(imm)) by {
      assert (Dec(imm) + ",")[..|Dec(imm) + ","| - 1] == Dec(imm);
    }
    assert ("#" + Dec(16 * k))[1..] == Dec(16 * k);
    DecRoundTrip(imm);
    DecRoundTrip(16 * k);
  }

  lemma ReadWideLine(d: string, op: WideOp, imm: Lane, k: LaneIndex)
    requires Word(d)
    ensures ReadMov(d, Arm64.MovLine(d, Wide(op, imm, k))) == Some(Wide(op, imm, k))
  {
    var mn := Arm64.WideMnemonic(op);
    assert Word(mn);
    DecNoSpace(imm);
    DecNoSpace(16 * k);
    var ops := d + ", " + Dec(imm) + ", " + Arm64.LaneShift(k);
    assert Fields(Arm64.MovLine(d, Wide(op, imm, k))) == [mn, d + ",", Dec(imm) + ",", "lsl", "#" + Dec(16 * k)] by {
      FieldsOfLine(mn, ops);
      OperandFields4(d, Dec(imm), Dec(16 * k));
    }
    ReadWideFields(op, imm, k);
  }

  /** A written line reads back as the instruction it was written for. */
  lemma ReadMovLine(d: string, m: Mov)
    requires Word(d)
    ensures ReadMov(d, Arm64.MovLine(d, m)) == Some(m)
  {
    match m
    case Plain(x) => ReadPlainLine(d, x);
    case Wide(op, imm, k) => ReadWideLine(d, op, imm, k);
  }

  /** Written lines read back as the planned instructions, in order. */
  lemma {:induction false} ReadMovLines(d: string, ms: seq<Mov>)
    requires Word(d)
    ensures ReadMovs(d, Arm64.MovLines(d, ms)) == Some(ms)
    decreases |ms|
  {
    if ms != [] {
      var ls := Arm64.MovLines(d, ms);
      assert ls[1..] == Arm64.MovLines(d, ms[1..]);
      ReadMovLine(d, ms[0]);
      ReadMovLines(d, ms[1..]);
      assert [ms[0]] + ms[1..] == ms;
    }
  }

  // ----- the materialisation loads its value ----------------------------------------------

  /** Whatever the register held, running the lines `MoveImm64` writes
      leaves exactly `value` in it; there are between one and four of them. */
  lemma MoveImm64Loads(st: State, dest: Reg, value: u64, reg: u64)
    requires Arm64.Has(dest)
    ensures var r := Arm64.MoveImm64(st, dest, value);
      && r.Ok?
      && |st.lines| + 1 <= |r.value.lines| <= |st.lines| + 4
      && Run(Arm64.Q(dest), r.value.lines[|st.lines|..], reg) == Some(value)
  {
    var r := Arm64.MoveImm64(st, dest, value);
    var d := Arm64.Q(dest);
    R.NamesAreWords(dest.arm64);
    assert r.value.lines[|st.lines|..] == Arm64.MovLines(d, Plan(value));
    ReadMovLines(d, Plan(value));
    PlanReplays(value, reg);
    PlanShape(value);
  }

  /** The signed form loads the same 64 bits. */
  lemma MoveImmLoads(st: State, dest: Reg, value: i64, reg: u64)
    requires Arm64.Has(dest)
    ensures var r := Arm64.MoveImm(st, dest, value);
      && r.Ok?
      && Run(Arm64.Q(dest), r.value.lines[|st.lines|..], reg) == Some(ToUint64(value))
  {
    MoveImm64Loads(st, dest, ToUint64(value), reg);
  }

  /** A move written for one register does not read as a move into another. */
  lemma OtherRegisterDoesNotRead(d: string, e: string, m: Mov)
    requires Word(d) && Word(e) && d != e
    ensures ReadMov(e, Arm64.MovLine(d, m)) == None
  {
    ReadMovLine(d, m);
    assert Fields(Arm64.MovLine(d, m))[1] == d + "," by {
      match m
      case Plain(x) =>
        DecNoSpace(x);
        FieldsOfLine("mov", d + ", " + Dec(x));
        OperandFields2(d, Dec(x));
      case Wide(op, imm, k) =>
        assert Word(Arm64.WideMnemonic(op));
        DecNoSpace(imm);
        DecNoSpace(16 * k);
        FieldsOfLine(Arm64.WideMnemonic(op), d + ", " + Dec(imm) + ", " + Arm64.LaneShift(k));
        OperandFields4(d, Dec(imm), Dec(16 * k));
    }
    assert (d + ",")[..|d|] == d && (e + ",")[..|e|] == e;
  }
}
