/** One generation session: the output buffer and the register-role state
    (assembly.go `buffer`), with the failure values that replace Go's panics. */
module Session {
  import opened Ints
  import opened Words
  import opened Text
  import opened Arch
  import opened Abi

  /** Why emission stopped. Go panics with the offending value; here each kind
      of violation is a distinct value that carries it. */
  datatype Error =
    | WrongArch(bound: ArchKind)                               // an architecture-specific helper called on the other architecture
    | BadRegister(arch: ArchKind, enc: u8)                     // no name for this encoding in the needed width
    | RoleMismatch(enc: u8, expected: string, recorded: string) // the register last held another role
    | RoleUnrecorded(enc: u8, expected: string)                // no role recorded, and the session refuses that

  datatype Result<+T> = Ok(value: T) | Err(error: Error) {
    predicate IsFailure() {
      Err?
    }

    function PropagateFailure<U>(): Result<U>
      requires Err?
    {
      Err(error)
    }

    function Extract(): T
      requires Ok?
    {
      value
    }
  }

  /** How the role check treats a register whose role was never recorded. The
      checking routine is not part of this model, so the choice is left to the
      session instead of being invented. */
  datatype UnrecordedRoles = Admit | Refuse

  /** The buffer holds one element per line written: the header lines, then one
      line per formatter call. `usage` maps the bound architecture's register
      encodings to the last role recorded for them. */
  datatype State = State(
    arch: ArchKind,
    sys: System,
    lines: seq<string>,
    usage: map<u8, string>,
    unrecorded: UnrecordedRoles)

  /** The accumulated text (`Assembly.String`). */
  function Output(st: State): string {
    Concat(st.lines)
  }

  function Emit(st: State, line: string): (r: State)
    ensures r.lines == st.lines + [line]
    ensures r.arch == st.arch && r.sys == st.sys && r.usage == st.usage && r.unrecorded == st.unrecorded
  {
    st.(lines := st.lines + [line])
  }

  /** `buffer.insn`. */
  function Insn(st: State, mnemonic: string, operands: seq<string>): State {
    Emit(st, InsnLine(mnemonic, operands))
  }

  /** `buffer.insnf`, given the text `fmt.Sprintf` produced. */
  function Insnf(st: State, formatted: string): State {
    Emit(st, InsnfLine(formatted))
  }

  /** `buffer.printf`, given the text `fmt.Sprintf` produced. */
  function Printf(st: State, formatted: string): State {
    Emit(st, PrintfLine(formatted))
  }

  /** `buffer.label`. */
  function Label(st: State, name: string): State {
    Emit(st, LabelLine(name))
  }

  /** Whether the role check lets a consuming operation read `enc` as `role`. */
  predicate Admits(st: State, enc: u8, role: string) {
    if enc in st.usage then st.usage[enc] == role else st.unrecorded == Admit
  }

  /** The role check (`check`): the register's last recorded role must be the
      one the caller expects. */
  function CheckUsage(st: State, enc: u8, role: string): (r: Result<State>)
    ensures r.Ok? <==> Admits(st, enc, role)
    ensures r.Ok? ==> r.value == st
    ensures enc in st.usage && st.usage[enc] != role ==> r == Err(RoleMismatch(enc, role, st.usage[enc]))
    ensures enc !in st.usage && r.Err? ==> r == Err(RoleUnrecorded(enc, role))
  {
    if enc in st.usage then
      if st.usage[enc] == role then Ok(st) else Err(RoleMismatch(enc, role, st.usage[enc]))
    else if st.unrecorded == Admit then Ok(st)
    else Err(RoleUnrecorded(enc, role))
  }

  /** Records the role a defining operation gave a register (`Set`). */
  function SetUsage(st: State, enc: u8, role: string): (r: State)
    ensures r.usage.Keys == st.usage.Keys + {enc} && r.usage[enc] == role
    ensures forall e :: e in st.usage && e != enc ==> r.usage[e] == st.usage[e]
    ensures r.lines == st.lines && r.arch == st.arch && r.sys == st.sys && r.unrecorded == st.unrecorded
  {
    st.(usage := st.usage[enc := role])
  }

  /** Defining a register and then consuming it in the same role succeeds,
      while consuming it in any other role fails with a mismatch naming both
      roles; the checks of other registers are not affected. */
  lemma DefineThenConsume(st: State, enc: u8, role: string, other: string, e: u8, eRole: string)
    requires other != role && e != enc
    ensures CheckUsage(SetUsage(st, enc, role), enc, role) == Ok(SetUsage(st, enc, role))
    ensures CheckUsage(SetUsage(st, enc, role), enc, other) == Err(RoleMismatch(enc, other, role))
    ensures Admits(SetUsage(st, enc, role), e, eRole) == Admits(st, e, eRole)
  {
  }

  /** `a` extends to `b` by appending lines only, within the same session. */
  predicate Appends(a: State, b: State) {
    && b.arch == a.arch && b.sys == a.sys && b.unrecorded == a.unrecorded
    && |a.lines| <= |b.lines| && b.lines[..|a.lines|] == a.lines
  }

  /** `b` is `a` with exactly `added` appended and `a`'s roles kept. */
  predicate Wrote(a: State, b: State, added: seq<string>) {
    && b.arch == a.arch && b.sys == a.sys && b.unrecorded == a.unrecorded
    && b.lines == a.lines + added && b.usage == a.usage
  }

  /** `b` is `a` with exactly `added` appended and the role `role` recorded
      for encoding `enc`. */
  predicate Defined(a: State, b: State, added: seq<string>, enc: u8, role: string) {
    && b.arch == a.arch && b.sys == a.sys && b.unrecorded == a.unrecorded
    && b.lines == a.lines + added && b.usage == a.usage[enc := role]
  }

  /** `b` is `a` with `n` lines appended and the roles kept. */
  predicate Grew(a: State, b: State, n: nat) {
    && b.arch == a.arch && b.sys == a.sys && b.unrecorded == a.unrecorded
    && |b.lines| == |a.lines| + n && b.lines[..|a.lines|] == a.lines && b.usage == a.usage
  }

  /** Two single-line writes in a row write the two lines in order. */
  lemma EmitTwo(st: State, x: string, y: string)
    ensures var e := Emit(Emit(st, x), y);
      Wrote(st, e, [x, y]) && Grew(st, e, 2)
  {
    var e := Emit(Emit(st, x), y);
    assert e.lines == st.lines + [x, y];
    assert e.lines[..|st.lines|] == st.lines;
  }

  /** Three single-line writes in a row write the three lines in order. */
  lemma EmitThree(st: State, x: string, y: string, z: string)
    ensures var e := Emit(Emit(Emit(st, x), y), z);
      Wrote(st, e, [x, y, z]) && Grew(st, e, 3)
  {
    var e := Emit(Emit(Emit(st, x), y), z);
    assert e.lines == st.lines + [x, y, z];
    assert e.lines[..|st.lines|] == st.lines;
  }

  /** Four single-line writes in a row write the four lines in order. */
  lemma EmitFour(st: State, w: string, x: string, y: string, z: string)
    ensures var e := Emit(Emit(Emit(Emit(st, w), x), y), z);
      Wrote(st, e, [w, x, y, z]) && Grew(st, e, 4)
  {
    var e := Emit(Emit(Emit(Emit(st, w), x), y), z);
    assert e.lines == st.lines + [w, x, y, z];
    assert e.lines[..|st.lines|] == st.lines;
  }

  /** Two appends in a row append their concatenation. */
  lemma AppendTwo(x: seq<string>, a: seq<string>, b: seq<string>)
    ensures x + a + b == x + (a + b)
  {
  }

  /** Three appends in a row append their concatenation. */
  lemma AppendThree(x: seq<string>, a: seq<string>, b: seq<string>, c: seq<string>)
    ensures x + a + b + c == x + (a + b + c)
  {
  }

  /** Growing by `n` lines and then by `m` lines is growing by `n + m`. */
  lemma GrewTrans(a: State, b: State, c: State, n: nat, m: nat)
    requires Grew(a, b, n) && Grew(b, c, m)
    ensures Grew(a, c, n + m)
  {
    assert c.lines[..|a.lines|] == c.lines[..|b.lines|][..|a.lines|];
  }

  // ----- the formatters at the shapes the emitters use ---------------------------

  /** An instruction line: a tab, the mnemonic and, after another tab, the
      operand text. */
  function Line(m: string, ops: string): string {
    "\t" + m + "\t" + ops + "\n"
  }

  /** An instruction line without operands. */
  function Bare(m: string): string {
    "\t" + m + "\n"
  }

  /** `insn` without operands. */
  function Insn0(st: State, m: string): (r: State)
    ensures r == Insn(st, m, []) && r == Emit(st, Bare(m))
  {
    assert OperandList([], 0) == "";
    assert "\t" + m + "" == "\t" + m;
    Insn(st, m, [])
  }

  /** `insn` with one operand. */
  function Insn1(st: State, m: string, a: string): (r: State)
    ensures r == Insn(st, m, [a]) && r == Emit(st, Line(m, a))
  {
    assert [a][1..] == [];
    assert OperandList([a], 0) == "\t" + a;
    assert InsnLine(m, [a]) == "\t" + m + "\t" + a + "\n";
    Insn(st, m, [a])
  }

  /** `insn` with two operands. */
  function Insn2(st: State, m: string, a: string, b: string): (r: State)
    ensures r == Insn(st, m, [a, b]) && r == Emit(st, Line(m, a + ", " + b))
  {
    assert [a, b][1..] == [b] && [b][1..] == [];
    assert OperandList([b], 1) == ", " + b;
    assert OperandList([a, b], 0) == "\t" + a + ", " + b;
    assert InsnLine(m, [a, b]) == "\t" + m + "\t" + (a + ", " + b) + "\n";
    Insn(st, m, [a, b])
  }

  /** `insn` with three operands. */
  function Insn3(st: State, m: string, a: string, b: string, c: string): (r: State)
    ensures r == Insn(st, m, [a, b, c]) && r == Emit(st, Line(m, a + ", " + b + ", " + c))
  {
    assert [a, b, c][1..] == [b, c] && [b, c][1..] == [c] && [c][1..] == [];
    assert OperandList([c], 2) == ", " + c;
    assert OperandList([b, c], 1) == ", " + b + ", " + c;
    assert OperandList([a, b, c], 0) == "\t" + a + ", " + b + ", " + c;
    assert InsnLine(m, [a, b, c]) == "\t" + m + "\t" + (a + ", " + b + ", " + c) + "\n";
    Insn(st, m, [a, b, c])
  }

  /** `insnf` of a mnemonic and its operand text, formatted with one space
      between them: one line appended, nothing else changed. */
  function InsnfSplit(st: State, m: string, rest: string): (r: State)
    ensures Wrote(st, r, [InsnfLine(m + " " + rest)])
  {
    Insnf(st, m + " " + rest)
  }

  /** When the operand text is already single-spaced, that line is a tab, the
      mnemonic, a tab and the text. */
  lemma InsnfSplitLine(m: string, rest: string)
    requires Word(m) && Canonical(rest)
    ensures InsnfLine(m + " " + rest) == Line(m, rest)
  {
    InsnfMnemonicRest(m, rest);
  }

  /** `insnf` of a lone mnemonic-like text. */
  function InsnfAlone(st: State, m: string): (r: State)
    ensures r == Insnf(st, m)
    ensures Word(m) ==> r == Emit(st, Bare(m))
  {
    if Word(m) then
      InsnfWord(m);
      Insnf(st, m)
    else
      Insnf(st, m)
  }

  /** `printf("")`: an empty line. */
  function Blank(st: State): (r: State)
    ensures r == Printf(st, "") && r == Emit(st, "\n")
  {
    PrintfEmpty();
    Printf(st, "")
  }

  /** `printf(".align 16,<fill>")`: 16-byte alignment padded with `fill`. */
  function AlignDirective(st: State, fill: string): (r: State)
    ensures r == Printf(st, ".align 16," + fill)
    ensures Word(fill) ==> r == Emit(st, ".align\t16," + fill + "\n")
    ensures fill == "0x90" ==> r == Emit(st, ".align\t16,0x90\n")
    ensures fill == "0xcc" ==> r == Emit(st, ".align\t16,0xcc\n")
  {
    AlignFills(fill);
    if Word(fill) then
      assert PrintfLine(".align 16," + fill) == ".align\t16," + fill + "\n" by { AlignWord(fill); }
      Printf(st, ".align 16," + fill)
    else
      Printf(st, ".align 16," + fill)
  }

  lemma AlignFills(fill: string)
    ensures fill == "0x90" ==> Word(fill) && ".align\t16," + fill + "\n" == ".align\t16,0x90\n"
    ensures fill == "0xcc" ==> Word(fill) && ".align\t16," + fill + "\n" == ".align\t16,0xcc\n"
  {
  }

  lemma AlignWord(fill: string)
    requires Word(fill)
    ensures PrintfLine(".align 16," + fill) == ".align\t16," + fill + "\n"
  {
    assert Canonical("16," + fill) by {
      WordConcat(fill, "16,");
      CanonicalWord("16," + fill);
    }
    assert Word(".align");
    PrintfFirstRest(".align", "16," + fill);
    AlignText(fill);
  }

  lemma AlignText(fill: string)
    ensures ".align 16," + fill == ".align" + " " + ("16," + fill)
    ensures ".align" + "\t" + ("16," + fill) + "\n" == ".align\t16," + fill + "\n"
  {
  }

  /** `printf(".type  %s,@function", sym)`: the doubled space does not reach
      the output. */
  function TypeDirective(st: State, sym: string): (r: State)
    ensures r == Printf(st, ".type  " + sym + ",@function")
    ensures Word(sym) ==> r == Emit(st, ".type\t" + sym + ",@function\n")
  {
    if Word(sym) then
      assert PrintfLine(".type  " + sym + ",@function") == ".type\t" + sym + ",@function\n" by {
        TypeWord(sym);
      }
      Printf(st, ".type  " + sym + ",@function")
    else
      Printf(st, ".type  " + sym + ",@function")
  }

  lemma TypeWord(sym: string)
    requires Word(sym)
    ensures PrintfLine(".type  " + sym + ",@function") == ".type\t" + sym + ",@function\n"
  {
    var arg := sym + ",@function";
    assert PrintfLine(".type  " + sym + ",@function") == PrintfLine(".type" + " " + arg) by {
      TypeText(sym);
      ExtraSpacingIgnored(".type", 1, arg);
    }
    assert PrintfLine(".type" + " " + arg) == ".type" + "\t" + arg + "\n" by {
      WordConcat(sym, ",@function");
      CanonicalWord(arg);
      assert Word(".type");
      PrintfFirstRest(".type", arg);
    }
    TypeText(sym);
  }

  lemma TypeText(sym: string)
    ensures ".type  " + sym + ",@function" == ".type" + " " + Spaces(1) + (sym + ",@function")
    ensures ".type" + "\t" + (sym + ",@function") + "\n" == ".type\t" + sym + ",@function\n"
  {
    assert Spaces(1) == " ";
  }

  /** `printf(".globl %s", sym)`. */
  function GloblDirective(st: State, sym: string): (r: State)
    ensures r == Printf(st, ".globl " + sym)
    ensures Word(sym) ==> r == Emit(st, ".globl\t" + sym + "\n")
  {
    if Word(sym) then
      assert PrintfLine(".globl " + sym) == ".globl\t" + sym + "\n" by { GloblWord(sym); }
      Printf(st, ".globl " + sym)
    else
      Printf(st, ".globl " + sym)
  }

  lemma GloblWord(sym: string)
    requires Word(sym)
    ensures PrintfLine(".globl " + sym) == ".globl\t" + sym + "\n"
  {
    CanonicalWord(sym);
    assert Word(".globl");
    PrintfFirstRest(".globl", sym);
    assert ".globl" + " " + sym == ".globl " + sym;
    assert ".globl" + "\t" + sym + "\n" == ".globl\t" + sym + "\n";
  }

  /** `label` of a name: for whitespace-free names, the symbol and a colon. */
  function LabelOf(st: State, name: string): (r: State)
    ensures r == Label(st, name)
    ensures Word(name) ==> r == Emit(st, Symbol(name) + ":\n")
  {
    if Word(name) then
      LabelOfWord(name);
      Label(st, name)
    else
      Label(st, name)
  }

  // ----- headings shared by both emitters ---------------------------------------

  /** The `.globl` line and, when asked for, the `.type` line a global name gets. */
  function VisibilityLines(name: string, withType: bool): (ls: seq<string>)
    ensures |ls| == if withType then 2 else 1
  {
    [PrintfLine(".globl " + Symbol(name))]
      + (if withType then [PrintfLine(".type  " + Symbol(name) + ",@function")] else [])
  }

  /** For a whitespace-free name the directives are written tab-separated. */
  lemma VisibilityText(name: string, withType: bool)
    requires Word(name)
    ensures withType ==> (VisibilityLines(name, withType)
      == [".globl\t" + Symbol(name) + "\n", ".type\t" + Symbol(name) + ",@function\n"])
    ensures !withType ==> VisibilityLines(name, withType) == [".globl\t" + Symbol(name) + "\n"]
  {
    SymbolWord(name);
    GloblWord(Symbol(name));
    TypeWord(Symbol(name));
  }

  /** The `.globl` directive and, when asked for, the `.type` directive. */
  function Visibility(st: State, name: string, withType: bool): (r: State)
    ensures Wrote(st, r, VisibilityLines(name, withType))
    ensures Grew(st, r, if withType then 2 else 1)
  {
    var s := GloblDirective(st, Symbol(name));
    if withType then TypeDirective(s, Symbol(name)) else s
  }

  /** An empty line and the label itself, which every label and function ends with. */
  function Heading(st: State, name: string): (r: State)
    ensures Wrote(st, r, ["\n", LabelLine(name)])
    ensures Grew(st, r, 2)
  {
    LabelOf(Blank(st), name)
  }

  /** Every formatter writes exactly one line and leaves everything before it
      in place; the output text grows by that line. */
  lemma PrimitivesAppendOneLine(st: State, mnemonic: string, operands: seq<string>, formatted: string, name: string)
    requires '\n' !in mnemonic && forall k :: 0 <= k < |operands| ==> '\n' !in operands[k]
    ensures IsLine(Insn(st, mnemonic, operands).lines[|st.lines|])
    ensures IsLine(Insnf(st, formatted).lines[|st.lines|])
    ensures IsLine(Printf(st, formatted).lines[|st.lines|])
    ensures IsLine(Label(st, name).lines[|st.lines|])
    ensures Output(Insn(st, mnemonic, operands)) == Output(st) + InsnLine(mnemonic, operands)
  {
    InsnWritesOneLine(mnemonic, operands);
    SplittingFormattersWriteOneLine(formatted);
    SplittingFormattersWriteOneLine(Symbol(name) + ":");
    ConcatAppend(st.lines, InsnLine(mnemonic, operands));
  }

  lemma {:induction false} ConcatAppend(lines: seq<string>, line: string)
    ensures Concat(lines + [line]) == Concat(lines) + line
    decreases |lines|
  {
    if lines == [] {
      assert [] + [line] == [line];
      assert [line][1..] == [];
    } else {
      assert (lines + [line])[1..] == lines[1..] + [line];
      ConcatAppend(lines[1..], line);
    }
  }
}
