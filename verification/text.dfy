/** The shared text layer of the emitter (assembly.go): symbol visibility, the
    three line formatters, label lines, the file header, and the
    architecture-independent condition and shift enumerations. */
module Text {
  import opened Words
  import opened Decimal

  /** Branch conditions (assembly.go, `Cond`). */
  datatype Cond = EQ | NE | LT | LE | GT | GE

  /** Shift kinds (assembly.go, `Shift`). */
  datatype Shift = Left | RightLogical | RightArithmetic

  predicate HasPrefix(s: string, prefix: string) {
    |prefix| <= |s| && s[..|prefix|] == prefix
  }

  /** A name is global unless it starts with a dot. */
  predicate Global(name: string) {
    !HasPrefix(name, ".")
  }

  /** Go's `strings.Replace(s, target, replacement, 1)` for a one-character target. */
  function ReplaceFirst(s: string, target: char, replacement: string): (r: string)
    ensures target !in s ==> r == s
    ensures |s| > 0 && s[0] == target ==> r == replacement + s[1..]
    decreases |s|
  {
    if s == [] then []
    else if s[0] == target then replacement + s[1..]
    else [s[0]] + ReplaceFirst(s[1..], target, replacement)
  }

  /** The first occurrence of the target, wherever it is, and only it becomes
      the replacement. */
  lemma {:induction false} ReplaceFirstAt(s: string, target: char, replacement: string, i: nat)
    requires i < |s| && s[i] == target && target !in s[..i]
    ensures ReplaceFirst(s, target, replacement) == s[..i] + replacement + s[i + 1..]
  {
    if i > 0 {
      assert s[0] in s[..i];
      assert s[1..][i - 1] == s[i];
      assert s[1..][..i - 1] == s[1..i];
      assert target !in s[1..][..i - 1];
      ReplaceFirstAt(s[1..], target, replacement, i - 1);
      assert s[..i] == [s[0]] + s[1..i];
      assert s[1..][i..] == s[i + 1..];
    }
  }

  /** How a name is referenced: global names as they are, local names with the
      leading dot rewritten to the assembler's local-label prefix `.L`. */
  function Symbol(name: string): (r: string)
    ensures Global(name) ==> r == name
    ensures !Global(name) ==> r == ".L" + name[1..] && !Global(r)
  {
    if Global(name) then name else ReplaceFirst(name, '.', ".L")
  }

  /** Different names are never referenced by the same symbol. */
  lemma SymbolInjective(a: string, b: string)
    requires Symbol(a) == Symbol(b)
    ensures a == b
  {
    if !Global(a) && !Global(b) {
      assert a == "." + a[1..];
      assert b == "." + b[1..];
      assert a[1..] == Symbol(a)[2..];
    }
  }

  /** Symbols of whitespace-free names are whitespace-free. */
  lemma SymbolWord(name: string)
    requires Word(name)
    ensures Word(Symbol(name))
  {
    if !Global(name) {
      assert Symbol(name) == ".L" + name[1..];
      assert forall i :: 2 <= i < |Symbol(name)| ==> Symbol(name)[i] == name[i - 1];
    }
  }

  // ----- line formatters -----------------------------------------------------

  datatype Style = InsnStyle | PrintStyle

  /** What the formatters write before field `i`: `insnf` a tab before the first
      two fields and a space before the rest; `printf` nothing before the first,
      a tab before the second and a space before the rest. */
  function Separator(style: Style, i: nat): string {
    match style
    case InsnStyle => if i < 2 then "\t" else " "
    case PrintStyle => if i == 0 then "" else if i == 1 then "\t" else " "
  }

  /** The fields laid out with the separators of `style`, counting from index `i`. */
  function Rejoin(fs: seq<string>, style: Style, i: nat): string
    decreases |fs|
  {
    if fs == [] then "" else Separator(style, i) + fs[0] + Rejoin(fs[1..], style, i + 1)
  }

  /** The separators `insn` writes before operand `i`: a tab, then `", "`. */
  function OperandList(ops: seq<string>, i: nat): string
    decreases |ops|
  {
    if ops == [] then "" else (if i == 0 then "\t" else ", ") + ops[0] + OperandList(ops[1..], i + 1)
  }

  /** The line `insn(mnemonic, operands...)` writes. */
  function InsnLine(mnemonic: string, operands: seq<string>): string {
    "\t" + mnemonic + OperandList(operands, 0) + "\n"
  }

  /** The line `insnf` writes for an already formatted text. */
  function InsnfLine(formatted: string): string {
    Rejoin(Fields(formatted), InsnStyle, 0) + "\n"
  }

  /** The line `printf` writes for an already formatted text. */
  function PrintfLine(formatted: string): string {
    Rejoin(Fields(formatted), PrintStyle, 0) + "\n"
  }

  /** The line `label(name)` writes: `printf("%s:", symbol(name))`. */
  function LabelLine(name: string): string {
    PrintfLine(Symbol(name) + ":")
  }

  /** A single output line: newline-terminated with no other newline. */
  predicate IsLine(l: string) {
    |l| > 0 && l[|l| - 1] == '\n' && '\n' !in l[..|l| - 1]
  }

  function Concat(lines: seq<string>): string
    decreases |lines|
  {
    if lines == [] then "" else lines[0] + Concat(lines[1..])
  }

  // ----- file header -----------------------------------------------------------

  /** `header1`, line by line. */
  const Header1: seq<string> := ["// Generated by gate.computer/ga, DO NOT EDIT!\n"]

  /** The syntax-mode lines that only the AMD64 header carries between the two parts. */
  const IntelSyntax: seq<string> := ["\n", ".intel_syntax noprefix\n"]

  /** `header2`, line by line. */
  const Header2: seq<string> := ["\n", ".section .note.GNU-stack,\"\",%progbits\n", ".section .text\n"]

  // ----- properties of the formatters --------------------------------------------

  lemma {:induction false} RejoinFromTwo(fs: seq<string>, style: Style, i: nat)
    requires i >= 2
    ensures Rejoin(fs, style, i) == Tail(fs)
    decreases |fs|
  {
    if fs != [] {
      RejoinFromTwo(fs[1..], style, i + 1);
    }
  }

  /** Laying out two or more fields: the first two separators, then single spaces. */
  lemma RejoinTwoOrMore(fs: seq<string>, style: Style)
    requires |fs| >= 2
    ensures Rejoin(fs, style, 0) == Separator(style, 0) + fs[0] + Separator(style, 1) + fs[1] + Tail(fs[2..])
  {
    RejoinFromTwo(fs[2..], style, 2);
    assert fs[1..][1..] == fs[2..];
  }

  lemma RejoinOne(w: string, style: Style)
    ensures Rejoin([w], style, 0) == Separator(style, 0) + w
  {
    assert [w][1..] == [];
  }

  /** The fields of "first rest", for a word and a canonical rest. */
  lemma FieldsFirstRest(first: string, rest: string)
    requires Word(first) && Canonical(rest)
    ensures var fs := Fields(first + " " + rest);
      |fs| >= 2 && fs[0] == first && fs[1] + Tail(fs[2..]) == rest
  {
    var fr := Fields(rest);
    FieldsOfWord(first);
    FieldsSplitAtSpace(first, rest);
    var fs := [first] + fr;
    assert fs[1..] == fr;
    assert fr[1..] == fs[2..];
  }

  /** `insnf` of "mnemonic rest": a tab, the mnemonic, a tab, and the rest with
      single spaces; the first space becomes the tab. */
  lemma InsnfMnemonicRest(mnemonic: string, rest: string)
    requires Word(mnemonic) && Canonical(rest)
    ensures InsnfLine(mnemonic + " " + rest) == "\t" + mnemonic + "\t" + rest + "\n"
  {
    FieldsFirstRest(mnemonic, rest);
    RejoinTwoOrMore(Fields(mnemonic + " " + rest), InsnStyle);
  }

  /** `insnf` of a lone word: a tab, the word, nothing more. */
  lemma InsnfWord(mnemonic: string)
    requires Word(mnemonic)
    ensures InsnfLine(mnemonic) == "\t" + mnemonic + "\n"
  {
    FieldsOfWord(mnemonic);
    RejoinOne(mnemonic, InsnStyle);
  }

  /** `printf` of "first rest": the first field, a tab, the rest single-spaced. */
  lemma PrintfFirstRest(first: string, rest: string)
    requires Word(first) && Canonical(rest)
    ensures PrintfLine(first + " " + rest) == first + "\t" + rest + "\n"
  {
    FieldsFirstRest(first, rest);
    RejoinTwoOrMore(Fields(first + " " + rest), PrintStyle);
  }

  /** `printf` of a lone word writes the word and a newline. */
  lemma PrintfWord(w: string)
    requires Word(w)
    ensures PrintfLine(w) == w + "\n"
  {
    FieldsOfWord(w);
    RejoinOne(w, PrintStyle);
  }

  /** `printf("")` writes exactly one newline, an empty line. */
  lemma PrintfEmpty()
    ensures PrintfLine("") == "\n"
  {
  }

  /** A run of extra spaces between two parts of a formatted text never
      reaches the output of either splitting formatter. */
  lemma {:induction false} ExtraSpacingIgnored(a: string, pad: nat, b: string)
    ensures InsnfLine(a + " " + Spaces(pad) + b) == InsnfLine(a + " " + b)
    ensures PrintfLine(a + " " + Spaces(pad) + b) == PrintfLine(a + " " + b)
  {
    FieldsSplitAtSpace(a, Spaces(pad) + b);
    FieldsSplitAtSpace(a, b);
    FieldsAfterSpaces(pad, b);
    assert a + " " + Spaces(pad) + b == a + " " + (Spaces(pad) + b);
  }

  function Spaces(n: nat): string
    decreases n
  {
    if n == 0 then "" else " " + Spaces(n - 1)
  }

  lemma {:induction false} FieldsAfterSpaces(n: nat, b: string)
    ensures Fields(Spaces(n) + b) == Fields(b)
    decreases n
  {
    if n > 0 {
      FieldsAfterSpaces(n - 1, b);
      var x := Spaces(n - 1) + b;
      assert Spaces(n) + b == " " + x;
      assert (" " + x)[0] == ' ' && (" " + x)[1..] == x;
    } else {
      assert Spaces(n) + b == b;
    }
  }

  /** For whitespace-free names, a label line is the symbol, a colon and a newline. */
  lemma LabelOfWord(name: string)
    requires Word(name)
    ensures LabelLine(name) == Symbol(name) + ":\n"
  {
    SymbolWord(name);
    WordConcat(Symbol(name), ":");
    PrintfWord(Symbol(name) + ":");
  }

  /** The operands joined with commas, as the `insn` formatter separates them. */
  function CommaJoined(ops: seq<string>): string
    requires |ops| > 0
    decreases |ops|
  {
    if |ops| == 1 then ops[0] else ops[0] + ", " + CommaJoined(ops[1..])
  }

  lemma {:induction false} OperandListTail(ops: seq<string>, i: nat)
    requires |ops| > 0 && i > 0
    ensures OperandList(ops, i) == ", " + CommaJoined(ops)
    decreases |ops|
  {
    if |ops| > 1 {
      OperandListTail(ops[1..], i + 1);
    }
  }

  lemma {:induction false} CommaJoinedCanonical(ops: seq<string>)
    requires |ops| > 0 && forall k :: 0 <= k < |ops| ==> Word(ops[k])
    ensures Canonical(CommaJoined(ops))
    decreases |ops|
  {
    if |ops| == 1 {
      CanonicalWord(ops[0]);
    } else {
      CommaJoinedCanonical(ops[1..]);
      WordConcat(ops[0], ",");
      CanonicalWord(ops[0] + ",");
      CanonicalJoin(ops[0] + ",", CommaJoined(ops[1..]));
      assert ops[0] + ", " + CommaJoined(ops[1..]) == (ops[0] + ",") + " " + CommaJoined(ops[1..]);
    }
  }

  /** The two instruction formatters agree: formatting "mnemonic a, b, ..." with
      `insnf` writes the same line as `insn(mnemonic, a, b, ...)`, for
      whitespace-free mnemonic and operands. */
  lemma InsnfAgreesWithInsn(mnemonic: string, ops: seq<string>)
    requires Word(mnemonic) && |ops| > 0 && forall k :: 0 <= k < |ops| ==> Word(ops[k])
    ensures InsnfLine(mnemonic + " " + CommaJoined(ops)) == InsnLine(mnemonic, ops)
  {
    CommaJoinedCanonical(ops);
    InsnfMnemonicRest(mnemonic, CommaJoined(ops));
    InsnLineShape(mnemonic, ops);
  }

  lemma InsnLineShape(mnemonic: string, ops: seq<string>)
    requires |ops| > 0
    ensures InsnLine(mnemonic, ops) == "\t" + mnemonic + "\t" + CommaJoined(ops) + "\n"
  {
    OperandListHead(ops);
  }

  lemma OperandListHead(ops: seq<string>)
    requires |ops| > 0
    ensures OperandList(ops, 0) == "\t" + CommaJoined(ops)
  {
    if |ops| > 1 {
      OperandListTail(ops[1..], 1);
      Regroup("\t", ops[0], ", ", CommaJoined(ops[1..]));
    } else {
      assert ops[1..] == [];
    }
  }

  lemma Regroup(a: string, b: string, c: string, d: string)
    ensures a + b + (c + d) == a + (b + c + d)
  {
  }

  lemma {:induction false} RejoinNoNewline(fs: seq<string>, style: Style, i: nat)
    requires forall k :: 0 <= k < |fs| ==> Word(fs[k])
    ensures '\n' !in Rejoin(fs, style, i)
    decreases |fs|
  {
    if fs != [] {
      RejoinNoNewline(fs[1..], style, i + 1);
      assert Word(fs[0]) && IsSpace('\n');
      assert forall j :: 0 <= j < |fs[0]| ==> fs[0][j] != '\n';
    }
  }

  /** Whatever the text, each splitting formatter writes exactly one line. */
  lemma SplittingFormattersWriteOneLine(formatted: string)
    ensures IsLine(InsnfLine(formatted)) && IsLine(PrintfLine(formatted))
  {
    var fs := Fields(formatted);
    RejoinNoNewline(fs, InsnStyle, 0);
    RejoinNoNewline(fs, PrintStyle, 0);
    var a := Rejoin(fs, InsnStyle, 0);
    var b := Rejoin(fs, PrintStyle, 0);
    assert (a + "\n")[..|a + "\n"| - 1] == a;
    assert (b + "\n")[..|b + "\n"| - 1] == b;
  }

  lemma {:induction false} OperandListNoNewline(ops: seq<string>, i: nat)
    requires forall k :: 0 <= k < |ops| ==> '\n' !in ops[k]
    ensures '\n' !in OperandList(ops, i)
    decreases |ops|
  {
    if ops != [] {
      OperandListNoNewline(ops[1..], i + 1);
    }
  }

  /** `insn` writes exactly one line when neither the mnemonic nor an operand holds a newline. */
  lemma InsnWritesOneLine(mnemonic: string, ops: seq<string>)
    requires '\n' !in mnemonic && forall k :: 0 <= k < |ops| ==> '\n' !in ops[k]
    ensures IsLine(InsnLine(mnemonic, ops))
  {
    OperandListNoNewline(ops, 0);
    var body := "\t" + mnemonic + OperandList(ops, 0);
    assert InsnLine(mnemonic, ops) == body + "\n";
    assert (body + "\n")[..|body|] == body;
  }

  /** Decimal renderings are single fields. */
  lemma DecWord(x: int)
    ensures Word(Dec(x)) && '\n' !in Dec(x)
  {
  }
}
