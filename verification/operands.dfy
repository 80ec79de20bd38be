/** Operand texts the emitters build with `fmt.Sprintf` before the splitting
    formatter lays them out: the memory operands of both architectures, and the
    facts that these texts are already single-spaced, so that `insnf` passes
    them through unchanged. Each memory operand also has a reader that recovers
    the base register and the offset from the text. */
module Operands {
  import opened Ints
  import opened Decimal
  import opened Words

  // ----- concatenation identities -------------------------------------------------
  // Stated apart from any whitespace facts, where they are cheap to prove.

  lemma Cat3(a: string, b: string, c: string)
    ensures a + " " + (b + " " + c) == a + " " + b + " " + c
  {
  }

  lemma Cat4(a: string, b: string, c: string, d: string)
    ensures a + " " + (b + " " + c + " " + d) == a + " " + b + " " + c + " " + d
  {
  }

  lemma CommaText(a: string, b: string)
    ensures (a + ",") + " " + b == a + ", " + b
  {
  }

  lemma DwordText(m: string, s: string)
    ensures "dword" + " " + "ptr" + " " + (m + ", " + s) == "dword ptr " + m + ", " + s
  {
  }

  lemma LeaText(d: string, a: string, b: string)
    ensures (d + ",") + " " + ("[" + a) + " " + "+" + " " + (b + "]") == d + ", [" + a + " + " + b + "]"
    ensures d + ", [" + "rip" + " + " + b + "]" == d + ", [rip + " + b + "]"
  {
  }

  lemma BracketText(base: string, n: string, suffix: string)
    ensures "[" + base + ("]" + suffix) == "[" + base + "]" + suffix
    ensures "[" + base + " + " + n + "]" + suffix == ("[" + base) + " " + "+" + " " + (n + "]" + suffix)
    ensures "[" + base + " - " + n + "]" + suffix == ("[" + base) + " " + "-" + " " + (n + "]" + suffix)
    ensures "[" + base + "" == "[" + base && "" + n + ("]" + suffix) == n + "]" + suffix
  {
  }

  lemma InnerText(base: string, n: string)
    ensures "[" + base + " + " + n + "]" == "[" + (base + " " + "+" + " " + n) + "]"
    ensures "[" + base + " - " + n + "]" == "[" + (base + " " + "-" + " " + n) + "]"
    ensures "[" + base + ", " + n + "]" == "[" + ((base + ",") + " " + n) + "]"
  {
  }

  lemma InnerOf(x: string)
    ensures Bracketed("[" + x + "]") && Inner("[" + x + "]") == x
  {
  }

  lemma Arm64Text(d: string, base: string, n: string)
    ensures (d + ",") + " " + ("[" + base + ",") + " " + (n + "]") == d + ", " + ("[" + base + ", " + n + "]")
  {
  }

  lemma StackText(r: string, sp: string)
    ensures r + ", [" + sp + "," + " " + "-8]!" == r + ", [" + sp + ", -8]!"
    ensures r + ", [" + sp + "]," + " " + "8" == r + ", [" + sp + "], 8"
  {
  }

  lemma RegBracketText(r: string, sp: string, t: string, u: string)
    ensures r + ", [" + sp + t + " " + u == (r + ",") + " " + ("[" + sp + t) + " " + u
    ensures "" + r + "," == r + ","
  {
  }

  // ----- single-spaced texts of whitespace-free words -----------------------------

  lemma Fields2(a: string, b: string)
    requires Word(a) && Word(b)
    ensures Fields(a + " " + b) == [a, b]
  {
    assert Fields(a + " " + b) == Fields(a) + Fields(b) by { FieldsSplitAtSpace(a, b); }
    assert Fields(a) == [a] by { FieldsOfWord(a); }
    assert Fields(b) == [b] by { FieldsOfWord(b); }
  }

  lemma Fields3(a: string, b: string, c: string)
    requires Word(a) && Word(b) && Word(c)
    ensures Fields(a + " " + b + " " + c) == [a, b, c]
  {
    var bc := b + " " + c;
    Cat3(a, b, c);
    assert Fields(a + " " + bc) == [a] + [b, c] by {
      Fields2(b, c);
      FieldsOfWord(a);
      FieldsSplitAtSpace(a, bc);
    }
  }

  lemma Canon2(a: string, b: string)
    requires Word(a) && Word(b)
    ensures Canonical(a + " " + b)
  {
    assert Canonical(a) by { CanonicalWord(a); }
    assert Canonical(b) by { CanonicalWord(b); }
    CanonicalJoin(a, b);
  }

  lemma Canon3(a: string, b: string, c: string)
    requires Word(a) && Word(b) && Word(c)
    ensures Canonical(a + " " + b + " " + c)
  {
    var bc := b + " " + c;
    assert Canonical(a) by { CanonicalWord(a); }
    assert Canonical(bc) by { Canon2(b, c); }
    assert Canonical(a + " " + bc) by { CanonicalJoin(a, bc); }
    Cat3(a, b, c);
  }

  lemma Canon4(a: string, b: string, c: string, d: string)
    requires Word(a) && Word(b) && Word(c) && Word(d)
    ensures Canonical(a + " " + b + " " + c + " " + d)
  {
    var bcd := b + " " + c + " " + d;
    assert Canonical(a) by { CanonicalWord(a); }
    assert Canonical(bcd) by { Canon3(b, c, d); }
    assert Canonical(a + " " + bcd) by { CanonicalJoin(a, bcd); }
    Cat4(a, b, c, d);
  }

  /** A word followed by whitespace-free text is a word; so is one preceded by it. */
  lemma Glue(a: string, w: string, b: string)
    requires Word(w) && NoSpace(a) && NoSpace(b)
    ensures Word(a + w + b)
  {
    assert Word(a + w) by { WordConcat(w, a); }
    WordConcat(a + w, b);
  }

  lemma WordComma(w: string)
    requires Word(w)
    ensures Word(w + ",")
  {
    Glue("", w, ",");
    assert "" + w + "," == w + ",";
  }

  lemma DecNoSpace(x: int)
    ensures Word(Dec(x))
  {
  }

  // ----- AMD64 --------------------------------------------------------------------

  /** Go's `-x` on a 64-bit `int`: the most negative value negates to itself. */
  function Neg64(x: i64): (r: i64)
    ensures x != -TWO_TO_THE_63 ==> r == -x
    ensures x == -TWO_TO_THE_63 ==> r == x
  {
    if x == -TWO_TO_THE_63 then x else -x
  }

  /** The AMD64 memory operand for a base register name and a byte offset:
      `[b]` for offset 0, `[b + n]` for a positive and `[b - n]` for a negative
      offset, `n` being the offset's magnitude. */
  function Amd64Mem(base: string, offset: i64): string {
    if offset == 0 then "[" + base + "]"
    else if offset > 0 then "[" + base + " + " + Dec(offset) + "]"
    else "[" + base + " - " + Dec(Neg64(offset)) + "]"
  }

  /** The memory operand, with text glued to its end, is single-spaced: one,
      or three, whitespace-free pieces. */
  lemma Amd64MemCanonical(base: string, offset: i64, suffix: string)
    requires Word(base) && NoSpace(suffix)
    ensures Canonical(Amd64Mem(base, offset) + suffix)
  {
    if offset == 0 {
      assert Word("[" + base + "]" + suffix) by { BracketWord(base, suffix); }
      CanonicalWord("[" + base + "]" + suffix);
    } else if offset > 0 {
      BracketTerms(base, Dec(offset), suffix);
    } else {
      BracketTerms(base, Dec(Neg64(offset)), suffix);
    }
  }

  lemma BracketWord(base: string, suffix: string)
    requires Word(base) && NoSpace(suffix)
    ensures Word("[" + base + "]" + suffix)
  {
    assert Word("[" + base + ("]" + suffix)) by { Glue("[", base, "]" + suffix); }
    BracketText(base, "", suffix);
  }

  lemma BracketTerms(base: string, n: string, suffix: string)
    requires Word(base) && Word(n) && NoSpace(suffix)
    ensures Canonical("[" + base + " + " + n + "]" + suffix)
    ensures Canonical("[" + base + " - " + n + "]" + suffix)
  {
    BracketText(base, n, suffix);
    assert Word("[" + base) by { Glue("[", base, ""); }
    assert Word(n + "]" + suffix) by { Glue("", n, "]" + suffix); }
    CanonEq("[" + base + " + " + n + "]" + suffix, "[" + base, "+", n + "]" + suffix);
    CanonEq("[" + base + " - " + n + "]" + suffix, "[" + base, "-", n + "]" + suffix);
  }

  lemma CanonEq(s: string, a: string, b: string, c: string)
    requires Word(a) && Word(b) && Word(c) && s == a + " " + b + " " + c
    ensures Canonical(s)
  {
    Canon3(a, b, c);
  }

  /** `d, [b ...]`: the operand text of a load. */
  lemma Amd64LoadOperands(d: string, base: string, offset: i64)
    requires Word(d) && Word(base)
    ensures Canonical(d + ", " + Amd64Mem(base, offset))
  {
    var m := Amd64Mem(base, offset);
    assert Canonical(d + ",") by { WordComma(d); CanonicalWord(d + ","); }
    assert Canonical(m) by {
      Amd64MemCanonical(base, offset, "");
      assert m + "" == m;
    }
    assert Canonical((d + ",") + " " + m) by { CanonicalJoin(d + ",", m); }
    CommaText(d, m);
  }

  /** `[b ...], s`: the operand text of a store. */
  lemma Amd64StoreOperands(base: string, offset: i64, s: string)
    requires Word(base) && Word(s)
    ensures Canonical(Amd64Mem(base, offset) + ", " + s)
  {
    var m := Amd64Mem(base, offset);
    assert Canonical(m + ",") by { Amd64MemCanonical(base, offset, ","); }
    assert Canonical(s) by { CanonicalWord(s); }
    assert Canonical((m + ",") + " " + s) by { CanonicalJoin(m + ",", s); }
    CommaText(m, s);
  }

  /** `dword ptr [b ...], s`: the operand text of a 4-byte memory operation
      with a size prefix. */
  lemma DwordOperands(base: string, offset: i64, s: string)
    requires Word(base) && Word(s)
    ensures Canonical("dword ptr " + Amd64Mem(base, offset) + ", " + s)
  {
    var rest := Amd64Mem(base, offset) + ", " + s;
    assert Canonical(rest) by { Amd64StoreOperands(base, offset, s); }
    assert Canonical("dword" + " " + "ptr" + " " + rest) by { DwordPrefix(rest); }
    DwordText(Amd64Mem(base, offset), s);
  }

  lemma DwordPrefix(rest: string)
    requires Canonical(rest)
    ensures Canonical("dword" + " " + "ptr" + " " + rest)
  {
    assert Word("dword") && Word("ptr");
    TwoWordsBefore("dword", "ptr", rest);
  }

  lemma TwoWordsBefore(p: string, q: string, rest: string)
    requires Word(p) && Word(q) && Canonical(rest)
    ensures Canonical(p + " " + q + " " + rest)
  {
    assert Canonical(q + " " + rest) by {
      CanonicalWord(q);
      CanonicalJoin(q, rest);
    }
    assert Canonical(p + " " + (q + " " + rest)) by {
      CanonicalWord(p);
      CanonicalJoin(p, q + " " + rest);
    }
    Cat3(p, q, rest);
  }

  /** `d, [a + b]`: the operand text of a `lea` that adds two terms. */
  lemma LeaOperands(d: string, a: string, b: string)
    requires Word(d) && Word(a) && Word(b)
    ensures Canonical(d + ", [" + a + " + " + b + "]")
  {
    assert Canonical((d + ",") + " " + ("[" + a) + " " + "+" + " " + (b + "]")) by {
      WordComma(d);
      Glue("[", a, "");
      assert "[" + a + "" == "[" + a;
      Glue("", b, "]");
      assert "" + b + "]" == b + "]";
      Canon4(d + ",", "[" + a, "+", b + "]");
    }
    LeaText(d, a, b);
  }

  /** `d, [rip + sym]`: the operand text of an address relative to the
      instruction pointer. */
  lemma RipOperands(d: string, sym: string)
    requires Word(d) && Word(sym)
    ensures Canonical(d + ", [rip + " + sym + "]")
  {
    assert Canonical(d + ", [" + "rip" + " + " + sym + "]") by {
      assert Word("rip");
      LeaOperands(d, "rip", sym);
    }
    LeaText(d, "rip", sym);
  }

  /** `a, b`: two single-field operands. */
  lemma PairOperands(a: string, b: string)
    requires Word(a) && Word(b)
    ensures Canonical(a + ", " + b)
  {
    assert Canonical((a + ",") + " " + b) by {
      WordComma(a);
      Canon2(a + ",", b);
    }
    CommaText(a, b);
  }

  /** The text between the brackets of a bracketed text. */
  function Inner(s: string): string
    requires |s| >= 2
  {
    s[1..|s| - 1]
  }

  predicate Bracketed(s: string) {
    |s| >= 2 && s[0] == '[' && s[|s| - 1] == ']'
  }

  /** Reads an AMD64 memory operand back into its base name and offset. */
  function ParseAmd64Mem(s: string): Option<(string, int)> {
    if Bracketed(s) then ReadAmd64Terms(Fields(Inner(s))) else None
  }

  /** Base and offset from the fields between the brackets: the base alone,
      or the base, a sign and the magnitude. */
  function ReadAmd64Terms(fs: seq<string>): Option<(string, int)> {
    if |fs| == 1 then Some((fs[0], 0))
    else if |fs| == 3 && (fs[1] == "+" || fs[1] == "-") then
      match ParseDec(fs[2])
      case None => None
      case Some(n) =>
        Some((fs[0], if fs[1] == "+" then n else if n == -TWO_TO_THE_63 then n else -n))
    else None
  }

  /** The three shapes lose nothing: base and offset are read back from the
      text, whatever the sign of the offset. */
  lemma Amd64MemRoundTrip(base: string, offset: i64)
    requires Word(base)
    ensures ParseAmd64Mem(Amd64Mem(base, offset)) == Some((base, offset))
  {
    if offset == 0 {
      InnerOf(base);
      assert Fields(base) == [base] by { FieldsOfWord(base); }
    } else if offset > 0 {
      InnerText(base, Dec(offset));
      SignedTerms(base, "+", offset);
    } else {
      InnerText(base, Dec(Neg64(offset)));
      SignedTerms(base, "-", Neg64(offset));
    }
  }

  /** `[b s n]` reads back as the base, the sign and the magnitude `n`. */
  lemma SignedTerms(base: string, sign: string, m: int)
    requires Word(base) && (sign == "+" || sign == "-")
    ensures ParseAmd64Mem("[" + (base + " " + sign + " " + Dec(m)) + "]")
      == ReadAmd64Terms([base, sign, Dec(m)])
    ensures ReadAmd64Terms([base, sign, Dec(m)])
      == Some((base, if sign == "+" then m else if m == -TWO_TO_THE_63 then m else -m))
  {
    InnerOf(base + " " + sign + " " + Dec(m));
    assert Fields(base + " " + sign + " " + Dec(m)) == [base, sign, Dec(m)] by {
      assert Word(sign) && Word(Dec(m));
      Fields3(base, sign, Dec(m));
    }
    assert ParseDec(Dec(m)) == Some(m) by { DecRoundTrip(m); }
  }

  /** Different memory operands render differently. */
  lemma Amd64MemInjective(b1: string, o1: i64, b2: string, o2: i64)
    requires Word(b1) && Word(b2) && Amd64Mem(b1, o1) == Amd64Mem(b2, o2)
    ensures b1 == b2 && o1 == o2
  {
    Amd64MemRoundTrip(b1, o1);
    Amd64MemRoundTrip(b2, o2);
  }

  // ----- ARM64 --------------------------------------------------------------------

  /** The ARM64 memory operand: always `[b, n]` with the signed offset. */
  function Arm64Mem(base: string, offset: i64): string {
    "[" + base + ", " + Dec(offset) + "]"
  }

  /** `d, [b, n]`: the operand text of a load or store. */
  lemma Arm64MemOperands(d: string, base: string, offset: i64)
    requires Word(d) && Word(base)
    ensures Canonical(d + ", " + Arm64Mem(base, offset))
  {
    assert Canonical((d + ",") + " " + ("[" + base + ",") + " " + (Dec(offset) + "]")) by {
      WordComma(d);
      Glue("[", base, ",");
      Glue("", Dec(offset), "]");
      assert "" + Dec(offset) + "]" == Dec(offset) + "]";
      Canon3(d + ",", "[" + base + ",", Dec(offset) + "]");
    }
    Arm64Text(d, base, Dec(offset));
  }

  /** `r, [sp, -8]!` and `r, [sp], 8`: the operand texts of a pre-decrementing
      store and a post-incrementing load. */
  lemma Arm64StackOperands(r: string, sp: string)
    requires Word(r) && Word(sp)
    ensures Canonical(r + ", [" + sp + ", -8]!")
    ensures Canonical(r + ", [" + sp + "], 8")
  {
    assert Canonical(r + ", [" + sp + "," + " " + "-8]!") by {
      assert Word("-8]!");
      RegThenBracket(r, sp, ",", "-8]!");
    }
    assert Canonical(r + ", [" + sp + "]," + " " + "8") by {
      assert Word("8");
      RegThenBracket(r, sp, "],", "8");
    }
    StackText(r, sp);
  }

  lemma RegThenBracket(r: string, sp: string, t: string, u: string)
    requires Word(r) && Word(sp) && NoSpace(t) && Word(u)
    ensures Canonical(r + ", [" + sp + t + " " + u)
  {
    RegBracketText(r, sp, t, u);
    WordComma(r);
    assert Word("[" + sp + t) by { Glue("[", sp, t); }
    CanonEq(r + ", [" + sp + t + " " + u, r + ",", "[" + sp + t, u);
  }

  /** Reads an ARM64 memory operand back into its base name and offset. */
  function ParseArm64Mem(s: string): Option<(string, int)> {
    if !Bracketed(s) then None
    else
      var fs := Fields(Inner(s));
      if |fs| == 2 && fs[0][|fs[0]| - 1] == ',' then
        match ParseDec(fs[1])
        case None => None
        case Some(n) => Some((fs[0][..|fs[0]| - 1], n))
      else None
  }

  /** The uniform shape loses nothing either. */
  lemma Arm64MemRoundTrip(base: string, offset: i64)
    requires Word(base)
    ensures ParseArm64Mem(Arm64Mem(base, offset)) == Some((base, offset))
  {
    var s := Arm64Mem(base, offset);
    InnerText(base, Dec(offset));
    InnerOf((base + ",") + " " + Dec(offset));
    assert Fields(Inner(s)) == [base + ",", Dec(offset)] by {
      WordComma(base);
      Fields2(base + ",", Dec(offset));
    }
    assert (base + ",")[..|base + ","| - 1] == base;
    assert ParseDec(Dec(offset)) == Some(offset as int) by { DecRoundTrip(offset); }
  }
}
