/** Whitespace splitting as done by Go's `strings.Fields`, and the single-space
    re-joining that undoes it. The line formatters split their formatted text
    into fields and lay the fields out again, so these two functions decide
    what reaches the output. */
module Words {

  /** Go's `unicode.IsSpace`: the Unicode White_Space code points. */
  predicate IsSpace(c: char) {
    var n := c as int;
    || n == 0x20 || 0x09 <= n <= 0x0D || n == 0x85 || n == 0xA0 || n == 0x1680
    || 0x2000 <= n <= 0x200A || n == 0x2028 || n == 0x2029 || n == 0x202F
    || n == 0x205F || n == 0x3000
  }

  predicate NoSpace(s: string) {
    forall i :: 0 <= i < |s| ==> !IsSpace(s[i])
  }

  /** A field: nonempty and free of whitespace. */
  predicate Word(w: string) {
    |w| > 0 && NoSpace(w)
  }

  /** The end of the run of non-space characters starting at `i`. */
  function WordEnd(s: string, i: nat): (j: nat)
    requires i <= |s|
    ensures i <= j <= |s|
    ensures NoSpace(s[i..j])
    ensures j < |s| ==> IsSpace(s[j])
    decreases |s| - i
  {
    if i == |s| || IsSpace(s[i]) then i else WordEnd(s, i + 1)
  }

  /** Go's `strings.Fields`: the maximal runs of non-space characters, in order. */
  function Fields(s: string): (fs: seq<string>)
    ensures forall k :: 0 <= k < |fs| ==> Word(fs[k])
    decreases |s|
  {
    if |s| == 0 then []
    else if IsSpace(s[0]) then Fields(s[1..])
    else
      var n := WordEnd(s, 1);
      [s[..n]] + Fields(s[n..])
  }

  /** `" " + w` for every element: the part of a single-spaced text after its first word. */
  function Tail(ws: seq<string>): string
    decreases |ws|
  {
    if ws == [] then "" else " " + ws[0] + Tail(ws[1..])
  }

  /** The words joined by single spaces. */
  function Spaced(ws: seq<string>): string
    requires |ws| > 0
  {
    ws[0] + Tail(ws[1..])
  }

  /** A text that splitting and re-joining with single spaces leaves unchanged. */
  predicate Canonical(s: string) {
    |Fields(s)| > 0 && Spaced(Fields(s)) == s
  }

  lemma WordEndSkipsWord(w: string, rest: string, i: nat)
    requires NoSpace(w) && i <= |w|
    requires rest == [] || IsSpace(rest[0])
    ensures WordEnd(w + rest, i) == |w|
    decreases |w| - i
  {
    if i < |w| {
      WordEndSkipsWord(w, rest, i + 1);
    }
  }

  lemma {:induction false} WordEndPrefix(a: string, b: string, i: nat)
    requires i <= WordEnd(a, 0) < |a| && i <= |a|
    ensures WordEnd(a + b, i) == WordEnd(a, i)
    decreases |a| - i
  {
    var s := a + b;
    assert s[i] == a[i];
    if !IsSpace(a[i]) {
      WordEndPrefix(a, b, i + 1);
    }
  }

  lemma WordEndFrom(s: string, i: nat, j: nat)
    requires i <= |s| && i <= j <= WordEnd(s, i)
    ensures WordEnd(s, j) == WordEnd(s, i)
    decreases j - i
  {
    if i < j {
      WordEndFrom(s, i + 1, j);
    }
  }

  /** A word on its own is its only field. */
  lemma {:induction false} FieldsOfWord(w: string)
    requires Word(w)
    ensures Fields(w) == [w]
  {
    WordEndSkipsWord(w, [], 1);
    assert w + [] == w;
    assert w[|w|..] == [];
  }

  /** A single space separates: the fields of `a + " " + b` are those of `a`
      followed by those of `b`. */
  lemma {:induction false} FieldsSplitAtSpace(a: string, b: string)
    ensures Fields(a + " " + b) == Fields(a) + Fields(b)
    decreases |a|
  {
    if |a| == 0 {
      SplitEmpty(b);
    } else if IsSpace(a[0]) {
      SplitLeadingSpace(a, b);
      FieldsSplitAtSpace(a[1..], b);
    } else if WordEnd(a, 1) < |a| {
      var m := WordEnd(a, 1);
      SplitInsideFirstWord(a, b, m);
      FieldsSplitAtSpace(a[m..], b);
    } else {
      SplitAfterWholeWord(a, b);
    }
  }

  lemma SplitEmpty(b: string)
    ensures Fields([] + " " + b) == Fields([]) + Fields(b)
  {
    var s := [] + " " + b;
    assert s[1..] == b;
  }

  lemma SplitLeadingSpace(a: string, b: string)
    requires |a| > 0 && IsSpace(a[0])
    ensures Fields(a + " " + b) == Fields(a[1..] + " " + b)
    ensures Fields(a) == Fields(a[1..])
  {
    var s := a + " " + b;
    assert s[1..] == a[1..] + " " + b;
  }

  lemma SplitInsideFirstWord(a: string, b: string, m: nat)
    requires |a| > 0 && !IsSpace(a[0]) && m == WordEnd(a, 1) < |a|
    ensures |a[m..]| < |a|
    ensures Fields(a + " " + b) == [a[..m]] + Fields(a[m..] + " " + b)
    ensures Fields(a) == [a[..m]] + Fields(a[m..])
  {
    var s := a + " " + b;
    WordEndFrom(a, 0, 1);
    WordEndPrefix(a, " " + b, 1);
    assert s == a + (" " + b);
    assert s[..m] == a[..m];
    assert s[m..] == a[m..] + " " + b;
  }

  lemma SplitAfterWholeWord(a: string, b: string)
    requires |a| > 0 && !IsSpace(a[0]) && WordEnd(a, 1) == |a|
    ensures Fields(a + " " + b) == Fields(a) + Fields(b)
  {
    var s := a + " " + b;
    WordEndSkipsWord(a, " " + b, 1);
    assert s == a + (" " + b);
    assert s[..|a|] == a;
    assert s[|a|..] == " " + b;
    assert s[|a|..][1..] == b;
    assert a[..|a|] == a && a[|a|..] == [];
  }

  lemma {:induction false} TailAppend(xs: seq<string>, ys: seq<string>)
    ensures Tail(xs + ys) == Tail(xs) + Tail(ys)
    decreases |xs|
  {
    if xs != [] {
      assert (xs + ys)[1..] == xs[1..] + ys;
      TailAppend(xs[1..], ys);
    } else {
      assert xs + ys == ys;
    }
  }

  lemma SpacedAppend(xs: seq<string>, ys: seq<string>)
    requires |xs| > 0 && |ys| > 0
    ensures Spaced(xs + ys) == Spaced(xs) + " " + Spaced(ys)
  {
    assert (xs + ys)[1..] == xs[1..] + ys;
    TailAppend(xs[1..], ys);
    assert Tail(ys) == " " + ys[0] + Tail(ys[1..]);
    SpacedText(xs[0], Tail(xs[1..]), ys[0], Tail(ys[1..]));
  }

  lemma SpacedText(a: string, b: string, c: string, d: string)
    ensures a + (b + (" " + c + d)) == a + b + " " + (c + d)
  {
  }

  /** Splitting a single-spaced join of words gives the words back. */
  lemma {:induction false} FieldsOfSpaced(ws: seq<string>)
    requires |ws| > 0
    requires forall k :: 0 <= k < |ws| ==> Word(ws[k])
    ensures Fields(Spaced(ws)) == ws
    decreases |ws|
  {
    FieldsOfWord(ws[0]);
    if |ws| > 1 {
      FieldsOfSpaced(ws[1..]);
      assert Spaced(ws) == ws[0] + " " + Spaced(ws[1..]);
      FieldsSplitAtSpace(ws[0], Spaced(ws[1..]));
      assert ws == [ws[0]] + ws[1..];
    }
  }

  lemma CanonicalWord(w: string)
    requires Word(w)
    ensures Canonical(w)
  {
    FieldsOfWord(w);
  }

  /** Joining two canonical texts with one space keeps the text canonical. */
  lemma CanonicalJoin(a: string, b: string)
    requires Canonical(a) && Canonical(b)
    ensures Canonical(a + " " + b)
  {
    FieldsSplitAtSpace(a, b);
    SpacedAppend(Fields(a), Fields(b));
  }

  lemma Assoc(x: string, y: string, z: string)
    ensures x + (y + z) == x + y + z
  {
  }

  lemma WordConcat(a: string, b: string)
    requires Word(a) && NoSpace(b)
    ensures Word(a + b) && Word(b + a)
  {
    assert forall i :: 0 <= i < |a + b| ==> (a + b)[i] == if i < |a| then a[i] else b[i - |a|];
    assert forall i :: 0 <= i < |b + a| ==> (b + a)[i] == if i < |b| then b[i] else a[i - |b|];
  }
}
