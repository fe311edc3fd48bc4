/** Python string operations the engine relies on: `str.split(",")`,
    `", ".join(...)`, `f"{int}"` and the code-point order `<` on `str`. */
module Text {
  import opened Collections

  /** `sep.join(parts)`. */
  function Join(parts: seq<string>, sep: string): string {
    if |parts| == 0 then ""
    else if |parts| == 1 then parts[0]
    else parts[0] + sep + Join(parts[1..], sep)
  }

  /** `s.split(sep)` for a one-character separator: never empty, and the
      pieces, joined back with the separator, give `s` again. */
  function Split(s: string, sep: char): (parts: seq<string>)
    ensures |parts| >= 1
    ensures forall i :: 0 <= i < |parts| ==> sep !in parts[i]
    ensures Join(parts, [sep]) == s
  {
    if |s| == 0 then [""]
    else if s[0] == sep then
      var rest := Split(s[1..], sep);
      assert [sep] + Join(rest, [sep]) == s;
      [""] + rest
    else
      var rest := Split(s[1..], sep);
      var r := [[s[0]] + rest[0]] + rest[1..];
      assert |rest| > 1 ==> rest == [rest[0]] + rest[1..];
      assert r[1..] == rest[1..];
      r
  }

  lemma {:induction false} SplitPrefix(p: string, t: string, sep: char)
    requires sep !in p
    ensures Split(p + t, sep) == [p + Split(t, sep)[0]] + Split(t, sep)[1..]
  {
    if |p| > 0 {
      var u := p + t;
      assert u[0] == p[0] && u[0] != sep;
      assert u[1..] == p[1..] + t;
      SplitPrefix(p[1..], t, sep);
      var r := Split(t, sep);
      var rest := Split(u[1..], sep);
      assert rest[0] == p[1..] + r[0] && rest[1..] == r[1..];
      assert Split(u, sep) == [[u[0]] + rest[0]] + rest[1..];
      assert [u[0]] + rest[0] == p + r[0];
    } else {
      var r := Split(t, sep);
      assert p + t == t && p + r[0] == r[0];
      assert r == [r[0]] + r[1..];
    }
  }

  /** Splitting a join undoes it when no part contains the separator. */
  lemma {:induction false} SplitJoin(parts: seq<string>, sep: char)
    requires |parts| >= 1
    requires forall i :: 0 <= i < |parts| ==> sep !in parts[i]
    ensures Split(Join(parts, [sep]), sep) == parts
  {
    if |parts| == 1 {
      SplitPrefix(parts[0], "", sep);
      assert parts[0] + "" == parts[0];
    } else {
      var rest := parts[1..];
      SplitJoin(rest, sep);
      var j := Join(rest, [sep]);
      assert Join(parts, [sep]) == parts[0] + ([sep] + j);
      SplitPrefix(parts[0], [sep] + j, sep);
      assert ([sep] + j)[1..] == j;
      assert parts[0] + "" == parts[0];
      assert parts == [parts[0]] + rest;
    }
  }

  /** The parts of a `", "`-join, each after the first with its leading space. */
  function SpaceLed(parts: seq<string>): (r: seq<string>)
    requires |parts| >= 1
    ensures |r| == |parts|
  {
    [parts[0]] + seq(|parts| - 1, i requires 0 <= i < |parts| - 1 => " " + parts[i + 1])
  }

  lemma {:induction false} JoinCommaSpace(parts: seq<string>)
    requires |parts| >= 1
    ensures Join(parts, ", ") == Join(SpaceLed(parts), ",")
  {
    if |parts| > 1 {
      var rest := parts[1..];
      JoinCommaSpace(rest);
      var a := SpaceLed(parts);
      var b := SpaceLed(rest);
      assert a[1..] == [" " + b[0]] + b[1..];
      JoinLeadingSpace(b);
      assert Join(a[1..], ",") == " " + Join(b, ",");
      assert Join(a, ",") == parts[0] + "," + Join(a[1..], ",");
    }
  }

  lemma {:induction false} JoinLeadingSpace(b: seq<string>)
    requires |b| >= 1
    ensures Join([" " + b[0]] + b[1..], ",") == " " + Join(b, ",")
  {
    var c := [" " + b[0]] + b[1..];
    if |b| > 1 {
      assert c[1..] == b[1..];
    }
  }

  /** Splitting a `", "`-join on `","` gives the parts back, each after the
      first with one leading space. */
  lemma SplitCommaSpaceJoin(parts: seq<string>)
    requires |parts| >= 1
    requires forall i :: 0 <= i < |parts| ==> ',' !in parts[i]
    ensures Split(Join(parts, ", "), ',') == SpaceLed(parts)
  {
    JoinCommaSpace(parts);
    var s := SpaceLed(parts);
    forall i | 0 <= i < |s| ensures ',' !in s[i] {
      if i > 0 {
        assert s[i] == " " + parts[i];
      }
    }
    SplitJoin(s, ',');
  }

  // ---------------------------------------------------------------------
  // Python's order on `str`: lexicographic by code point.

  predicate StrLt(a: string, b: string) {
    if |a| == 0 then |b| > 0
    else if |b| == 0 then false
    else if a[0] != b[0] then a[0] < b[0]
    else StrLt(a[1..], b[1..])
  }

  lemma {:induction false} StrLtIrreflexive(a: string)
    ensures !StrLt(a, a)
  {
    if |a| > 0 {
      StrLtIrreflexive(a[1..]);
    }
  }

  lemma {:induction false} StrLtTransitive(a: string, b: string, c: string)
    requires StrLt(a, b) && StrLt(b, c)
    ensures StrLt(a, c)
  {
    if |a| > 0 && |b| > 0 && |c| > 0 && a[0] == b[0] && b[0] == c[0] {
      StrLtTransitive(a[1..], b[1..], c[1..]);
    }
  }

  lemma {:induction false} StrLtTotal(a: string, b: string)
    requires a != b
    ensures StrLt(a, b) || StrLt(b, a)
  {
    if |a| > 0 && |b| > 0 && a[0] == b[0] {
      assert a == [a[0]] + a[1..] && b == [b[0]] + b[1..];
      StrLtTotal(a[1..], b[1..]);
    }
  }

  lemma StrLtIsStrictTotalOrder()
    ensures StrictTotalOrder(StrLt)
  {
    forall a | true ensures !StrLt(a, a) {
      StrLtIrreflexive(a);
    }
    forall a, b, c | StrLt(a, b) && StrLt(b, c) ensures StrLt(a, c) {
      StrLtTransitive(a, b, c);
    }
    forall a, b | a != b ensures StrLt(a, b) || StrLt(b, a) {
      StrLtTotal(a, b);
    }
  }

  /** The bench order, as a function value for the generic sorting lemmas. */
  predicate IntLt(a: int, b: int) { a < b }

  /** Discharges the `StrictTotalOrder` premise of `SortedDistinctIncreasing`
      for the bench order, which the grid-ordering proofs need. */
  lemma IntLtIsStrictTotalOrder()
    ensures StrictTotalOrder(IntLt)
  {
  }

  // ---------------------------------------------------------------------
  // Decimal formatting of integers, as `f"{n}"`.

  function DigitChar(d: nat): char
    requires d < 10
  {
    "0123456789"[d]
  }

  predicate IsDigit(c: char) { '0' <= c <= '9' }

  function NatToString(n: nat): (s: string)
    ensures |s| >= 1
    ensures forall k :: 0 <= k < |s| ==> IsDigit(s[k])
  {
    if n < 10 then [DigitChar(n)] else NatToString(n / 10) + [DigitChar(n % 10)]
  }

  function IntToString(n: int): (s: string)
    ensures |s| >= 1
    ensures forall k :: 0 <= k < |s| ==> s[k] == '-' || IsDigit(s[k])
  {
    if n < 0 then "-" + NatToString(-n) else NatToString(n)
  }
}
