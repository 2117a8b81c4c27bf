/** JavaScript string operations that several files use: white space, split and join by one character,
    and printing of numbers. */
module Strings {

  predicate IsTerminator(c: char) {
    c in {'\n', '\r', '\U{2028}', '\U{2029}'}
  }

  /** What String.prototype.trim removes and parseInt skips. */
  predicate IsSpace(c: char) {
    || IsTerminator(c)
    || c in {'\t', '\U{0B}', '\U{0C}', ' ', '\U{A0}', '\U{1680}', '\U{202F}', '\U{205F}', '\U{3000}', '\U{FEFF}'}
    || '\U{2000}' <= c <= '\U{200A}'
  }

  // ---------------------------------------------------------------- split and join

  function Split(s: string, sep: char): (parts: seq<string>)
    ensures |parts| > 0 && forall p :: p in parts ==> sep !in p
  {
    if s == "" then [""]
    else
      var rest := Split(s[1..], sep);
      if s[0] == sep then [""] + rest else [[s[0]] + rest[0]] + rest[1..]
  }

  function Join(parts: seq<string>, sep: char): string {
    if parts == [] then ""
    else if |parts| == 1 then parts[0]
    else parts[0] + [sep] + Join(parts[1..], sep)
  }

  lemma {:induction false} SplitConcat(a: string, b: string, sep: char)
    ensures Split(a + [sep] + b, sep) == Split(a, sep) + Split(b, sep)
  {
    var s := a + [sep] + b;
    if a == "" {
      assert s[1..] == b;
    } else {
      assert s[1..] == a[1..] + [sep] + b;
      SplitConcat(a[1..], b, sep);
    }
  }

  lemma {:induction false} SplitPart(p: string, sep: char)
    requires sep !in p
    ensures Split(p, sep) == [p]
  {
    if p != "" {
      assert p[0] in p;
      SplitPart(p[1..], sep);
      assert [p[0]] + p[1..] == p;
    }
  }

  /** Splitting undoes joining, if no part holds the separator. */
  lemma {:induction false} SplitJoin(parts: seq<string>, sep: char)
    requires parts != [] && forall p :: p in parts ==> sep !in p
    ensures Split(Join(parts, sep), sep) == parts
  {
    SplitPart(parts[0], sep);
    if |parts| > 1 {
      SplitJoin(parts[1..], sep);
      SplitConcat(parts[0], Join(parts[1..], sep), sep);
    }
  }

  lemma {:induction false} JoinConcat(a: seq<string>, b: seq<string>, sep: char)
    requires a != [] && b != []
    ensures Join(a + b, sep) == Join(a, sep) + [sep] + Join(b, sep)
  {
    assert (a + b)[1..] == a[1..] + b;
    if |a| > 1 {
      JoinConcat(a[1..], b, sep);
      Regroup(a[0], [sep], Join(a[1..], sep), Join(b, sep));
    }
  }

  lemma Regroup(a: string, s: string, b: string, c: string)
    ensures a + s + (b + s + c) == a + s + b + s + c
  {
  }

  /** What stands before and after the last separator is determined by the text. */
  lemma LastSeparator(a: string, x: string, b: string, y: string, sep: char)
    requires a + [sep] + x == b + [sep] + y && sep !in x && sep !in y
    ensures a == b && x == y
  {
    NotAfter(a, x, b, y, sep);
    NotAfter(b, y, a, x, sep);
    var s := a + [sep] + x;
    assert a == s[..|a|] && b == s[..|b|];
    assert x == s[|a| + 1..] && y == s[|b| + 1..];
  }

  /** And so is what stands before and after the first one. */
  lemma FirstSeparator(a: string, x: string, b: string, y: string, sep: char)
    requires a + [sep] + x == b + [sep] + y && sep !in a && sep !in b
    ensures a == b && x == y
  {
    var s := a + [sep] + x;
    assert s == b + [sep] + y && s[|a|] == sep && s[|b|] == sep;
    assert forall i :: 0 <= i < |a| ==> s[i] == a[i] && a[i] in a;
    assert forall i :: 0 <= i < |b| ==> s[i] == b[i] && b[i] in b;
    assert a == s[..|a|] && b == s[..|b|];
    assert x == s[|a| + 1..] && y == s[|b| + 1..];
  }

  lemma NotAfter(a: string, x: string, b: string, y: string, sep: char)
    requires a + [sep] + x == b + [sep] + y && sep !in x
    ensures |b| <= |a|
  {
    var s := a + [sep] + x;
    assert s[|b|] == sep by { assert s == b + [sep] + y; }
    assert forall i :: |a| < i < |s| ==> s[i] == x[i - |a| - 1] && x[i - |a| - 1] in x;
  }

  // ---------------------------------------------------------------- numbers

  function Digit(d: nat): char
    requires d < 16
  {
    if d < 10 then '0' + d as char else 'a' + (d - 10) as char
  }

  /** Number.prototype.toString in base 10 or 16. */
  function Digits(n: nat, base: nat): string
    requires base in {10, 16}
  {
    if n < base then [Digit(n)] else Digits(n / base, base) + [Digit(n % base)]
  }

  predicate IsDigit(c: char) {
    '0' <= c <= '9' || 'a' <= c <= 'f'
  }

  lemma {:induction false} DigitsOnly(n: nat, base: nat)
    requires base in {10, 16}
    ensures |Digits(n, base)| > 0 && forall i :: 0 <= i < |Digits(n, base)| ==> IsDigit(Digits(n, base)[i])
    ensures n >= base ==> |Digits(n, base)| > 1
  {
    if n >= base { DigitsOnly(n / base, base); }
  }

  /** The number a text of digits stands for, read from the left. */
  function NumberOf(s: string, base: nat): nat
    requires forall i :: 0 <= i < |s| ==> IsDigit(s[i])
  {
    if s == "" then 0 else base * NumberOf(s[..|s| - 1], base) + DigitValue(s[|s| - 1])
  }

  function DigitValue(c: char): nat
    requires IsDigit(c)
  {
    if c <= '9' then (c - '0') as nat else 10 + (c - 'a') as nat
  }

  /** What is printed is the number; in decimal no letter occurs. */
  lemma {:induction false} DigitsAreNumber(n: nat, base: nat)
    requires base in {10, 16}
    ensures (forall i :: 0 <= i < |Digits(n, base)| ==> IsDigit(Digits(n, base)[i])) && NumberOf(Digits(n, base), base) == n
    ensures base == 10 ==> forall i :: 0 <= i < |Digits(n, base)| ==> '0' <= Digits(n, base)[i] <= '9'
  {
    DigitsOnly(n, base);
    if n >= base {
      DigitsAreNumber(n / base, base);
      var s := Digits(n, base);
      assert s[..|s| - 1] == Digits(n / base, base) && s[|s| - 1] == Digit(n % base);
    } else {
      assert Digits(n, base)[..0] == "";
    }
  }

  lemma {:induction false} DigitsInjective(a: nat, b: nat, base: nat)
    requires base in {10, 16} && Digits(a, base) == Digits(b, base)
    ensures a == b
  {
    DigitsOnly(a, base);
    DigitsOnly(b, base);
    var s := Digits(a, base);
    assert a >= base ==> s[..|s| - 1] == Digits(a / base, base) && s[|s| - 1] == Digit(a % base);
    assert b >= base ==> s[..|s| - 1] == Digits(b / base, base) && s[|s| - 1] == Digit(b % base);
    if a >= base && b >= base { DigitsInjective(a / base, b / base, base); }
  }
}
