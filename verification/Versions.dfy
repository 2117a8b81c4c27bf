/** compareVersions of src/symphony/provisioning.ts. A prerelease or build suffix is dropped; a segment is
    the number at its start, or 0. */
module Versions {
  import opened Strings

  /** Everything before the first `-` or `+`. */
  function Clean(s: string): string {
    if s == "" || s[0] in {'-', '+'} then "" else [s[0]] + Clean(s[1..])
  }

  function LeadingNumber(s: string, value: nat): nat {
    if s == "" || !('0' <= s[0] <= '9') then value else LeadingNumber(s[1..], 10 * value + (s[0] - '0') as nat)
  }

  /** parseInt(s, 10), or 0 where that is not a number. No sign can occur in a clean segment. */
  function ParseSegment(s: string): nat {
    if s != "" && IsSpace(s[0]) then ParseSegment(s[1..]) else LeadingNumber(s, 0)
  }

  function Parts(version: string): seq<nat> {
    var segments := Split(Clean(version), '.');
    seq(|segments|, i requires 0 <= i < |segments| => ParseSegment(segments[i]))
  }

  /** The i-th number; missing ones are 0. */
  function At(parts: seq<nat>, i: nat): nat {
    if i < |parts| then parts[i] else 0
  }

  /** What the result means: the first place where the two differ decides. */
  ghost predicate Less(a: seq<nat>, b: seq<nat>) {
    exists i: nat :: At(a, i) < At(b, i) && forall j :: 0 <= j < i ==> At(a, j) == At(b, j)
  }

  ghost predicate Same(a: seq<nat>, b: seq<nat>) {
    forall i: nat :: At(a, i) == At(b, i)
  }

  method CompareVersions(a: string, b: string) returns (r: int)
    ensures r in {-1, 0, 1}
    ensures r == -1 <==> Less(Parts(a), Parts(b))
    ensures r == 1 <==> Less(Parts(b), Parts(a))
    ensures r == 0 <==> Same(Parts(a), Parts(b))
  {
    r := CompareParts(Parts(a), Parts(b));
    Trichotomy(Parts(a), Parts(b));
  }

  /** The loop over the numbers of both. */
  method CompareParts(a: seq<nat>, b: seq<nat>) returns (r: int)
    ensures r in {-1, 0, 1}
    ensures if r == 0 then Same(a, b) else if r < 0 then Less(a, b) else Less(b, a)
  {
    var len := if |a| >= |b| then |a| else |b|;
    for i := 0 to len
      invariant forall j :: 0 <= j < i ==> At(a, j) == At(b, j)
    {
      var pA, pB := At(a, i), At(b, i);
      if pA < pB { return -1; }
      if pA > pB { return 1; }
    }
    return 0;
  }

  /** Exactly one of less, same and greater holds. */
  lemma Trichotomy(a: seq<nat>, b: seq<nat>)
    ensures Less(a, b) || Same(a, b) || Less(b, a)
    ensures !(Less(a, b) && Same(a, b)) && !(Less(a, b) && Less(b, a)) && !(Same(a, b) && Less(b, a))
  {
    if i: nat :| At(a, i) != At(b, i) {
      var d := FirstDifference(a, b, i);
      assert At(a, d) < At(b, d) || At(b, d) < At(a, d);
    }
  }

  lemma {:induction false} FirstDifference(a: seq<nat>, b: seq<nat>, i: nat) returns (d: nat)
    requires At(a, i) != At(b, i)
    ensures d <= i && At(a, d) != At(b, d) && forall j :: 0 <= j < d ==> At(a, j) == At(b, j)
  {
    if k: nat :| k < i && At(a, k) != At(b, k) { d := FirstDifference(a, b, k); } else { d := i; }
  }

  /** The order is transitive and compatible with equality. */
  lemma LessIsTransitive(a: seq<nat>, b: seq<nat>, c: seq<nat>)
    ensures Less(a, b) && Less(b, c) ==> Less(a, c)
    ensures Less(a, b) && Same(b, c) ==> Less(a, c)
    ensures Same(a, b) && Less(b, c) ==> Less(a, c)
  {
    if Less(a, b) && Less(b, c) {
      var i: nat :| At(a, i) < At(b, i) && forall j :: 0 <= j < i ==> At(a, j) == At(b, j);
      var k: nat :| At(b, k) < At(c, k) && forall j :: 0 <= j < k ==> At(b, j) == At(c, j);
      var m := if i < k then i else k;
      assert At(a, m) < At(c, m);
    }
  }

  /** The text of a version with these numbers. */
  function Printed(numbers: seq<nat>): string {
    Join(seq(|numbers|, i requires 0 <= i < |numbers| => Digits(numbers[i], 10)), '.')
  }

  /** A segment that is a number in decimal is read as that number. */
  lemma SegmentIsNumber(n: nat)
    ensures ParseSegment(Digits(n, 10)) == n
  {
    DigitsAreNumber(n, 10);
    DigitsOnly(n, 10);
    assert !IsSpace(Digits(n, 10)[0]);
    LeadingIsNumber(Digits(n, 10));
  }

  lemma {:induction false} LeadingIsNumber(s: string)
    requires forall i :: 0 <= i < |s| ==> '0' <= s[i] <= '9'
    ensures LeadingNumber(s, 0) == NumberOf(s, 10)
  {
    if s != "" {
      LeadingIsNumber(s[..|s| - 1]);
      LeadingPush(s[..|s| - 1], s[|s| - 1], 0);
      assert s == s[..|s| - 1] + [s[|s| - 1]];
    }
  }

  lemma {:induction false} LeadingPush(s: string, c: char, value: nat)
    requires '0' <= c <= '9' && forall i :: 0 <= i < |s| ==> '0' <= s[i] <= '9'
    ensures LeadingNumber(s + [c], value) == 10 * LeadingNumber(s, value) + (c - '0') as nat
  {
    if s == "" {
      assert s + [c] == [c] && [c][1..] == "";
    } else {
      assert (s + [c])[1..] == s[1..] + [c];
      LeadingPush(s[1..], c, 10 * value + (s[0] - '0') as nat);
    }
  }

  /** So a printed version is read as its numbers, and 1.10.0 is above 1.9.0. */
  lemma PrintedIsRead(numbers: seq<nat>)
    requires numbers != []
    ensures Parts(Printed(numbers)) == numbers
    ensures Less(Parts(Printed([1, 9, 0])), Parts(Printed([1, 10, 0]))) && Printed([1, 10, 0]) == "1.10.0"
  {
    ReadBack(numbers);
    ReadBack([1, 9, 0]);
    ReadBack([1, 10, 0]);
    assert At([1, 9, 0], 1) < At([1, 10, 0], 1) && forall j :: 0 <= j < 1 ==> At([1, 9, 0], j) == At([1, 10, 0], j);
    TenIsPrinted();
  }

  lemma TenIsPrinted()
    ensures Printed([1, 10, 0]) == "1.10.0"
  {
    assert Digits(1, 10) == "1" && Digits(0, 10) == "0";
    assert Digits(10, 10) == "10";
    var a := seq(3, i requires 0 <= i < 3 => Digits([1, 10, 0][i], 10));
    assert a == ["1", "10", "0"];
    assert ["1", "10", "0"][1..] == ["10", "0"] && ["10", "0"][1..] == ["0"];
  }

  lemma ReadBack(numbers: seq<nat>)
    requires numbers != []
    ensures Parts(Printed(numbers)) == numbers
  {
    var segments := seq(|numbers|, i requires 0 <= i < |numbers| => Digits(numbers[i], 10));
    forall i | 0 <= i < |segments| ensures Plain(segments[i]) && ParseSegment(segments[i]) == numbers[i] {
      DigitsAreNumber(numbers[i], 10);
      SegmentIsNumber(numbers[i]);
    }
    SplitJoin(segments, '.');
    JoinPlain(segments);
    CleanIsWhole(Printed(numbers));
  }

  predicate Plain(s: string) {
    '.' !in s && '-' !in s && '+' !in s
  }

  lemma {:induction false} JoinPlain(parts: seq<string>)
    requires forall i :: 0 <= i < |parts| ==> Plain(parts[i])
    ensures !HasSuffix(Join(parts, '.'))
  {
    if |parts| > 0 { assert Plain(parts[0]); }
    if |parts| > 1 { JoinPlain(parts[1..]); }
  }

  /** A further segment `.0` changes nothing; after a suffix it is not even seen. */
  lemma TrailingZeroDoesNotCount(version: string)
    ensures Same(Parts(version), Parts(version + ".0"))
  {
    if HasSuffix(version) {
      SuffixHides(version, ".0");
    } else {
      CleanIsWhole(version);
      CleanIsWhole(version + ".0");
      SplitConcat(version, "0", '.');
      SplitPart("0", '.');
      assert version + ['.'] + "0" == version + ".0";
      assert LeadingNumber("0", 0) == 0 by { assert "0"[1..] == ""; }
    }
  }

  predicate HasSuffix(version: string) {
    '-' in version || '+' in version
  }

  lemma {:induction false} SuffixHides(s: string, t: string)
    requires HasSuffix(s)
    ensures Clean(s + t) == Clean(s)
  {
    if s[0] !in {'-', '+'} {
      assert (s + t)[1..] == s[1..] + t;
      SuffixHides(s[1..], t);
    }
  }

  lemma {:induction false} CleanIsWhole(s: string)
    requires !HasSuffix(s)
    ensures Clean(s) == s
  {
    if s != "" {
      assert s[0] in s;
      CleanIsWhole(s[1..]);
    }
  }
}
