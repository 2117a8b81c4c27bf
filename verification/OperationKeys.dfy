/** Keys of API operations (src/api/api-sources/operation-key.ts). */
module OperationKeys {
  import opened Strings

  // ---------------------------------------------------------------- resolveOperationKey

  /** Index of the first closing brace, or the length. */
  function FindClose(s: string): (n: nat)
    ensures n <= |s| && (n < |s| ==> s[n] == '}') && forall i :: 0 <= i < n ==> s[i] != '}'
  {
    if s == "" || s[0] == '}' then 0 else 1 + FindClose(s[1..])
  }

  lemma {:induction false} FindCloseAfter(front: string, s: string)
    ensures FindClose(front + s) == if FindClose(front) < |front| then FindClose(front) else |front| + FindClose(s)
  {
    if front == "" {
      assert front + s == s;
    } else {
      assert (front + s)[1..] == front[1..] + s;
      FindCloseAfter(front[1..], s);
    }
  }

  /** Replaces every `{name}`, the name not empty, by `{}`. */
  function NormalizePath(path: string): string {
    if path == "" then ""
    else
      var n := FindClose(path[1..]);
      if path[0] == '{' && 0 < n < |path| - 1 then "{}" + NormalizePath(path[n + 2..])
      else [path[0]] + NormalizePath(path[1..])
  }

  function UpperCase(c: char): char {
    if 'a' <= c <= 'z' then 'A' + (c - 'a') else c
  }

  function ToUpper(s: string): (r: string)
    ensures |r| == |s| && forall i :: 0 <= i < |s| ==> r[i] == UpperCase(s[i])
  {
    seq(|s|, i requires 0 <= i < |s| => UpperCase(s[i]))
  }

  /** The operation id if it is present and not empty, otherwise method and normalised path. */
  function ResolveOperationKey(verb: string, path: string, operationId: string): string {
    if operationId != "" then operationId else ToUpper(verb) + ":" + NormalizePath(path)
  }

  /** An operation id is the key; without one two operations have the same key if and only if their
      upper-cased methods and their normalised paths are the same. */
  lemma KeyTellsApart(verb: string, path: string, operationId: string, verb': string, path': string)
    requires ':' !in verb && ':' !in verb'
    ensures operationId != "" ==> ResolveOperationKey(verb, path, operationId) == operationId
    ensures ResolveOperationKey(verb, path, "") == ResolveOperationKey(verb', path', "") <==>
      ToUpper(verb) == ToUpper(verb') && NormalizePath(path) == NormalizePath(path')
  {
    var a, b := ToUpper(verb), ToUpper(verb');
    var x, y := NormalizePath(path), NormalizePath(path');
    assert forall i :: 0 <= i < |a| ==> verb[i] in verb && a[i] != ':';
    assert forall i :: 0 <= i < |b| ==> verb'[i] in verb' && b[i] != ':';
    if a + ":" + x == b + ":" + y { FirstSeparator(a, x, b, y, ':'); }
  }

  /** What normalising does, parameter by parameter: text without a brace stays, and each `{name}` becomes `{}`. */
  lemma NormalizeMeans(front: string, name: string, back: string)
    requires '{' !in front && name != "" && '}' !in name
    ensures NormalizePath(front) == front
    ensures NormalizePath(front + "{" + name + "}" + back) == front + "{}" + NormalizePath(back)
  {
    PlainAlone(front);
    ParameterInFront(name, back);
    PlainFront(front, "{" + name + "}" + back);
    Grouped(front, "{", name, "}", back);
    Grouped(front, "{}", NormalizePath(back), "", "");
  }

  lemma PlainAlone(front: string)
    requires '{' !in front
    ensures NormalizePath(front) == front
  {
    PlainFront(front, "");
    assert front + "" == front;
  }

  lemma ParameterInFront(name: string, back: string)
    requires name != "" && '}' !in name
    ensures NormalizePath("{" + name + "}" + back) == "{}" + NormalizePath(back)
  {
    IsParameter(name, back);
    AtParameter("{" + name + "}" + back, back);
  }

  lemma Grouped(a: string, b: string, c: string, d: string, e: string)
    ensures a + (b + c + d + e) == a + b + c + d + e && a + (b + c) == a + b + c
  {
  }

  lemma {:induction false} PlainFront(front: string, rest: string)
    requires '{' !in front
    ensures NormalizePath(front + rest) == front + NormalizePath(rest)
  {
    if front == "" {
      EmptyFront(rest);
      assert front + NormalizePath(rest) == NormalizePath(rest);
    } else {
      assert front[0] in front && forall c :: c in front[1..] ==> c in front;
      PlainFront(front[1..], rest);
      Kept(front, rest);
      assert front == [front[0]] + front[1..];
    }
  }

  /** Upper-casing lowers the code of a small letter by 32 and leaves every other character. */
  lemma UpperCaseMeans(c: char)
    ensures UpperCase(c) as int == if 'a' <= c <= 'z' then c as int - 32 else c as int
  {
  }

  /** Renaming a path parameter does not change the key, wherever in the path it is. */
  lemma {:induction false} RenamingKeepsKey(verb: string, front: string, x: string, y: string, back: string)
    requires x != "" && y != "" && '}' !in x && '}' !in y
    ensures ResolveOperationKey(verb, front + "{" + x + "}" + back, "")
         == ResolveOperationKey(verb, front + "{" + y + "}" + back, "")
  {
    var a, b := "{" + x + "}" + back, "{" + y + "}" + back;
    IsParameter(x, back);
    IsParameter(y, back);
    assert front + "{" + x + "}" + back == front + a && front + "{" + y + "}" + back == front + b;
    RenamingKeepsPath(front, a, b, back);
  }

  /** `s` is a path parameter followed by `back`. */
  predicate Parameter(s: string, back: string) {
    var n := FindClose(s);
    s != "" && s[0] == '{' && 2 <= n < |s| && s[n + 1..] == back
  }

  lemma IsParameter(x: string, back: string)
    requires x != "" && '}' !in x
    ensures Parameter("{" + x + "}" + back, back)
  {
    var front, rest := "{" + x, "}" + back;
    FindCloseAfter(front, rest);
    assert front + rest == "{" + x + "}" + back;
    assert rest[1..] == back && FindClose(rest) == 0;
    assert (front + rest)[|front| + 1..] == rest[1..];
  }

  lemma {:induction false} RenamingKeepsPath(front: string, a: string, b: string, back: string)
    requires Parameter(a, back) && Parameter(b, back)
    ensures NormalizePath(front + a) == NormalizePath(front + b)
    decreases |front|
  {
    if front == "" {
      ParametersAlone(a, b, back);
    } else if front[0] != '{' || FindClose(front[1..]) == 0 < |front| - 1 {
      RenamingKeepsPath(front[1..], a, b, back);
      KeptBoth(front, a, b);
    } else if FindClose(front[1..]) < |front| - 1 {
      var n := FindClose(front[1..]);
      RenamingKeepsPath(front[n + 2..], a, b, back);
      ClosedBoth(front, n, a, b);
    } else {
      OpenBoth(front, a, b, back);
    }
  }

  lemma ParametersAlone(a: string, b: string, back: string)
    requires Parameter(a, back) && Parameter(b, back)
    ensures NormalizePath("" + a) == NormalizePath("" + b)
  {
    AtParameter(a, back);
    AtParameter(b, back);
    EmptyFront(a);
    EmptyFront(b);
  }

  lemma EmptyFront(a: string)
    ensures NormalizePath("" + a) == NormalizePath(a)
  {
    assert "" + a == a;
  }

  lemma OpenBoth(front: string, a: string, b: string, back: string)
    requires front != "" && front[0] == '{' && FindClose(front[1..]) == |front| - 1
    requires Parameter(a, back) && Parameter(b, back)
    ensures NormalizePath(front + a) == NormalizePath(front + b)
  {
    Open(front, a, back);
    Open(front, b, back);
  }

  lemma KeptBoth(front: string, a: string, b: string)
    requires front != "" && (front[0] != '{' || FindClose(front[1..]) == 0 < |front| - 1)
    requires NormalizePath(front[1..] + a) == NormalizePath(front[1..] + b)
    ensures NormalizePath(front + a) == NormalizePath(front + b)
  {
    Kept(front, a);
    Kept(front, b);
  }

  lemma ClosedBoth(front: string, n: nat, a: string, b: string)
    requires front != "" && front[0] == '{' && n == FindClose(front[1..]) && 0 < n < |front| - 1
    requires NormalizePath(front[n + 2..] + a) == NormalizePath(front[n + 2..] + b)
    ensures NormalizePath(front + a) == NormalizePath(front + b)
  {
    Closed(front, n, a);
    Closed(front, n, b);
  }

  lemma AtParameter(a: string, back: string)
    requires Parameter(a, back)
    ensures NormalizePath(a) == "{}" + NormalizePath(back)
  {
    FindCloseAfter("{", a[1..]);
    assert "{" + a[1..] == a;
    Replaced(a, FindClose(a) - 1, back);
  }

  /** The first character of `front` is no brace, or begins an empty pair of braces. */
  lemma Kept(front: string, a: string)
    requires front != "" && (front[0] != '{' || FindClose(front[1..]) == 0 < |front| - 1)
    ensures NormalizePath(front + a) == [front[0]] + NormalizePath(front[1..] + a)
  {
    assert (front + a)[1..] == front[1..] + a;
    FindCloseAfter(front[1..], a);
  }

  /** It is a brace that is closed within `front`. */
  lemma Closed(front: string, n: nat, a: string)
    requires front != "" && front[0] == '{' && n == FindClose(front[1..]) && 0 < n < |front| - 1
    ensures NormalizePath(front + a) == "{}" + NormalizePath(front[n + 2..] + a)
  {
    assert (front + a)[1..] == front[1..] + a;
    FindCloseAfter(front[1..], a);
    assert (front + a)[n + 2..] == front[n + 2..] + a;
    Replaced(front + a, n, front[n + 2..] + a);
  }

  /** It is a brace that is closed only by the parameter after `front`. */
  lemma Open(front: string, a: string, back: string)
    requires front != "" && front[0] == '{' && FindClose(front[1..]) == |front| - 1 && Parameter(a, back)
    ensures NormalizePath(front + a) == "{}" + NormalizePath(back)
  {
    var m := FindClose(a);
    CloseOfOpen(front, a, m);
    SkipFront(front, a, m + 1);
    Replaced(front + a, |front| - 1 + m, back);
  }

  lemma CloseOfOpen(front: string, a: string, m: nat)
    requires front != "" && FindClose(front[1..]) == |front| - 1 && m == FindClose(a)
    ensures FindClose((front + a)[1..]) == |front| - 1 + m
  {
    FindCloseAfter(front[1..], a);
    assert (front + a)[1..] == front[1..] + a;
  }

  lemma SkipFront(front: string, a: string, k: nat)
    requires k <= |a|
    ensures (front + a)[|front| + k..] == a[k..]
  {
  }

  lemma Replaced(p: string, n: nat, tail: string)
    requires p != "" && p[0] == '{' && n == FindClose(p[1..]) && 0 < n < |p| - 1 && tail == p[n + 2..]
    ensures NormalizePath(p) == "{}" + NormalizePath(tail)
  {
  }

  /** Normalising twice is normalising once. */
  lemma {:induction false} NormalizeIdempotent(path: string)
    ensures NormalizePath(NormalizePath(path)) == NormalizePath(path)
    decreases |path|
  {
    if path != "" {
      var n := FindClose(path[1..]);
      if path[0] == '{' && 0 < n < |path| - 1 {
        NormalizeIdempotent(path[n + 2..]);
        var rest := NormalizePath(path[n + 2..]);
        EmptyBraces(rest);
      } else {
        NormalizeIdempotent(path[1..]);
        var rest := NormalizePath(path[1..]);
        NormalizeClose(path[1..]);
        assert ([path[0]] + rest)[1..] == rest;
      }
    }
  }

  lemma EmptyBraces(rest: string)
    ensures NormalizePath("{}" + rest) == "{}" + NormalizePath(rest)
  {
    var front := "{}";
    assert front[1..] == "}";
    Kept(front, rest);
    CloseFirst(rest);
    Regroup(NormalizePath(rest));
  }

  lemma Regroup(s: string)
    ensures ['{'] + ("}" + s) == "{}" + s
  {
  }

  lemma CloseFirst(rest: string)
    ensures NormalizePath("}" + rest) == "}" + NormalizePath(rest) && FindClose("}" + rest) == 0
  {
    assert ("}" + rest)[1..] == rest;
  }

  /** Normalising neither adds nor removes the first closing brace, and keeps it in front if it is there. */
  lemma {:induction false} NormalizeClose(s: string)
    ensures FindClose(NormalizePath(s)) < |NormalizePath(s)| <==> FindClose(s) < |s|
    ensures s != "" && s[0] == '}' <==> NormalizePath(s) != "" && NormalizePath(s)[0] == '}'
    decreases |s|
  {
    if s != "" {
      var n := FindClose(s[1..]);
      if s[0] == '{' && 0 < n < |s| - 1 {
        assert NormalizePath(s)[1] == '}';
      } else {
        NormalizeClose(s[1..]);
        assert NormalizePath(s)[1..] == NormalizePath(s[1..]);
      }
    }
  }

  /** A key made from method and path is never the key of a tag group or of the overview. */
  lemma PathKeysAreApart(verb: string, path: string, tag: string)
    requires verb != "" && ('a' <= verb[0] <= 'z' || 'A' <= verb[0] <= 'Z')
    ensures ResolveOperationKey(verb, path, "") != "tag:" + tag
    ensures ResolveOperationKey(verb, path, "") != "overview"
  {
    var key := ResolveOperationKey(verb, path, "");
    assert key[0] == UpperCase(verb[0]) && key[0] <= 'Z';
    assert ("tag:" + tag)[0] == 't' && "overview"[0] == 'o';
  }

  // ---------------------------------------------------------------- deduplicateKeys

  function Count(keys: seq<string>, k: string): nat {
    if keys == [] then 0
    else Count(keys[..|keys| - 1], k) + if keys[|keys| - 1] == k then 1 else 0
  }

  /** `key_n`. */
  function Numbered(key: string, n: nat): string {
    key + "_" + Digits(n, 10)
  }

  /** The first occurrence of a key keeps it, the n-th becomes `key_n`. */
  function KeyAt(keys: seq<string>, i: nat): string
    requires i < |keys|
  {
    var n := Count(keys[..i], keys[i]);
    if n == 0 then keys[i] else Numbered(keys[i], n + 1)
  }

  predicate Distinct(keys: seq<string>) {
    forall i, j :: 0 <= i < j < |keys| ==> keys[i] != keys[j]
  }

  /** Some input key already has the form `key_n`, where the input holds `key` at least n times. */
  ghost predicate Clash(keys: seq<string>) {
    exists q, k, n: nat :: q in keys && 2 <= n <= Count(keys, k) && q == Numbered(k, n)
  }

  /** deduplicateKeys. The result is free of duplicates if and only if no input key clashes. */
  method DeduplicateKeys(keys: seq<string>) returns (result: seq<string>)
    ensures |result| == |keys|
    ensures forall i :: 0 <= i < |keys| && keys[i] !in keys[..i] ==> result[i] == keys[i]
    ensures forall i :: 0 <= i < |keys| ==>
      var earlier := multiset(keys[..i])[keys[i]];
      result[i] == if earlier == 0 then keys[i] else keys[i] + "_" + Digits(earlier + 1, 10)
    ensures forall i :: 0 <= i < |keys| ==> result[i] == KeyAt(keys, i)
    ensures Distinct(result) <==> !Clash(keys)
  {
    var seen: map<string, nat> := map[];
    result := [];
    for i := 0 to |keys|
      invariant |result| == i
      invariant forall j :: 0 <= j < i ==> result[j] == KeyAt(keys, j)
      invariant forall k :: Count(keys[..i], k) == if k in seen then seen[k] else 0
    {
      var key := keys[i];
      var count := if key in seen then seen[key] else 0;
      if count == 0 {
        result := result + [key];
      } else {
        result := result + [Numbered(key, count + 1)];
      }
      seen := seen[key := count + 1];
      CountNext(keys, i);
    }
    FirstsAreKept(keys, result);
    DistinctIffNoClash(keys, result);
    forall i | 0 <= i < |keys| ensures Count(keys[..i], keys[i]) == multiset(keys[..i])[keys[i]] {
      CountIsMultiplicity(keys[..i], keys[i]);
    }
  }

  lemma {:induction false} CountIsMultiplicity(keys: seq<string>, k: string)
    ensures Count(keys, k) == multiset(keys)[k]
  {
    if keys != [] {
      CountIsMultiplicity(keys[..|keys| - 1], k);
      assert keys == keys[..|keys| - 1] + [keys[|keys| - 1]];
    }
  }

  lemma CountNext(keys: seq<string>, i: nat)
    requires i < |keys|
    ensures forall k :: Count(keys[..i + 1], k) == Count(keys[..i], k) + if keys[i] == k then 1 else 0
  {
    assert keys[..i + 1][..i] == keys[..i];
  }

  lemma FirstsAreKept(keys: seq<string>, result: seq<string>)
    requires |result| == |keys| && forall i :: 0 <= i < |keys| ==> result[i] == KeyAt(keys, i)
    ensures forall i :: 0 <= i < |keys| && keys[i] !in keys[..i] ==> result[i] == keys[i]
  {
    forall i | 0 <= i < |keys| && keys[i] !in keys[..i] ensures result[i] == keys[i] { CountZero(keys[..i], keys[i]); }
  }

  lemma {:induction false} CountZero(keys: seq<string>, k: string)
    ensures Count(keys, k) == 0 <==> k !in keys
  {
    if keys != [] {
      var front := keys[..|keys| - 1];
      CountZero(front, k);
      assert keys == front + [keys[|keys| - 1]];
    }
  }

  lemma {:induction false} CountGrows(keys: seq<string>, i: nat, j: nat, k: string)
    requires i <= j <= |keys|
    ensures Count(keys[..i], k) <= Count(keys[..j], k)
    ensures i < j && keys[i] == k ==> Count(keys[..i], k) < Count(keys[..j], k)
    decreases j
  {
    if i < j {
      CountGrows(keys, i, j - 1, k);
      assert keys[..j][..j - 1] == keys[..j - 1];
    }
  }

  /** The n-th occurrence exists. */
  lemma {:induction false} NthOccurrence(keys: seq<string>, k: string, n: nat) returns (i: nat)
    requires 1 <= n <= Count(keys, k)
    ensures i < |keys| && keys[i] == k && Count(keys[..i], k) == n - 1
  {
    var m := |keys| - 1;
    if Count(keys[..m], k) < n {
      i := m;
    } else {
      i := NthOccurrence(keys[..m], k, n);
      assert keys[..m][..i] == keys[..i];
    }
  }

  lemma NumberedInjective(a: string, m: nat, b: string, n: nat)
    requires Numbered(a, m) == Numbered(b, n)
    ensures a == b && m == n
  {
    DigitsOnly(m, 10);
    DigitsOnly(n, 10);
    LastSeparator(a, Digits(m, 10), b, Digits(n, 10), '_');
    DigitsInjective(m, n, 10);
  }

  lemma DistinctIffNoClash(keys: seq<string>, result: seq<string>)
    requires |result| == |keys| && forall i :: 0 <= i < |keys| ==> result[i] == KeyAt(keys, i)
    ensures Distinct(result) <==> !Clash(keys)
  {
    if q, k, n: nat :| q in keys && 2 <= n <= Count(keys, k) && q == Numbered(k, n) {
      var j := NthOccurrence(keys, k, n);
      CountPositive(keys, q);
      var i := NthOccurrence(keys, q, 1);
      assert result[i] == q && result[j] == q && i != j;
      assert !Distinct(result);
    } else {
      forall i, j | 0 <= i < j < |result| ensures result[i] != result[j] {
        if result[i] == result[j] { EqualClash(keys, i, j); }
      }
    }
  }

  lemma CountPositive(keys: seq<string>, q: string)
    requires q in keys
    ensures Count(keys, q) >= 1
  {
    CountZero(keys, q);
  }

  /** Two equal results come from a clash. */
  lemma EqualClash(keys: seq<string>, i: nat, j: nat)
    requires i < j < |keys| && KeyAt(keys, i) == KeyAt(keys, j)
    ensures Clash(keys)
  {
    var m, n := Count(keys[..i], keys[i]), Count(keys[..j], keys[j]);
    assert keys[..|keys|] == keys;
    CountGrows(keys, i, |keys|, keys[i]);
    CountGrows(keys, j, |keys|, keys[j]);
    CountGrows(keys, i, j, keys[i]);
    if m == 0 && n > 0 {
      assert keys[i] in keys && keys[i] == Numbered(keys[j], n + 1);
    } else if m > 0 && n == 0 {
      assert keys[j] in keys && keys[j] == Numbered(keys[i], m + 1);
    } else if m > 0 && n > 0 {
      NumberedInjective(keys[i], m + 1, keys[j], n + 1);
    }
  }
}
