/** Path validation of src/symphony/provisioning.ts: normalizePath and validatePath work on strings; what
    they are for is the tree of path segments. */
module Paths {
  import opened Strings

  predicate Named(p: string) {
    p != "" && p != "."
  }

  function Filter(parts: seq<string>): (r: seq<string>)
    ensures forall p :: p in r <==> p in parts && Named(p)
  {
    if parts == [] then []
    else if Named(parts[0]) then [parts[0]] + Filter(parts[1..]) else Filter(parts[1..])
  }

  predicate Absolute(path: string) {
    path != "" && path[0] == '/'
  }

  /** The named segments of a path. */
  function Segments(path: string): (r: seq<string>)
    ensures Clean(r)
  {
    Filter(Split(path, '/'))
  }

  predicate Clean(parts: seq<string>) {
    forall p :: p in parts ==> Named(p) && '/' !in p
  }

  function NormalizePath(path: string): string {
    var joined := Join(Segments(path), '/');
    var result := if Absolute(path) then "/" + joined else joined;
    if result == "" then "/" else result
  }

  datatype Verdict = Accepted(path: string) | Traversal | Outside

  function ValidatePath(path: string, parent: string): Verdict {
    if ".." in Split(path, '/') then Traversal
    else
      var n, p := NormalizePath(path), NormalizePath(parent);
      if !(p + "/" <= n) && n != p then Outside else Accepted(n)
  }

  // ---------------------------------------------------------------- normal form

  lemma {:induction false} FilterClean(parts: seq<string>)
    requires Clean(parts)
    ensures Filter(parts) == parts
  {
    if parts != [] { FilterClean(parts[1..]); }
  }

  lemma JoinStart(parts: seq<string>)
    requires Clean(parts) && parts != []
    ensures Join(parts, '/') != "" && Join(parts, '/')[0] != '/'
  {
    assert parts[0] in parts && parts[0][0] in parts[0];
  }

  // ---------------------------------------------------------------- what the functions are for

  /** Normalising keeps the segments and whether the path is absolute, except that an empty relative path
      becomes the root; and normalising again changes nothing. */
  lemma NormalizeKeepsMeaning(path: string)
    ensures Segments(NormalizePath(path)) == Segments(path)
    ensures Absolute(NormalizePath(path)) <==> Absolute(path) || Segments(path) == []
    ensures NormalizePath(NormalizePath(path)) == NormalizePath(path)
  {
    var parts := Segments(path);
    FilterClean(parts);
    if parts == [] {
      assert Split("/", '/') == [""] + Split("", '/') by { assert "/"[1..] == ""; }
      assert Filter([""] + [""]) == [] by { assert ([""] + [""])[1..] == [""]; }
    } else {
      JoinStart(parts);
      SplitJoin(parts, '/');
      if Absolute(path) {
        assert ("/" + Join(parts, '/'))[1..] == Join(parts, '/');
        assert ([""] + parts)[1..] == parts;
      }
    }
  }

  /** Joined segments: a string prefix up to a slash is a prefix of segments. */
  lemma PrefixOfSegments(p: seq<string>, s: seq<string>)
    requires Clean(p) && Clean(s) && p != []
    ensures Join(p, '/') + "/" <= Join(s, '/') <==> p < s
    ensures Join(p, '/') == Join(s, '/') <==> p == s
  {
    SplitJoin(p, '/');
    JoinStart(p);
    if s != [] { SplitJoin(s, '/'); }
    if Join(p, '/') + "/" <= Join(s, '/') { TextPrefix(p, s); }
    if p < s { SegmentPrefix(p, s); }
  }

  lemma TextPrefix(p: seq<string>, s: seq<string>)
    requires Clean(p) && Clean(s) && p != [] && Join(p, '/') + "/" <= Join(s, '/')
    ensures p < s
  {
    SplitJoin(p, '/');
    SplitJoin(s, '/');
    var rest := Join(s, '/')[|Join(p, '/')| + 1..];
    assert Join(s, '/') == Join(p, '/') + ['/'] + rest;
    SplitConcat(Join(p, '/'), rest, '/');
  }

  lemma SegmentPrefix(p: seq<string>, s: seq<string>)
    requires p != [] && p < s
    ensures Join(p, '/') + "/" <= Join(s, '/')
  {
    assert s == p + s[|p|..];
    JoinConcat(p, s[|p|..], '/');
  }

  /** validatePath accepts a path if and only if it has no `..` segment and is its parent or lies below it
      in the tree: both absolute or both relative, and the parent's segments a prefix of its own. Under the
      root it should accept every absolute path, but accepts only the root itself. */
  lemma AcceptsExactly(path: string, parent: string)
    ensures
      var s, p := Segments(path), Segments(parent);
      ValidatePath(path, parent).Accepted? <==>
        && ".." !in Split(path, '/')
        && if p == [] then s == [] else (Absolute(path) <==> Absolute(parent)) && p <= s
    ensures ValidatePath(path, parent).Traversal? <==> ".." in Split(path, '/')
    ensures ValidatePath(path, parent).Accepted? ==> ValidatePath(path, parent).path == NormalizePath(path)
  {
    NormalizeIsText(path);
    NormalizeIsText(parent);
    Comparison(Absolute(path), Segments(path), Absolute(parent), Segments(parent));
  }

  lemma NormalizeIsText(path: string)
    ensures NormalizePath(path) == Text(Absolute(path), Segments(path))
  {
    var parts := Segments(path);
    if parts == [] { assert "/" + Join(parts, '/') == "/"; } else { JoinStart(parts); }
  }

  /** A normalised path from its parts. */
  function Text(absolute: bool, parts: seq<string>): string {
    if parts == [] then "/" else if absolute then "/" + Join(parts, '/') else Join(parts, '/')
  }

  lemma Comparison(a: bool, s: seq<string>, b: bool, p: seq<string>)
    requires Clean(s) && Clean(p)
    ensures Text(b, p) + "/" <= Text(a, s) || Text(a, s) == Text(b, p) <==>
      if p == [] then s == [] else a == b && p <= s
  {
    if s != [] { JoinStart(s); }
    if p != [] { JoinStart(p); }
    if p != [] && s != [] && a == b {
      SameKind(a, s, p);
    } else if p != [] && s != [] {
      assert Text(a, s)[0] != Text(b, p)[0];
    } else if s == [] && p != [] {
      assert !b ==> Text(b, p)[0] != '/';
      assert |Text(b, p) + "/"| >= 2;
    } else if s != [] {
      var t := Text(a, s);
      assert if a then t[1] == Join(s, '/')[0] else t[0] == Join(s, '/')[0];
      assert Text(b, p) + "/" == "//" && "//"[0] == '/' && "//"[1] == '/';
    }
  }

  lemma SameKind(a: bool, s: seq<string>, p: seq<string>)
    requires Clean(s) && Clean(p) && s != [] && p != []
    ensures Text(a, p) + "/" <= Text(a, s) || Text(a, s) == Text(a, p) <==> p <= s
  {
    PrefixOfSegments(p, s);
    if a {
      SlashPrefix(Join(p, '/') + "/", Join(s, '/'));
      SlashPrefix(Join(p, '/'), Join(s, '/'));
      assert Text(a, p) + "/" == "/" + (Join(p, '/') + "/");
    }
  }

  lemma SlashPrefix(a: string, b: string)
    ensures "/" + a <= "/" + b <==> a <= b
    ensures "/" + a == "/" + b <==> a == b
  {
    assert ("/" + a)[1..] == a && ("/" + b)[1..] == b;
    if a <= b { assert "/" + b == "/" + a + b[|a|..]; }
    if "/" + a <= "/" + b { assert b[..|a|] == ("/" + b)[1..1 + |a|]; }
  }
}
