/** The .env parser of src/symphony/provisioning.ts and the printer of its env_sync step. */
module EnvFile {
  import opened Wrappers
  import opened Strings

  datatype Entry = Entry(key: string, value: string)

  /** A JavaScript Map: distinct keys in insertion order. */
  type Env = seq<Entry>

  // ---------------------------------------------------------------- lexical pieces

  predicate IsKeyStart(c: char) {
    'a' <= c <= 'z' || 'A' <= c <= 'Z' || c == '_'
  }

  predicate IsKeyChar(c: char) {
    IsKeyStart(c) || '0' <= c <= '9'
  }

  predicate IsKey(k: string) {
    |k| > 0 && IsKeyStart(k[0]) && forall i :: 0 <= i < |k| ==> IsKeyChar(k[i])
  }

  function TrimLeft(s: string): string {
    if s != "" && IsSpace(s[0]) then TrimLeft(s[1..]) else s
  }

  function TrimRight(s: string): (r: string)
    ensures r <= s
  {
    if s != "" && IsSpace(s[|s| - 1]) then TrimRight(s[..|s| - 1]) else s
  }

  /** Length of the longest run of key characters at the start. */
  function KeyRun(s: string): (n: nat)
    ensures n <= |s| && (forall i :: 0 <= i < n ==> IsKeyChar(s[i])) && (n < |s| ==> !IsKeyChar(s[n]))
  {
    if s != "" && IsKeyChar(s[0]) then 1 + KeyRun(s[1..]) else 0
  }

  /** What `.*` matches: everything before the first line terminator. */
  function DotStar(s: string): (r: string)
    ensures r <= s && forall i :: 0 <= i < |r| ==> !IsTerminator(r[i])
  {
    if s != "" && !IsTerminator(s[0]) then [s[0]] + DotStar(s[1..]) else ""
  }

  /** ENV_LINE_PATTERN. */
  function MatchLine(line: string): Option<Entry> {
    var n := KeyRun(line);
    if n > 0 && IsKeyStart(line[0]) && n < |line| && line[n] == '='
    then Some(Entry(line[..n], DotStar(line[n + 1..]))) else None
  }

  /** DANGEROUS_PATTERNS: `$(`, a backtick, `${`. */
  predicate Dangerous(v: string) {
    exists i :: 0 <= i < |v| && DangerousAt(v, i)
  }

  predicate DangerousAt(v: string, i: nat)
    requires i < |v|
  {
    v[i] == '`' || (v[i] == '$' && i + 1 < |v| && v[i + 1] in {'(', '{'})
  }

  predicate Quoted(v: string) {
    |v| > 0 && v[0] in {'"', '\''} && v[|v| - 1] == v[0]
  }

  /** value.slice(1, -1) if quoted; a lone quote character becomes empty. */
  function Unquote(v: string): string {
    if !Quoted(v) then v else if |v| == 1 then "" else v[1..|v| - 1]
  }

  function Put(env: Env, e: Entry): Env {
    if env == [] then [e] else if env[0].key == e.key then [e] + env[1..] else [env[0]] + Put(env[1..], e)
  }

  // ---------------------------------------------------------------- parser and printer

  /** One line of the file; None is the error for dangerous content. */
  function ParseLine(env: Env, raw: string): Option<Env> {
    var line := TrimRight(TrimLeft(raw));
    if line == "" || line[0] == '#' then Some(env)
    else
      match MatchLine(line)
      case None => Some(env)
      case Some(e) => if Dangerous(e.value) then None else Some(Put(env, Entry(e.key, Unquote(e.value))))
  }

  function ParseLines(env: Env, lines: seq<string>): Option<Env>
    decreases |lines|
  {
    if lines == [] then Some(env)
    else
      match ParseLine(env, lines[0])
      case None => None
      case Some(env') => ParseLines(env', lines[1..])
  }

  function Parse(content: string): Option<Env> {
    ParseLines([], Split(content, '\n'))
  }

  /** parseEnvFile. */
  method ParseEnvFile(content: string) returns (r: Option<Env>)
    ensures r == Parse(content)
    ensures r.Some? ==> WellFormed(r.value)
  {
    var env: Env := [];
    var lines := Split(content, '\n');
    for i := 0 to |lines|
      invariant ParseLines([], lines) == ParseLines(env, lines[i..])
      invariant WellFormed(env)
    {
      var line := TrimRight(TrimLeft(lines[i]));
      assert lines[i..][0] == lines[i] && lines[i..][1..] == lines[i + 1..];
      LineKeepsWellFormed(env, lines[i]);
      if line == "" || line[0] == '#' { continue; }
      var m := MatchLine(line);
      if m.None? { continue; }
      var value := m.value.value;
      if Dangerous(value) { return None; }
      env := Put(env, Entry(m.value.key, Unquote(value)));
    }
    assert lines[|lines|..] == [];
    r := Some(env);
  }

  function Line(e: Entry): string {
    e.key + "=" + e.value
  }

  function Body(env: Env): string {
    if env == [] then "" else Line(env[0]) + "\n" + Body(env[1..])
  }

  /** The text env_sync writes; an empty map is printed as one empty line. */
  function Print(env: Env): string {
    if env == [] then "\n" else Body(env)
  }

  // ---------------------------------------------------------------- what the parser returns

  predicate SafeValue(v: string) {
    !Dangerous(v) && forall i :: 0 <= i < |v| ==> !IsTerminator(v[i])
  }

  /** What every successful parse returns: distinct valid keys, and one-line values free of shell code. */
  predicate WellFormed(env: Env) {
    && (forall i :: 0 <= i < |env| ==> IsKey(env[i].key) && SafeValue(env[i].value))
    && (forall i, j :: 0 <= i < j < |env| ==> env[i].key != env[j].key)
  }

  lemma SubstringSafe(v: string, i: nat, j: nat)
    requires SafeValue(v) && i <= j <= |v|
    ensures SafeValue(v[i..j])
  {
    var w := v[i..j];
    forall k | 0 <= k < |w| ensures !DangerousAt(w, k) {
      assert !DangerousAt(v, i + k);
    }
  }

  lemma {:induction false} PutNew(env: Env, e: Entry)
    requires forall i :: 0 <= i < |env| ==> env[i].key != e.key
    ensures Put(env, e) == env + [e]
  {
    if env != [] {
      PutNew(env[1..], e);
      assert env == [env[0]] + env[1..];
    }
  }

  lemma {:induction false} PutOver(env: Env, e: Entry, i: nat)
    requires i < |env| && env[i].key == e.key && forall j :: 0 <= j < i ==> env[j].key != e.key
    ensures Put(env, e) == env[i := e]
  {
    if i > 0 {
      PutOver(env[1..], e, i - 1);
      assert env[i := e] == [env[0]] + env[1..][i - 1 := e];
    }
  }

  lemma PutKeepsWellFormed(env: Env, e: Entry)
    requires WellFormed(env) && IsKey(e.key) && SafeValue(e.value)
    ensures WellFormed(Put(env, e))
  {
    if i :| 0 <= i < |env| && env[i].key == e.key { PutOver(env, e, i); } else { PutNew(env, e); }
  }

  lemma LineKeepsWellFormed(env: Env, raw: string)
    requires WellFormed(env)
    ensures ParseLine(env, raw).Some? ==> WellFormed(ParseLine(env, raw).value)
  {
    var m := MatchLine(TrimRight(TrimLeft(raw)));
    if m.Some? && !Dangerous(m.value.value) {
      var v := m.value.value;
      SubstringSafe(v, 0, 0);
      if |v| > 1 { SubstringSafe(v, 1, |v| - 1); }
      assert Unquote(v) == v || Unquote(v) == v[0..0] || Unquote(v) == v[1..|v| - 1];
      PutKeepsWellFormed(env, Entry(m.value.key, Unquote(v)));
    }
  }

  lemma {:induction false} LinesKeepWellFormed(env: Env, lines: seq<string>)
    requires WellFormed(env)
    ensures ParseLines(env, lines).Some? ==> WellFormed(ParseLines(env, lines).value)
    decreases |lines|
  {
    if lines != [] && ParseLine(env, lines[0]).Some? {
      LineKeepsWellFormed(env, lines[0]);
      LinesKeepWellFormed(ParseLine(env, lines[0]).value, lines[1..]);
    }
  }

  // ---------------------------------------------------------------- print, then parse

  function Lines(env: Env): seq<string> {
    seq(|env|, i requires 0 <= i < |env| => Line(env[i]))
  }

  lemma {:induction false} SplitBody(env: Env)
    requires WellFormed(env)
    ensures Split(Body(env), '\n') == Lines(env) + [""]
  {
    if env != [] {
      SplitBody(env[1..]);
      SplitConcat(Line(env[0]), Body(env[1..]), '\n');
      SplitPart(Line(env[0]), '\n');
      assert Lines(env) == [Line(env[0])] + Lines(env[1..]);
    }
  }

  lemma {:induction false} TrimRightAfter(p: string, v: string)
    requires |p| > 0 && !IsSpace(p[|p| - 1])
    ensures TrimRight(p + v) == p + TrimRight(v)
  {
    if v == "" {
      assert p + v == p;
    } else {
      assert (p + v)[..|p + v| - 1] == p + v[..|v| - 1];
      if IsSpace(v[|v| - 1]) { TrimRightAfter(p, v[..|v| - 1]); }
    }
  }

  lemma {:induction false} KeyRunOf(k: string, rest: string)
    requires (forall i :: 0 <= i < |k| ==> IsKeyChar(k[i])) && (rest != "" ==> !IsKeyChar(rest[0]))
    ensures KeyRun(k + rest) == |k|
  {
    if k == "" {
      assert k + rest == rest;
    } else {
      assert (k + rest)[1..] == k[1..] + rest;
      KeyRunOf(k[1..], rest);
    }
  }

  lemma {:induction false} DotStarWhole(v: string)
    requires forall i :: 0 <= i < |v| ==> !IsTerminator(v[i])
    ensures DotStar(v) == v
  {
    if v != "" {
      DotStarWhole(v[1..]);
      assert v == [v[0]] + v[1..];
    }
  }

  /** What a value becomes when its printed line is read back. */
  function Reread(v: string): string {
    Unquote(TrimRight(v))
  }

  lemma TrimmedLine(e: Entry)
    requires IsKey(e.key)
    ensures TrimRight(TrimLeft(Line(e))) == e.key + ("=" + TrimRight(e.value))
  {
    var head := e.key + "=";
    assert Line(e) == head + e.value && Line(e)[0] == e.key[0];
    TrimRightAfter(head, e.value);
    assert head + TrimRight(e.value) == e.key + ("=" + TrimRight(e.value));
  }

  lemma MatchTrimmed(k: string, v: string)
    requires IsKey(k)
    ensures MatchLine(k + ("=" + v)) == Some(Entry(k, DotStar(v)))
  {
    var line := k + ("=" + v);
    KeyRunOf(k, "=" + v);
    assert line[..|k|] == k && line[|k| + 1..] == v && line[0] == k[0] && line[|k|] == '=';
  }

  /** What a line with a key becomes: of its trimmed value only the text before the first line terminator
      is checked and kept. */
  lemma LineIsCut(env: Env, e: Entry)
    requires IsKey(e.key)
    ensures var v := DotStar(TrimRight(e.value));
      ParseLine(env, Line(e)) == if Dangerous(v) then None else Some(Put(env, Entry(e.key, Unquote(v))))
  {
    TrimmedLine(e);
    MatchTrimmed(e.key, TrimRight(e.value));
    assert (e.key + ("=" + TrimRight(e.value)))[0] == e.key[0];
  }

  // ---------------------------------------------------------------- what a line means

  predicate AllSpace(s: string) {
    forall i :: 0 <= i < |s| ==> IsSpace(s[i])
  }

  /** White space on both sides of a line is dropped, and nothing else. */
  lemma {:induction false} TrimMeans(lead: string, body: string, trail: string)
    requires AllSpace(lead) && AllSpace(trail)
    requires body != "" ==> !IsSpace(body[0]) && !IsSpace(body[|body| - 1])
    ensures TrimRight(TrimLeft(lead + body + trail)) == body
  {
    var s := lead + body + trail;
    if lead != "" {
      assert s[1..] == lead[1..] + body + trail && s[0] == lead[0];
      TrimMeans(lead[1..], body, trail);
    } else if body != "" {
      assert s == body + trail && s[0] == body[0];
      TrimRightAfter(body, trail);
      AllTrimmed(trail);
      assert body + "" == body;
    } else {
      assert s == trail;
      AllTrimmed(trail);
    }
  }

  lemma {:induction false} AllTrimmed(s: string)
    requires AllSpace(s)
    ensures TrimRight(s) == "" && TrimLeft(s) == ""
  {
    if s != "" {
      AllTrimmed(s[..|s| - 1]);
      AllTrimmed(s[1..]);
    }
  }

  /** So white space before a line changes nothing in the parse. */
  lemma {:induction false} LeadingSpaceDoesNotCount(env: Env, lead: string, raw: string)
    requires AllSpace(lead)
    ensures ParseLine(env, lead + raw) == ParseLine(env, raw)
  {
    if lead != "" {
      assert (lead + raw)[1..] == lead[1..] + raw;
      LeadingSpaceDoesNotCount(env, lead[1..], raw);
    } else {
      assert lead + raw == raw;
    }
  }

  /** A blank line, a comment and a line without `key=` are skipped. */
  lemma SkippedLine(env: Env, lead: string, body: string, trail: string)
    requires AllSpace(lead) && AllSpace(trail)
    requires body != "" ==> !IsSpace(body[0]) && !IsSpace(body[|body| - 1])
    requires body == "" || body[0] == '#' || forall k, v :: IsKey(k) ==> body != k + ("=" + v)
    ensures ParseLine(env, lead + body + trail) == Some(env)
  {
    TrimMeans(lead, body, trail);
    var n := KeyRun(body);
    if body != "" && n > 0 && IsKeyStart(body[0]) && n < |body| && body[n] == '=' {
      assert IsKey(body[..n]) && body == body[..n] + ("=" + body[n + 1..]);
    }
  }

  /** Shell code: a backtick, `$(` or `${`. */
  ghost predicate HasShellCode(v: string) {
    exists a, b :: v == a + "`" + b || v == a + "$(" + b || v == a + "${" + b
  }

  lemma DangerIsShellCode(v: string)
    ensures Dangerous(v) <==> HasShellCode(v)
  {
    if i :| 0 <= i < |v| && DangerousAt(v, i) {
      if v[i] == '`' {
        assert v == v[..i] + "`" + v[i + 1..];
      } else {
        assert v == v[..i] + "$(" + v[i + 2..] || v == v[..i] + "${" + v[i + 2..];
      }
    }
    if a, b :| v == a + "`" + b || v == a + "$(" + b || v == a + "${" + b {
      assert DangerousAt(v, |a|);
    }
  }

  /** One pair of quotes around a value is removed, whatever is between them; a value without is kept. */
  lemma UnquoteMeans(x: string)
    ensures Unquote("\"" + x + "\"") == x && Unquote("'" + x + "'") == x
    ensures (forall y :: x != "\"" + y + "\"" && x != "'" + y + "'") && x != "\"" && x != "'" ==> Unquote(x) == x
  {
    assert ("\"" + x + "\"")[1..|x| + 1] == x && ("'" + x + "'")[1..|x| + 1] == x;
    if Quoted(x) && |x| > 1 {
      var y := x[1..|x| - 1];
      assert x == [x[0]] + y + [x[0]];
    }
  }

  /** A line `key=value`, white space around it aside: the value up to the first line terminator is refused
      if it holds shell code, and otherwise put under the key, without its quotes. */
  lemma AssignmentLine(env: Env, lead: string, k: string, v: string, rest: string, trail: string)
    requires AllSpace(lead) && AllSpace(trail) && IsKey(k)
    requires (forall i :: 0 <= i < |v| ==> !IsTerminator(v[i])) && (rest != "" ==> IsTerminator(rest[0]))
    requires v + rest != "" ==> !IsSpace((v + rest)[|v + rest| - 1])
    ensures ParseLine(env, lead + (k + ("=" + (v + rest))) + trail) ==
      if HasShellCode(v) then None else Some(Put(env, Entry(k, Unquote(v))))
  {
    var body := k + ("=" + (v + rest));
    assert body[0] == k[0] && body[|body| - 1] == (if v + rest == "" then '=' else (v + rest)[|v + rest| - 1]);
    TrimMeans(lead, body, trail);
    MatchTrimmed(k, v + rest);
    CutAt(v, rest);
    DangerIsShellCode(v);
  }

  lemma {:induction false} CutAt(v: string, rest: string)
    requires (forall i :: 0 <= i < |v| ==> !IsTerminator(v[i])) && (rest != "" ==> IsTerminator(rest[0]))
    ensures DotStar(v + rest) == v
  {
    if v == "" {
      assert v + rest == rest;
    } else {
      assert (v + rest)[1..] == v[1..] + rest;
      CutAt(v[1..], rest);
      assert v == [v[0]] + v[1..];
    }
  }

  lemma RereadLine(env: Env, e: Entry)
    requires IsKey(e.key) && SafeValue(e.value)
    ensures ParseLine(env, Line(e)) == Some(Put(env, Entry(e.key, Reread(e.value))))
  {
    var v := TrimRight(e.value);
    assert v == e.value[0..|v|];
    SubstringSafe(e.value, 0, |v|);
    DotStarWhole(v);
    LineIsCut(env, e);
  }

  // ---------------------------------------------------------------- values of several lines

  lemma {:induction false} DotStarStops(v: string)
    ensures |DotStar(v)| < |v| ==> IsTerminator(v[|DotStar(v)|])
  {
    if v != "" && !IsTerminator(v[0]) { DotStarStops(v[1..]); }
  }

  /** The parser accepts a line if and only if every piece of shell code in its value comes after a line
      terminator; and it keeps the whole value, before unquoting, if and only if there is no terminator in
      it. So a carriage return, U+2028 or U+2029 hides whatever follows it, and drops it. */
  lemma TerminatorHidesRest(env: Env, e: Entry)
    requires IsKey(e.key)
    ensures var v := TrimRight(e.value);
      && (ParseLine(env, Line(e)).Some? <==> forall i :: !Exposed(v, i))
      && (DotStar(v) == v <==> forall i :: 0 <= i < |v| ==> !IsTerminator(v[i]))
  {
    var v := TrimRight(e.value);
    LineIsCut(env, e);
    DangerBeforeCut(v);
    if forall i :: 0 <= i < |v| ==> !IsTerminator(v[i]) { DotStarWhole(v); }
  }

  /** Shell code with no line terminator before it. */
  predicate Exposed(v: string, i: nat) {
    i < |v| && DangerousAt(v, i) && forall j :: 0 <= j < i ==> !IsTerminator(v[j])
  }

  lemma ExposedIsKept(v: string, i: nat)
    ensures Exposed(v, i) <==> i < |DotStar(v)| && DangerousAt(DotStar(v), i)
  {
    DotStarStops(v);
    var n := |DotStar(v)|;
    assert n < |v| ==> IsTerminator(v[n]);
    assert forall j :: 0 <= j < n ==> v[j] == DotStar(v)[j];
  }

  lemma DangerBeforeCut(v: string)
    ensures Dangerous(DotStar(v)) <==> exists i :: Exposed(v, i)
  {
    forall i: nat ensures Exposed(v, i) <==> i < |DotStar(v)| && DangerousAt(DotStar(v), i) { ExposedIsKept(v, i); }
  }

  /** Whatever follows a carriage return, shell code included, is neither refused nor kept. */
  lemma HiddenTail(key: string, v: string, tail: string)
    requires IsKey(key) && SafeValue(v) && tail != "" && !IsSpace(tail[|tail| - 1]) && '\n' !in tail
    ensures Parse(key + "=" + (v + ("\r" + tail))) == Some([Entry(key, Unquote(v))])
  {
    var e := Entry(key, v + ("\r" + tail));
    OneLine(e, v, tail);
    ParseOneLine(Line(e));
    DotStarUpTo(v, "\r" + tail);
    LineIsCut([], e);
  }

  lemma ParseOneLine(line: string)
    requires '\n' !in line
    ensures Parse(line) == ParseLine([], line)
  {
    SplitPart(line, '\n');
    var r := ParseLine([], line);
    assert [line][0] == line;
    if r.Some? {
      ParseLinesCons([], line, [], r.value);
      assert [line] + [] == [line];
    }
  }

  lemma OneLine(e: Entry, v: string, tail: string)
    requires IsKey(e.key) && e.value == v + ("\r" + tail) && SafeValue(v) && '\n' !in tail
    requires tail != "" && !IsSpace(tail[|tail| - 1])
    ensures '\n' !in Line(e) && TrimRight(e.value) == e.value
  {
    assert e.value[|e.value| - 1] == tail[|tail| - 1];
    forall c | c in Line(e) ensures c != '\n' {
      if c in e.key { var i :| 0 <= i < |e.key| && e.key[i] == c; assert IsKeyChar(e.key[i]); }
      else if c in v { var i :| 0 <= i < |v| && v[i] == c; assert !IsTerminator(v[i]); }
    }
  }

  lemma {:induction false} DotStarUpTo(v: string, rest: string)
    requires (forall i :: 0 <= i < |v| ==> !IsTerminator(v[i])) && rest != "" && IsTerminator(rest[0])
    ensures DotStar(v + rest) == v
  {
    if v == "" {
      assert v + rest == rest;
    } else {
      assert (v + rest)[1..] == v[1..] + rest;
      DotStarUpTo(v[1..], rest);
    }
  }

  function RereadAll(env: Env): Env {
    seq(|env|, i requires 0 <= i < |env| => Entry(env[i].key, Reread(env[i].value)))
  }

  lemma ParseLinesCons(done: Env, line: string, rest: seq<string>, next: Env)
    requires ParseLine(done, line) == Some(next)
    ensures ParseLines(done, [line] + rest) == ParseLines(next, rest)
  {
    assert ([line] + rest)[0] == line && ([line] + rest)[1..] == rest;
  }

  ghost predicate NoSharedKey(a: Env, b: Env) {
    forall i, j :: 0 <= i < |a| && 0 <= j < |b| ==> a[i].key != b[j].key
  }

  lemma RereadFirst(done: Env, env: Env)
    requires WellFormed(env) && env != [] && NoSharedKey(done, env)
    ensures var done' := done + [Entry(env[0].key, Reread(env[0].value))];
      && ParseLines(done, Lines(env) + [""]) == ParseLines(done', Lines(env[1..]) + [""])
      && WellFormed(env[1..]) && NoSharedKey(done', env[1..])
      && done' + RereadAll(env[1..]) == done + RereadAll(env)
  {
    var e, rest := Entry(env[0].key, Reread(env[0].value)), env[1..];
    RereadLine(done, env[0]);
    PutNew(done, e);
    ParseLinesCons(done, Line(env[0]), Lines(rest) + [""], done + [e]);
    FirstApart(done, env);
  }

  lemma FirstApart(done: Env, env: Env)
    requires env != []
    ensures Lines(env) + [""] == [Line(env[0])] + (Lines(env[1..]) + [""])
    ensures (done + [Entry(env[0].key, Reread(env[0].value))]) + RereadAll(env[1..]) == done + RereadAll(env)
  {
    assert Lines(env) == [Line(env[0])] + Lines(env[1..]);
    assert RereadAll(env) == [Entry(env[0].key, Reread(env[0].value))] + RereadAll(env[1..]);
  }

  lemma {:induction false} RereadLines(done: Env, env: Env)
    requires WellFormed(env) && NoSharedKey(done, env)
    ensures ParseLines(done, Lines(env) + [""]) == Some(done + RereadAll(env))
    decreases |env|
  {
    if env == [] {
      assert Lines(env) + [""] == [""] + [] && done + RereadAll(env) == done;
      ParseLinesCons(done, "", [], done);
    } else {
      RereadFirst(done, env);
      RereadLines(done + [Entry(env[0].key, Reread(env[0].value))], env[1..]);
    }
  }

  /** Reading back what env_sync wrote never fails and keeps every key in its place; only values
      change, each by losing trailing white space and then one pair of quotes. */
  lemma PrintThenParse(env: Env)
    requires WellFormed(env)
    ensures Parse(Print(env)) == Some(RereadAll(env))
  {
    if env == [] {
      assert Split("\n", '\n') == ["", ""] by { SplitConcat("", "", '\n'); assert "" + "\n" + "" == "\n"; }
      assert ["", ""][1..] == [""] && [""][1..] == [];
      assert ParseLine([], "") == Some([]);
      assert RereadAll(env) == [];
    } else {
      SplitBody(env);
      RereadLines([], env);
      assert [] + RereadAll(env) == RereadAll(env);
    }
  }

  predicate Stable(v: string) {
    (v == "" || !IsSpace(v[|v| - 1])) && !Quoted(v)
  }

  lemma RereadIffStable(v: string)
    ensures Reread(v) == v <==> Stable(v)
  {
    var t := TrimRight(v);
    assert t <= v;
    if v != "" && IsSpace(v[|v| - 1]) { assert |TrimRight(v)| <= |v| - 1; }
  }

  /** The round trip: the .env file written for a parsed file parses to the same ordered map if and
      only if no value ends in white space or still starts and ends with the same quote. */
  lemma RoundTrip(content: string)
    requires Parse(content).Some?
    ensures var env := Parse(content).value;
      Parse(Print(env)) == Some(env) <==> forall i :: 0 <= i < |env| ==> Stable(env[i].value)
  {
    var env := Parse(content).value;
    LinesKeepWellFormed([], Split(content, '\n'));
    PrintThenParse(env);
    forall i | 0 <= i < |env| ensures Stable(env[i].value) <==> RereadAll(env)[i] == env[i] {
      RereadIffStable(env[i].value);
    }
    if forall i :: 0 <= i < |env| ==> Stable(env[i].value) { assert RereadAll(env) == env; }
  }

  /** The condition can fail: a value in two layers of quotes comes back with one, which the next
      reading removes. */
  lemma NestedQuotesDoNotSurvive(key: string) returns (content: string)
    requires IsKey(key)
    ensures Parse(content) == Some([Entry(key, "'x'")]) && Parse(Print([Entry(key, "'x'")])) == Some([Entry(key, "x")])
  {
    var twice := "\"'x'\"";
    assert forall i :: 0 <= i < |twice| ==> !DangerousAt(twice, i);
    SubstringSafe(twice, 1, 4);
    assert twice[1..4] == "'x'";
    content := Print([Entry(key, twice)]);
    PrintThenParse([Entry(key, twice)]);
    PrintThenParse([Entry(key, "'x'")]);
    assert Reread(twice) == "'x'" && Reread("'x'") == "x";
    assert RereadAll([Entry(key, twice)]) == [Entry(key, "'x'")];
    assert RereadAll([Entry(key, "'x'")]) == [Entry(key, "x")];
  }
}
