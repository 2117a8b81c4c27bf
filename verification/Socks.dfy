/** The SOCKS5 request decoder of the dynamic tunnel (src/tmux-worker/tunnel-handlers.ts), against the request
    format of RFC 1928, sections 4 to 6. One `data` event is taken to be one message. */
module Socks {
  import opened Strings
  import Utf8

  type byte = Utf8.byte

  // ---------------------------------------------------------------- the format

  datatype Target = IPv4(address: seq<byte>) | Name(bytes: seq<byte>) | IPv6(words: seq<nat>)

  predicate Valid(t: Target) {
    match t
    case IPv4(address) => |address| == 4
    case Name(bytes) => |bytes| < 256
    case IPv6(words) => |words| == 8 && forall i :: 0 <= i < 8 ==> words[i] < 65536
  }

  /** Big-endian, as readUInt16BE. */
  function Word(hi: byte, lo: byte): (w: nat)
    ensures w < 65536
  {
    256 * hi + lo
  }

  function Bytes(w: nat): (b: seq<byte>)
    requires w < 65536
    ensures |b| == 2 && Word(b[0], b[1]) == w
  {
    [w / 256, w % 256]
  }

  function WordBytes(words: seq<nat>): (b: seq<byte>)
    requires forall i :: 0 <= i < |words| ==> words[i] < 65536
    ensures |b| == 2 * |words|
    ensures forall i :: 0 <= i < |words| ==> Word(b[2 * i], b[2 * i + 1]) == words[i]
  {
    if words == [] then [] else WordBytes(words[..|words| - 1]) + Bytes(words[|words| - 1])
  }

  /** Address type, then the address. */
  function AddressBytes(t: Target): seq<byte>
    requires Valid(t)
  {
    match t
    case IPv4(address) => [1] + address
    case Name(bytes) => [3, |bytes|] + bytes
    case IPv6(words) => [4] + WordBytes(words)
  }

  /** A CONNECT request. */
  function Request(t: Target, port: nat, reserved: byte): seq<byte>
    requires Valid(t) && port < 65536
  {
    [5, 1, reserved] + AddressBytes(t) + Bytes(port)
  }

  // ---------------------------------------------------------------- the decoder

  /** The host handed to forwardOut is a string, whatever the address type. */
  datatype Answer = Connect(host: string, port: nat) | Reply(code: byte)

  const GENERAL_FAILURE: byte := 1
  const COMMAND_NOT_SUPPORTED: byte := 7
  const ADDRESS_NOT_SUPPORTED: byte := 8

  function DottedQuad(a: seq<byte>): string
    requires |a| == 4
  {
    Join([Digits(a[0], 10), Digits(a[1], 10), Digits(a[2], 10), Digits(a[3], 10)], '.')
  }

  function HexGroups(words: seq<nat>): string {
    Join(seq(|words|, i requires 0 <= i < |words| => Digits(words[i], 16)), ':')
  }

  function WordsAt(r: seq<byte>, offset: nat, n: nat): seq<nat>
    requires offset + 2 * n <= |r|
  {
    seq(n, i requires 0 <= i < n => Word(r[offset + 2 * i], r[offset + 2 * i + 1]))
  }

  function DecodeName(r: seq<byte>): Answer {
    if |r| < 5 then Reply(GENERAL_FAILURE)
    else
      var end: nat := 5 + r[4] as int;
      if |r| < end + 2 then Reply(GENERAL_FAILURE) else Connect(Utf8.Decode(r[5..end]), Word(r[end], r[end + 1]))
  }

  function Decode(r: seq<byte>): Answer {
    if |r| < 4 then Reply(GENERAL_FAILURE)
    else if r[0] != 5 || r[1] != 1 then Reply(COMMAND_NOT_SUPPORTED)
    else if r[3] == 1 then
      if |r| < 10 then Reply(GENERAL_FAILURE) else Connect(DottedQuad(r[4..8]), Word(r[8], r[9]))
    else if r[3] == 3 then DecodeName(r)
    else if r[3] == 4 then
      if |r| < 22 then Reply(GENERAL_FAILURE) else Connect(HexGroups(WordsAt(r, 4, 8)), Word(r[20], r[21]))
    else Reply(ADDRESS_NOT_SUPPORTED)
  }

  // ---------------------------------------------------------------- round trip

  function HostOf(t: Target): string
    requires Valid(t)
  {
    match t
    case IPv4(address) => DottedQuad(address)
    case Name(bytes) => Utf8.Decode(bytes)
    case IPv6(words) => HexGroups(words)
  }

  /** How addresses are written: four decimal numbers with dots, or eight hexadecimal ones with colons, in
      the order of the bytes. */
  lemma HostIsWritten(t: Target)
    requires Valid(t)
    ensures t.IPv4? ==>
      HostOf(t) == Digits(t.address[0], 10) + "." + Digits(t.address[1], 10) + "." + Digits(t.address[2], 10)
                   + "." + Digits(t.address[3], 10)
    ensures t.IPv6? ==>
      HostOf(t) == Digits(t.words[0], 16) + ":" + Digits(t.words[1], 16) + ":" + Digits(t.words[2], 16)
                   + ":" + Digits(t.words[3], 16) + ":" + Digits(t.words[4], 16) + ":" + Digits(t.words[5], 16)
                   + ":" + Digits(t.words[6], 16) + ":" + Digits(t.words[7], 16)
  {
    if t.IPv4? {
      var a := t.address;
      JoinFour([Digits(a[0], 10), Digits(a[1], 10), Digits(a[2], 10), Digits(a[3], 10)], '.');
    } else if t.IPv6? {
      var parts := seq(|t.words|, i requires 0 <= i < |t.words| => Digits(t.words[i], 16));
      JoinEight(parts[..4], parts[4..], ':');
      assert parts[..4] + parts[4..] == parts;
    }
  }

  lemma JoinFour(p: seq<string>, sep: char)
    requires |p| == 4
    ensures Join(p, sep) == p[0] + [sep] + p[1] + [sep] + p[2] + [sep] + p[3]
  {
    assert p[1..][1..] == p[2..] && p[2..][1..] == p[3..];
    assert Join(p[2..], sep) == p[2] + [sep] + p[3];
    assert Join(p[1..], sep) == p[1] + [sep] + (p[2] + [sep] + p[3]);
  }

  lemma JoinEight(p: seq<string>, q: seq<string>, sep: char)
    requires |p| == |q| == 4
    ensures Join(p + q, sep) ==
      p[0] + [sep] + p[1] + [sep] + p[2] + [sep] + p[3] + [sep] + q[0] + [sep] + q[1] + [sep] + q[2] + [sep] + q[3]
  {
    JoinConcat(p, q, sep);
    JoinFour(p, sep);
    JoinFour(q, sep);
  }

  /** Every well-formed request is decoded to its target and port, whatever follows it in the same event. */
  lemma RequestIsDecoded(t: Target, port: nat, reserved: byte, more: seq<byte>)
    requires Valid(t) && port < 65536
    ensures Decode(Request(t, port, reserved) + more) == Connect(HostOf(t), port)
  {
    var r := Request(t, port, reserved) + more;
    Layout(r, [5, 1, reserved], AddressBytes(t), Bytes(port), more);
    match t
    case IPv4(_) => QuadDecoded(r, t, port);
    case Name(_) => NameDecoded(r, t, port);
    case IPv6(_) => GroupsDecoded(r, t, port);
  }

  /** Where the parts of a request lie. */
  predicate LaidOut(r: seq<byte>, address: seq<byte>, port: nat)
    requires port < 65536
  {
    && 5 + |address| <= |r| && r[0] == 5 && r[1] == 1 && r[3..3 + |address|] == address
    && r[3 + |address|] == Bytes(port)[0] && r[4 + |address|] == Bytes(port)[1]
  }

  lemma Layout(r: seq<byte>, head: seq<byte>, address: seq<byte>, port: seq<byte>, more: seq<byte>)
    requires |head| == 3 && |port| == 2 && r == head + address + port + more
    ensures r[0] == head[0] && r[1] == head[1] && r[3..3 + |address|] == address
    ensures r[3 + |address|] == port[0] && r[4 + |address|] == port[1]
  {
  }

  lemma QuadDecoded(r: seq<byte>, t: Target, port: nat)
    requires Valid(t) && t.IPv4? && port < 65536 && LaidOut(r, AddressBytes(t), port)
    ensures Decode(r) == Connect(HostOf(t), port)
  {
    var address := r[3..8];
    assert r[3] == address[0] && r[4..8] == address[1..];
    assert ([1] + t.address)[1..] == t.address;
  }

  lemma NameDecoded(r: seq<byte>, t: Target, port: nat)
    requires Valid(t) && t.Name? && port < 65536 && LaidOut(r, AddressBytes(t), port)
    ensures Decode(r) == Connect(HostOf(t), port)
  {
    var end: nat := 5 + |t.bytes|;
    var address := r[3..end];
    assert r[3] == address[0] && r[4] == address[1] && r[5..end] == address[2..];
    assert ([3, |t.bytes|] + t.bytes)[2..] == t.bytes;
  }

  lemma GroupsDecoded(r: seq<byte>, t: Target, port: nat)
    requires Valid(t) && t.IPv6? && port < 65536 && LaidOut(r, AddressBytes(t), port)
    ensures Decode(r) == Connect(HostOf(t), port)
  {
    var address := r[3..20];
    assert r[3] == address[0] && r[4..20] == address[1..];
    assert ([4] + WordBytes(t.words))[1..] == WordBytes(t.words);
    SixteenBytes(r, t.words);
  }

  lemma SixteenBytes(r: seq<byte>, words: seq<nat>)
    requires |r| >= 20 && Valid(IPv6(words)) && r[4..20] == WordBytes(words)
    ensures WordsAt(r, 4, 8) == words
  {
    var b := r[4..20];
    assert forall i :: 0 <= i < 16 ==> b[i] == r[4 + i];
  }

  /** Only well-formed requests lead to a connection. */
  lemma ConnectIsRequested(r: seq<byte>) returns (t: Target, port: nat, more: seq<byte>)
    requires Decode(r).Connect?
    ensures Valid(t) && port < 65536 && r == Request(t, port, r[2]) + more
    ensures Decode(r) == Connect(HostOf(t), port)
  {
    if r[3] == 1 {
      t, port, more := IPv4(r[4..8]), Word(r[8], r[9]), r[10..];
      Reassembled(r, 8, r[4..8]);
    } else if r[3] == 3 {
      t, port, more := NameRequested(r);
    } else {
      t, port, more := IPv6(WordsAt(r, 4, 8)), Word(r[20], r[21]), r[22..];
      WordsBack(r[4..20], WordsAt(r, 4, 8));
      Reassembled(r, 20, r[4..20]);
    }
  }

  lemma NameRequested(r: seq<byte>) returns (t: Target, port: nat, more: seq<byte>)
    requires Decode(r).Connect? && r[3] == 3
    ensures Valid(t) && port < 65536 && r == Request(t, port, r[2]) + more
    ensures Decode(r) == Connect(HostOf(t), port)
  {
    var end: nat := 5 + r[4] as int;
    t, port, more := Name(r[5..end]), Word(r[end], r[end + 1]), r[end + 2..];
    Reassembled(r, end, [r[4]] + r[5..end]);
    assert [3] + ([r[4]] + r[5..end]) == [3, r[4]] + r[5..end];
  }

  /** Header, address, port and the rest make up the message. */
  lemma Reassembled(r: seq<byte>, end: nat, address: seq<byte>)
    requires 4 <= end && end + 2 <= |r| && r[0] == 5 && r[1] == 1 && address == r[4..end]
    ensures r == [5, 1, r[2]] + ([r[3]] + address) + Bytes(Word(r[end], r[end + 1])) + r[end + 2..]
  {
    WordInjective(r[end], r[end + 1], Bytes(Word(r[end], r[end + 1])));
  }

  lemma WordInjective(hi: byte, lo: byte, b: seq<byte>)
    requires |b| == 2 && Word(b[0], b[1]) == Word(hi, lo)
    ensures b == [hi, lo]
  {
  }

  lemma WordsBack(b: seq<byte>, words: seq<nat>)
    requires |b| == 2 * |words| && forall i :: 0 <= i < |words| ==> words[i] == Word(b[2 * i], b[2 * i + 1])
    ensures (forall i :: 0 <= i < |words| ==> words[i] < 65536) && WordBytes(words) == b
  {
    var c := WordBytes(words);
    forall i | 0 <= i < |words| ensures c[2 * i] == b[2 * i] && c[2 * i + 1] == b[2 * i + 1] {
      WordInjective(b[2 * i], b[2 * i + 1], [c[2 * i], c[2 * i + 1]]);
    }
    Pairwise(b, c, |words|);
  }

  lemma {:induction false} Pairwise(b: seq<byte>, c: seq<byte>, n: nat)
    requires |b| == |c| == 2 * n
    requires forall i :: 0 <= i < n ==> c[2 * i] == b[2 * i] && c[2 * i + 1] == b[2 * i + 1]
    ensures b == c
  {
    if n > 0 {
      var m := n - 1;
      var b', c' := b[..2 * m], c[..2 * m];
      Pairwise(b', c', m);
      assert c[2 * m] == b[2 * m] && c[2 * m + 1] == b[2 * m + 1];
      assert b == b' + [b[2 * m], b[2 * m + 1]] && c == c' + [c[2 * m], c[2 * m + 1]];
    }
  }

  /** A request that arrives in two pieces is refused: its first piece alone is a general failure. */
  lemma PieceIsRefused(t: Target, port: nat, reserved: byte, n: nat)
    requires Valid(t) && port < 65536 && n < |Request(t, port, reserved)|
    ensures Decode(Request(t, port, reserved)[..n]) == Reply(GENERAL_FAILURE)
  {
    var r := Request(t, port, reserved);
    assert n >= 4 ==> r[..n][0] == 5 && r[..n][1] == 1 && r[..n][3] == AddressBytes(t)[0];
    assert t.Name? && n >= 5 ==> r[..n][4] as int == |t.bytes|;
  }

  /** The reply code names the first fault: too short, not a CONNECT of version 5, unknown address type. */
  lemma ReplyNamesFault(r: seq<byte>)
    requires Decode(r).Reply?
    ensures Decode(r).code == COMMAND_NOT_SUPPORTED <==> |r| >= 4 && !([5, 1] <= r)
    ensures Decode(r).code == ADDRESS_NOT_SUPPORTED <==> |r| >= 4 && [5, 1] <= r && r[3] !in {1, 3, 4}
    ensures Decode(r).code in {GENERAL_FAILURE, COMMAND_NOT_SUPPORTED, ADDRESS_NOT_SUPPORTED}
  {
  }

  // ---------------------------------------------------------------- no two targets look alike

  lemma {:induction false} DigitsHaveNoMark(n: nat, base: nat, mark: char)
    requires base in {10, 16} && mark in {'.', ':'}
    ensures mark !in Digits(n, base)
  {
    DigitsOnly(n, base);
  }

  lemma JoinInjective(a: seq<string>, b: seq<string>, sep: char)
    requires a != [] && b != [] && (forall p :: p in a ==> sep !in p) && (forall p :: p in b ==> sep !in p)
    requires Join(a, sep) == Join(b, sep)
    ensures a == b
  {
    SplitJoin(a, sep);
    SplitJoin(b, sep);
  }

  lemma QuadInjective(a: seq<byte>, b: seq<byte>)
    requires |a| == 4 && |b| == 4 && DottedQuad(a) == DottedQuad(b)
    ensures a == b
  {
    var x := [Digits(a[0], 10), Digits(a[1], 10), Digits(a[2], 10), Digits(a[3], 10)];
    var y := [Digits(b[0], 10), Digits(b[1], 10), Digits(b[2], 10), Digits(b[3], 10)];
    forall i | 0 <= i < 4 ensures '.' !in x[i] && '.' !in y[i] {
      DigitsHaveNoMark(a[i], 10, '.');
      DigitsHaveNoMark(b[i], 10, '.');
    }
    JoinInjective(x, y, '.');
    forall i | 0 <= i < 4 ensures a[i] == b[i] {
      assert x[i] == y[i];
      DigitsInjective(a[i], b[i], 10);
    }
  }

  lemma GroupsInjective(a: seq<nat>, b: seq<nat>)
    requires |a| == |b| > 0 && HexGroups(a) == HexGroups(b)
    ensures a == b
  {
    var x := seq(|a|, i requires 0 <= i < |a| => Digits(a[i], 16));
    var y := seq(|b|, i requires 0 <= i < |b| => Digits(b[i], 16));
    forall i | 0 <= i < |a| ensures ':' !in x[i] && ':' !in y[i] {
      DigitsHaveNoMark(a[i], 16, ':');
      DigitsHaveNoMark(b[i], 16, ':');
    }
    JoinInjective(x, y, ':');
    forall i | 0 <= i < |a| ensures a[i] == b[i] {
      assert x[i] == y[i];
      DigitsInjective(a[i], b[i], 16);
    }
  }

  /** The name that is written as the other target's address. */
  predicate Spells(name: Target, t: Target)
    requires Valid(t)
  {
    name.Name? && !t.Name? && name.bytes == Utf8.Encode(HostOf(t))
  }

  /** Two different names with the same text; it holds a replacement character, as at most one is well-formed. */
  predicate Collapse(t: Target, u: Target) {
    && t.Name? && u.Name? && t != u
    && Utf8.Decode(t.bytes) == Utf8.Decode(u.bytes) && Utf8.REPLACEMENT in Utf8.Decode(t.bytes)
  }

  /** Two requests lead to the same host text if and only if they ask for the same target, or one gives a
      name that spells the other's address, or both give names that collapse. */
  lemma TargetsStayApart(t: Target, u: Target)
    requires Valid(t) && Valid(u)
    ensures HostOf(t) == HostOf(u) <==> t == u || Spells(t, u) || Spells(u, t) || Collapse(t, u)
  {
    match (t, u)
    case (IPv4(a), IPv4(b)) => if HostOf(t) == HostOf(u) { QuadInjective(a, b); }
    case (IPv6(a), IPv6(b)) => if HostOf(t) == HostOf(u) { GroupsInjective(a, b); }
    case (IPv4(a), IPv6(b)) => QuadIsNoGroups(a, b);
    case (IPv6(a), IPv4(b)) => QuadIsNoGroups(b, a);
    case (Name(a), Name(b)) =>
      if HostOf(t) == HostOf(u) && Utf8.REPLACEMENT !in HostOf(t) { Utf8.SameText(a, b); }
    case (Name(a), _) => NameAgainstAddress(a, u);
    case (_, Name(b)) => NameAgainstAddress(b, t);
  }

  lemma NameAgainstAddress(bytes: seq<byte>, t: Target)
    requires Valid(t) && !t.Name?
    ensures Utf8.Decode(bytes) == HostOf(t) <==> bytes == Utf8.Encode(HostOf(t))
  {
    AddressIsAscii(t);
    Utf8.EncodeThenDecode(HostOf(t));
    if Utf8.Decode(bytes) == HostOf(t) { Utf8.DecodeThenEncode(bytes); }
  }

  /** Every address has such a name: short enough for a request, and another target with the same host. */
  lemma AddressesCanBeSpelled(t: Target) returns (name: Target)
    requires Valid(t) && !t.Name?
    ensures Valid(name) && name != t && Spells(name, t) && HostOf(name) == HostOf(t)
  {
    AddressIsAscii(t);
    Utf8.AsciiLength(HostOf(t));
    Utf8.EncodeThenDecode(HostOf(t));
    name := Name(Utf8.Encode(HostOf(t)));
  }

  /** And ill-formed names do collapse. */
  lemma IllFormedNamesCollapse()
    ensures Collapse(Name([0xFE]), Name([0xFF]))
  {
    assert [0xFE][1..] == [] && [0xFF][1..] == [];
    assert Utf8.Decode([0xFE]) == [Utf8.REPLACEMENT] + [] && Utf8.Decode([0xFF]) == [Utf8.REPLACEMENT] + [];
    assert Name([0xFE]) != Name([0xFF]) by { assert [0xFE][0] != [0xFF][0]; }
  }

  lemma {:induction false} DigitsShort(n: nat, base: nat, width: nat)
    requires base in {10, 16} && width > 0 && n < Power(base, width)
    ensures |Digits(n, base)| <= width
  {
    if n >= base { DigitsShort(n / base, base, width - 1); }
  }

  function Power(base: nat, n: nat): nat {
    if n == 0 then 1 else base * Power(base, n - 1)
  }

  lemma AddressIsAscii(t: Target)
    requires Valid(t) && !t.Name?
    ensures (forall c :: c in HostOf(t) ==> c as int < 128) && Utf8.REPLACEMENT !in HostOf(t)
    ensures |HostOf(t)| < 256
  {
    if t.IPv4? {
      var a := t.address;
      var parts := [Digits(a[0], 10), Digits(a[1], 10), Digits(a[2], 10), Digits(a[3], 10)];
      forall i | 0 <= i < 4 ensures AsciiPart(parts[i]) {
        DigitsOnly(a[i], 10);
        PowerOf10();
        DigitsShort(a[i], 10, 3);
      }
      JoinIsAscii(parts, '.');
    } else {
      var words := t.words;
      var parts := seq(|words|, i requires 0 <= i < |words| => Digits(words[i], 16));
      forall i | 0 <= i < 8 ensures AsciiPart(parts[i]) {
        DigitsOnly(words[i], 16);
        PowerOf16();
        DigitsShort(words[i], 16, 4);
      }
      JoinIsAscii(parts, ':');
    }
  }

  lemma PowerOf10()
    ensures Power(10, 3) == 1000
  {
    assert Power(10, 1) == 10 && Power(10, 2) == 100;
  }

  lemma PowerOf16()
    ensures Power(16, 4) == 65536
  {
    assert Power(16, 1) == 16 && Power(16, 2) == 256 && Power(16, 3) == 4096;
  }

  predicate AsciiPart(p: string) {
    |p| <= 4 && forall i :: 0 <= i < |p| ==> p[i] as int < 128
  }

  lemma {:induction false} JoinIsAscii(parts: seq<string>, sep: char)
    requires sep as int < 128 && forall i :: 0 <= i < |parts| ==> AsciiPart(parts[i])
    ensures |Join(parts, sep)| <= 5 * |parts|
    ensures forall c :: c in Join(parts, sep) ==> c as int < 128
  {
    if |parts| > 0 { assert AsciiPart(parts[0]); }
    if |parts| > 1 { JoinIsAscii(parts[1..], sep); }
  }

  lemma QuadIsNoGroups(a: seq<byte>, words: seq<nat>)
    requires |a| == 4 && |words| == 8
    ensures DottedQuad(a) != HexGroups(words)
  {
    var y := seq(|words|, i requires 0 <= i < |words| => Digits(words[i], 16));
    forall i | 0 <= i < 8 ensures ':' !in y[i] { DigitsHaveNoMark(words[i], 16, ':'); }
    SplitJoin(y, ':');
    var x := [Digits(a[0], 10), Digits(a[1], 10), Digits(a[2], 10), Digits(a[3], 10)];
    forall i | 0 <= i < 4 ensures ':' !in x[i] { DigitsHaveNoMark(a[i], 10, ':'); }
    NoMarkInJoin(x, '.', ':');
    SplitPart(DottedQuad(a), ':');
  }

  lemma {:induction false} NoMarkInJoin(parts: seq<string>, sep: char, mark: char)
    requires sep != mark && forall p :: p in parts ==> mark !in p
    ensures mark !in Join(parts, sep)
  {
    if |parts| > 1 { NoMarkInJoin(parts[1..], sep, mark); }
  }
}
