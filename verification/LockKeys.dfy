/** uuidToLockKey of src/symphony/claim.ts: an FNV-1a hash as an unsigned 32-bit number. */
module LockKeys {

  const FNV_OFFSET: bv32 := 2166136261
  const FNV_PRIME: bv32 := 16777619

  /** One character: exclusive or, then multiplication modulo 2^32. */
  function Mix(hash: bv32, c: char): bv32 {
    (hash ^ (c as int as bv32)) * FNV_PRIME
  }

  function Hash(hash: bv32, text: string): bv32
    decreases |text|
  {
    if text == "" then hash else Hash(Mix(hash, text[0]), text[1..])
  }

  /** The two-key form of pg_advisory_xact_lock takes signed 32-bit keys. */
  predicate IsLockKey(key: nat) {
    key < 0x8000_0000
  }

  method UuidToLockKey(uuid: string) returns (key: nat)
    ensures key == Hash(FNV_OFFSET, uuid) as int
    ensures key < 0x1_0000_0000
    ensures IsLockKey(key) <==> Hash(FNV_OFFSET, uuid) < 0x8000_0000
  {
    var hash := FNV_OFFSET;
    for i := 0 to |uuid|
      invariant Hash(FNV_OFFSET, uuid) == Hash(hash, uuid[i..])
    {
      assert uuid[i..][0] == uuid[i] && uuid[i..][1..] == uuid[i + 1..];
      hash := Mix(hash, uuid[i]);
    }
    key := hash as int;
  }

  // ---------------------------------------------------------------- an id without a lock key

  lemma {:induction false} HashConcat(hash: bv32, a: string, b: string)
    ensures Hash(hash, a + b) == Hash(Hash(hash, a), b)
    decreases |a|
  {
    if a == "" {
      assert a + b == b;
    } else {
      assert (a + b)[0] == a[0] && (a + b)[1..] == a[1..] + b;
      HashConcat(Mix(hash, a[0]), a[1..], b);
    }
  }

  /** Six rounds of the loop. */
  lemma Six(a: char, b: char, c: char, d: char, e: char, f: char, h: seq<bv32>)
    requires |h| == 7 && h[1] == Mix(h[0], a) && h[2] == Mix(h[1], b) && h[3] == Mix(h[2], c)
    requires h[4] == Mix(h[3], d) && h[5] == Mix(h[4], e) && h[6] == Mix(h[5], f)
    ensures Hash(h[0], [a, b, c, d, e, f]) == h[6]
  {
    Round(f, [], h[5]);
    Round(e, [f], h[4]);
    Round(d, [e, f], h[3]);
    Round(c, [d, e, f], h[2]);
    Round(b, [c, d, e, f], h[1]);
    Round(a, [b, c, d, e, f], h[0]);
  }

  lemma Round(c: char, rest: string, hash: bv32)
    ensures Hash(hash, [c] + rest) == Hash(Mix(hash, c), rest)
  {
    assert ([c] + rest)[1..] == rest;
  }

  lemma FirstHalf()
    ensures Hash(0x811C9DC5, "000000") == 0x68D6565D
    ensures Hash(0x68D6565D, "00-000") == 0xF773EC78
    ensures Hash(0xF773EC78, "0-4000") == 0xF53A5C1B
  {
    Six('0', '0', '0', '0', '0', '0',
        [0x811C9DC5, 0x350CA8AF, 0x21ED724D, 0xE5CB3AC7, 0xB5EDD2D5, 0x4A62FE7F, 0x68D6565D]);
    Six('0', '0', '-', '0', '0', '0',
        [0x68D6565D, 0x766A0D97, 0x0FF37DE5, 0xE44F01D8, 0x50600038, 0x8F200C98, 0xF773EC78]);
    Six('0', '-', '4', '0', '0', '0',
        [0xF773EC78, 0xD37CF558, 0x62B6672F, 0x80244F81, 0x6A2973A3, 0xB240F069, 0xF53A5C1B]);
  }

  lemma SecondHalf()
    ensures Hash(0xF53A5C1B, "-8000-") == 0x431FF485
    ensures Hash(0x431FF485, "000000") == 0x2488F71D
    ensures Hash(0x2488F71D, "000000") == 0xD0703F35
  {
    Six('-', '8', '0', '0', '0', '-',
        [0xF53A5C1B, 0x40DF2902, 0x594DE64E, 0x13A1D85A, 0x51C7AEDE, 0xAB5860AA, 0x431FF485]);
    Six('0', '0', '0', '0', '0', '0',
        [0x431FF485, 0x604E38EF, 0x7A23870D, 0x82EDE507, 0x537FD595, 0x173D52BF, 0x2488F71D]);
    Six('0', '0', '0', '0', '0', '0',
        [0x2488F71D, 0xB09D1BD7, 0xEE52ECA5, 0xC18A6E8F, 0x6BEC56AD, 0x820C5927, 0xD0703F35]);
  }

  lemma Join(hash: bv32, a: string, b: string, c: string)
    ensures Hash(hash, a + b + c) == Hash(Hash(Hash(hash, a), b), c)
  {
    HashConcat(hash, a + b, c);
    HashConcat(hash, a, b);
  }

  /** The version 4 UUID 00000000-0000-4000-8000-000000000000 has no lock key. */
  lemma SomeIdHasNoLockKey() returns (id: string)
    ensures id == ("000000" + "00-000" + "0-4000") + ("-8000-" + "000000" + "000000")
    ensures Hash(FNV_OFFSET, id) == 0xD0703F35 && !IsLockKey(Hash(FNV_OFFSET, id) as int)
  {
    var a, b := "000000" + "00-000" + "0-4000", "-8000-" + "000000" + "000000";
    FirstHalf();
    SecondHalf();
    Join(FNV_OFFSET, "000000", "00-000", "0-4000");
    Join(0xF53A5C1B, "-8000-", "000000", "000000");
    HashConcat(FNV_OFFSET, a, b);
    id := a + b;
  }
}
