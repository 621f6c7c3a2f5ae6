// User names that make the server's own hash function meet the cases of the other modules: nine names
// with the row of homes at which a rehash starts another one, and nine with one hash.
module ServerNames {
  import opened Crc
  import opened HashTable
  import opened HashTableBounds
  import opened HashTableLaws
  import opened HashTableRows
  import opened HashTableWitnesses
  import opened Mix
  import opened Sets
  import opened StringHash

  // ---------- The CRC of a name ----------

  /** From register r, the characters of key lead through the registers regs. */
  predicate Spells(r: bv32, key: string, regs: seq<bv32>)
    decreases |key|
  {
    if key == "" then regs == []
    else regs != [] && Feed(r, Byte(key[0])) == regs[0] && Spells(regs[0], key[1..], regs[1..])
  }

  lemma {:induction false} FoldFromFront<R, B>(f: (R, B) -> R, r: R, s: seq<B>)
    requires s != []
    ensures Fold(f, r, s) == Fold(f, f(r, s[0]), s[1..])
    decreases |s|
  {
    var n := |s| - 1;
    if n > 0 {
      FoldFromFront(f, r, s[..n]);
      assert s[1..][..n - 1] == s[..n][1..] && s[1..][n - 1] == s[n];
    } else {
      assert s[..0] == [] && s[1..] == [];
    }
  }

  lemma {:induction false} SpelledFold(r: bv32, key: string, regs: seq<bv32>)
    requires key != "" && Spells(r, key, regs)
    ensures regs != [] && Fold(Feed, r, Bytes(key)) == regs[|regs| - 1]
    decreases |key|
  {
    FoldFromFront(Feed, r, Bytes(key));
    assert Bytes(key)[1..] == Bytes(key[1..]);
    if key[1..] == "" {
      assert Bytes(key[1..]) == [];
    } else {
      SpelledFold(regs[0], key[1..], regs[1..]);
    }
  }

  lemma {:induction false} SpellsOn(r: bv32, a: string, b: string, xs: seq<bv32>, ys: seq<bv32>)
    requires a != "" && Spells(r, a, xs) && xs != [] && Spells(xs[|xs| - 1], b, ys)
    ensures Spells(r, a + b, xs + ys)
    decreases |a|
  {
    assert (a + b)[1..] == a[1..] + b && (xs + ys)[1..] == xs[1..] + ys;
    if a[1..] == "" {
      assert a[1..] + b == b && xs[1..] + ys == ys;
    } else {
      SpellsOn(xs[0], a[1..], b, xs[1..], ys);
    }
  }

  /** The CRC of a name given in two parts. */
  lemma SpelledCrc(a: string, b: string, xs: seq<bv32>, ys: seq<bv32>)
    requires a != "" && Spells(0, a, xs) && xs != []
    requires b != "" && Spells(xs[|xs| - 1], b, ys)
    ensures ys != [] && Serial(0, Bytes(a + b)) == ys[|ys| - 1]
  {
    SpellsOn(0, a, b, xs, ys);
    SpelledFold(0, a + b, xs + ys);
  }

  lemma Digits()
    ensures Byte('0') == 0x30 && Byte('1') == 0x31 && Byte('2') == 0x32 && Byte('3') == 0x33
    ensures Byte('4') == 0x34 && Byte('5') == 0x35 && Byte('6') == 0x36 && Byte('7') == 0x37
    ensures Byte('8') == 0x38 && Byte('9') == 0x39
  {
    assert LowByte(0x30) == 0x30 && LowByte(0x31) == 0x31 && LowByte(0x32) == 0x32 && LowByte(0x33) == 0x33;
    assert LowByte(0x34) == 0x34 && LowByte(0x35) == 0x35 && LowByte(0x36) == 0x36 && LowByte(0x37) == 0x37;
    assert LowByte(0x38) == 0x38 && LowByte(0x39) == 0x39;
  }

  lemma LettersToK()
    ensures Byte('a') == 0x61 && Byte('b') == 0x62 && Byte('c') == 0x63 && Byte('d') == 0x64
    ensures Byte('e') == 0x65 && Byte('f') == 0x66 && Byte('g') == 0x67 && Byte('h') == 0x68
    ensures Byte('i') == 0x69 && Byte('j') == 0x6a && Byte('k') == 0x6b
  {
    assert LowByte(0x61) == 0x61 && LowByte(0x62) == 0x62 && LowByte(0x63) == 0x63 && LowByte(0x64) == 0x64;
    assert LowByte(0x65) == 0x65 && LowByte(0x66) == 0x66 && LowByte(0x67) == 0x67 && LowByte(0x68) == 0x68;
    assert LowByte(0x69) == 0x69 && LowByte(0x6a) == 0x6a && LowByte(0x6b) == 0x6b;
  }

  lemma LettersFromL()
    ensures Byte('l') == 0x6c && Byte('m') == 0x6d && Byte('n') == 0x6e && Byte('o') == 0x6f
    ensures Byte('p') == 0x70 && Byte('q') == 0x71 && Byte('r') == 0x72 && Byte('u') == 0x75
    ensures Byte('v') == 0x76 && Byte('x') == 0x78 && Byte('y') == 0x79
  {
    assert LowByte(0x6c) == 0x6c && LowByte(0x6d) == 0x6d && LowByte(0x6e) == 0x6e && LowByte(0x6f) == 0x6f;
    assert LowByte(0x70) == 0x70 && LowByte(0x71) == 0x71 && LowByte(0x72) == 0x72 && LowByte(0x75) == 0x75;
    assert LowByte(0x76) == 0x76 && LowByte(0x78) == 0x78 && LowByte(0x79) == 0x79;
  }

  // ---------- Nine names with a row of homes ----------

  lemma U1089()
    ensures Serial(0, Bytes("u1089")) == 0x15542118
  {
    Digits(); LettersFromL();
    SpelledCrc("u10", "89", [0x206f85b3, 0x3968d89, 0xb2be9da5], [0x8e0c5164, 0x15542118]);
    assert "u10" + "89" == "u1089";
  }

  lemma U1644()
    ensures Serial(0, Bytes("u1644")) == 0xc3dd6e1b
  {
    Digits(); LettersFromL();
    SpelledCrc("u16", "44", [0x206f85b3, 0x3968d89, 0x5bdd3890], [0xd1e0bac9, 0xc3dd6e1b]);
    assert "u16" + "44" == "u1644";
  }

  lemma U3660()
    ensures Serial(0, Bytes("u3660")) == 0x5c8f000b
  {
    Digits(); LettersFromL();
    SpelledCrc("u36", "60", [0x206f85b3, 0xed98eca5, 0x69eb5a12], [0x3c6a0f8b, 0x5c8f000b]);
    assert "u36" + "60" == "u3660";
  }

  lemma U3748()
    ensures Serial(0, Bytes("u3748")) == 0x61a0808c
  {
    Digits(); LettersFromL();
    SpelledCrc("u37", "48", [0x206f85b3, 0xed98eca5, 0x1eec6a84], [0xcb7f5fe6, 0x61a0808c]);
    assert "u37" + "48" == "u3748";
  }

  lemma U4126()
    ensures Serial(0, Bytes("u4126")) == 0x49184e06
  {
    Digits(); LettersFromL();
    SpelledCrc("u41", "26", [0x206f85b3, 0x73fc7906, 0xb8ce5976], [0x71094bd0, 0x49184e06]);
    assert "u41" + "26" == "u4126";
  }

  lemma U4415()
    ensures Serial(0, Bytes("u4415")) == 0xfdf78e94
  {
    Digits(); LettersFromL();
    SpelledCrc("u44", "15", [0x206f85b3, 0x73fc7906, 0xc8a4adf9], [0x9577ee2f, 0xfdf78e94]);
    assert "u44" + "15" == "u4415";
  }

  lemma U4854()
    ensures Serial(0, Bytes("u4854")) == 0xe7868262
  {
    Digits(); LettersFromL();
    SpelledCrc("u48", "54", [0x206f85b3, 0x73fc7906, 0xc112e1d2], [0x3eaf653a, 0xe7868262]);
    assert "u48" + "54" == "u4854";
  }

  lemma U5265()
    ensures Serial(0, Bytes("u5265")) == 0xe870384
  {
    Digits(); LettersFromL();
    SpelledCrc("u52", "65", [0x206f85b3, 0x4fb4990, 0x38dc398d], [0x5c8bb63d, 0xe870384]);
    assert "u52" + "65" == "u5265";
  }

  lemma U294()
    ensures Serial(0, Bytes("u294")) == 0x543e185f
  {
    Digits(); LettersFromL();
    SpelledCrc("u2", "94", [0x206f85b3, 0x9a9fdc33], [0xe04f76c2, 0x543e185f]);
    assert "u2" + "94" == "u294";
  }

  function Regular(i: nat): Key {
    if i == 0 then "u1089"
    else if i == 1 then "u1644"
    else if i == 2 then "u3660"
    else if i == 3 then "u3748"
    else if i == 4 then "u4126"
    else if i == 5 then "u4415"
    else if i == 6 then "u4854"
    else if i == 7 then "u5265"
    else "u294"
  }

  function RegularCrc(i: nat): bv32 {
    if i == 0 then 0x15542118
    else if i == 1 then 0xc3dd6e1b
    else if i == 2 then 0x5c8f000b
    else if i == 3 then 0x61a0808c
    else if i == 4 then 0x49184e06
    else if i == 5 then 0xfdf78e94
    else if i == 6 then 0xe7868262
    else if i == 7 then 0xe870384
    else 0x543e185f
  }

  function RegularHash(i: nat): nat {
    if i == 0 then 10724131878886446847
    else if i == 1 then 2142279860832293119
    else if i == 2 then 7428174250941028095
    else if i == 3 then 15510548225334899455
    else if i == 4 then 9590225121236434175
    else if i == 5 then 4750598217993829119
    else if i == 6 then 10875459003397869311
    else if i == 7 then 3904879003093874943
    else 2063422619494249216
  }

  lemma RegularCrcs(i: nat)
    requires i < 9
    ensures Serial(0, Bytes(Regular(i))) == RegularCrc(i)
  {
    match i
    case 0 => U1089();
    case 1 => U1644();
    case 2 => U3660();
    case 3 => U3748();
    case 4 => U4126();
    case 5 => U4415();
    case 6 => U4854();
    case 7 => U5265();
    case _ => U294();
  }

  lemma MixedCrcs()
    ensures Hash(0x15542118) == 0x94d3c51ffd7816ff
    ensures Hash(0xc3dd6e1b) == 0x1dbae82ee261d0ff
    ensures Hash(0x5c8f000b) == 0x67162d20050b16ff
    ensures Hash(0x61a0808c) == 0xd740896ebaa6f2ff
    ensures Hash(0x49184e06) == 0x851752efc3533cff
    ensures Hash(0xfdf78e94) == 0x41ed83e8d6203aff
    ensures Hash(0xe7868262) == 0x96ed6457cada8eff
    ensures Hash(0xe870384) == 0x3630eac3ae4ab8ff
    ensures Hash(0x543e185f) == 0x1ca2bff0a075f300
  {}

  lemma RegularHashes(i: nat)
    requires i < 9
    ensures KeyHash(Regular(i)) == RegularHash(i)
  {
    RegularCrcs(i);
    MixedCrcs();
  }

  /** At 256 and 512 slots the first eight share the home 255 and the ninth has the next one. */
  lemma RegularHomes(i: nat)
    requires i < 9
    ensures HashedAs(RegularHash(i), i)
  {}

  function Regulars(): (ks: seq<Key>)
    ensures |ks| == 9 && forall i | 0 <= i < 9 :: ks[i] == Regular(i)
  {
    seq(9, i requires 0 <= i < 9 => Regular(i))
  }

  /** Nine keys with such hashes. */
  ghost predicate Regularly(h: Key -> nat, ks: seq<Key>) {
    && |ks| == 9
    && (forall i | 0 <= i < 9 :: HashedAs(h(ks[i]), i))
    && (forall i, j | 0 <= i < j < 9 :: h(ks[i]) != h(ks[j]))
  }

  predicate HashedAs(x: nat, i: nat) {
    && x % 256 == (if i < 8 then 255 else 0) && x % 512 == (if i < 8 then 255 else 256)
    && x % 1024 == if i == 8 then 768 else if i == 1 || i == 4 || i == 7 then 255 else 767
  }

  lemma RegularHashesDiffer(i: nat, j: nat)
    requires i < j < 9
    ensures RegularHash(i) != RegularHash(j)
  {}

  lemma ByHashes(h: Key -> nat, ks: seq<Key>)
    requires |ks| == 9 && forall i | 0 <= i < 9 :: h(ks[i]) == RegularHash(i)
    ensures Regularly(h, ks)
  {
    forall i | 0 <= i < 9 ensures HashedAs(h(ks[i]), i) { RegularHomes(i); }
    forall i, j | 0 <= i < j < 9 ensures h(ks[i]) != h(ks[j]) { RegularHashesDiffer(i, j); }
  }

  lemma TheRegulars()
    ensures Regularly(KeyHash, Regulars())
  {
    forall i | 0 <= i < 9 ensures KeyHash(Regulars()[i]) == RegularHash(i) { RegularHashes(i); }
    ByHashes(KeyHash, Regulars());
  }

  lemma RegularlyFits(h: Key -> nat, ks: seq<Key>)
    requires Regularly(h, ks)
    ensures Fits(h, 256, ks) && Fits(h, 512, ks[1..])
    ensures ks[0] !in ks[1..] && Home(h, 512, ks[0], 0)
  {
    forall i | 0 <= i < 9
      ensures Home(h, 256, ks[i], if i < 8 then 0 else 1) && Home(h, 512, ks[i], if i < 8 then 0 else 1)
    {
      assert HashedAs(h(ks[i]), i);
    }
  }

  lemma RegularlySpreads(h: Key -> nat, ks: seq<Key>)
    requires Regularly(h, ks)
    ensures Spread(h, KeySet(ks), 1024)
  {
    var keys := KeySet(ks);
    KeySetSize(ks);
    forall k | k in keys ensures |Rivals(h, keys, k, 1024)| < 8 {
      var i :| 0 <= i < 9 && ks[i] == k;
      FewRivals(h, ks, i);
    }
  }

  /** At 1024 slots every key has one of the others far away. */
  lemma FewRivals(h: Key -> nat, ks: seq<Key>, i: nat)
    requires Regularly(h, ks) && i < 9
    ensures |Rivals(h, KeySet(ks), ks[i], 1024)| < 8
  {
    var keys, k := KeySet(ks), ks[i];
    KeySetSize(ks);
    var far := if i == 1 || i == 4 || i == 7 then 0 else 1;
    var other := ks[far];
    assert HashedAs(h(k), i) && HashedAs(h(other), far);
    assert k in keys && other in keys && !Close(h, k, other, 1024) && k != other;
    SubsetSize(Rivals(h, keys, k, 1024), keys - {k, other});
  }

  /**
   * The server's own hash: puts of these nine names fill slots 255 and 0 to 7, and the next doubling starts
   * a second one, which succeeds with 1024 slots; if there is memory for 512 only, u1089 is lost.
   */
  lemma ServersNestedRehash<V>(v: V, limit: nat)
    ensures PutAll(KeyHash, Empty<V>(256), Pairs(Regulars(), v), 256) == Outcome(true, Row(256, Regulars(), v))
    ensures TidyRow(KeyHash, 256, Regulars(), v) && "u1089" in Contents(Row(256, Regulars(), v).slots)
    ensures var r := Rehash(KeyHash, Row(256, Regulars(), v), limit);
      && (512 <= limit < 1024 ==> !r.ok && "u1089" !in Contents(r.table.slots))
      && (1024 <= limit ==> r.ok && 1024 <= |r.table.slots|)
  {
    var ks := Regulars();
    TheRegulars();
    RegularlyFits(KeyHash, ks);
    FitsRow(KeyHash, 256, ks, v, 256);
    assert ks[0] in ks && ks[0] == "u1089";
    if 512 <= limit { NestedByHomes(KeyHash, ks, v, limit); }
    if 1024 <= limit {
      RegularlySpreads(KeyHash, ks);
      assert DoublesTo(512, 1024);
      RehashReaches(KeyHash, Row(256, ks, v), limit, KeySet(ks), 1024);
    }
  }

  /**
   * In order the nine names get into a new table without a rehash; with u1089 last they do not get in
   * with memory for fewer than 1024 slots.
   */
  lemma ServersOrderDecides<V>(v: V, limit: nat)
    requires limit < 1024
    ensures PutAll(KeyHash, Empty<V>(256), Pairs(Regulars(), v), 256).ok
    ensures !PutAll(KeyHash, Empty<V>(256), Pairs(Regulars()[1..] + [Regulars()[0]], v), limit).ok
  {
    var ks := Regulars();
    TheRegulars();
    RegularlyTurned(KeyHash, ks);
    OrderDecidesBelow1024(KeyHash, ks, v, limit);
  }

  lemma RegularlyTurned(h: Key -> nat, ks: seq<Key>)
    requires Regularly(h, ks)
    ensures Fits(h, 256, ks) && Fits(h, 256, ks[1..]) && Fits(h, 512, ks[2..] + [ks[1]])
    ensures Home(h, 256, ks[0], 0) && Home(h, 512, ks[0], 0)
  {
    RegularlyFits(h, ks);
    RegularlyHome(h, ks);
    RegularlyTurnedFits(h, ks);
  }

  lemma RegularlyHome(h: Key -> nat, ks: seq<Key>)
    requires Regularly(h, ks)
    ensures forall i | 0 <= i < 9 ::
      Home(h, 256, ks[i], if i < 8 then 0 else 1) && Home(h, 512, ks[i], if i < 8 then 0 else 1)
  {
    forall i | 0 <= i < 9
      ensures Home(h, 256, ks[i], if i < 8 then 0 else 1) && Home(h, 512, ks[i], if i < 8 then 0 else 1)
    {
      assert HashedAs(h(ks[i]), i);
    }
  }

  lemma RegularlyTurnedFits(h: Key -> nat, ks: seq<Key>)
    requires Regularly(h, ks)
    ensures Fits(h, 256, ks[1..]) && Fits(h, 512, ks[2..] + [ks[1]])
  {
    RegularlyHome(h, ks);
    var rest, turned := ks[1..], ks[2..] + [ks[1]];
    forall i | 0 <= i < 8 ensures (Home(h, 256, rest[i], 0) && i < 8) || (Home(h, 256, rest[i], 1) && 1 <= i) {
      assert rest[i] == ks[i + 1];
    }
    forall i | 0 <= i < 8 ensures (Home(h, 512, turned[i], 0) && i < 8) || (Home(h, 512, turned[i], 1) && 1 <= i) {
      assert turned[i] == ks[if i < 7 then i + 2 else 1];
    }
  }

  // ---------- Nine names with one hash ----------

  lemma Alice01()
    ensures Serial(0, Bytes("alice01")) == 0x2fc2faa3
  {
    Digits(); LettersToK(); LettersFromL();
    SpelledCrc("alic", "e01", [0x3ab551ce, 0x38e27795, 0xb4335c40, 0xa2d3422e], [0xe1ac4b5a, 0xad86240d, 0x2fc2faa3]);
    assert "alic" + "e01" == "alice01";
  }

  lemma Caoujyn()
    ensures Serial(0, Bytes("caoujyn")) == 0x2fc2faa3
  {
    LettersToK(); LettersFromL();
    SpelledCrc("caou", "jyn", [0xd4bb30e2, 0x746569aa, 0xeb7a5356, 0xa28c0b21], [0xe1ac1413, 0xad862452, 0x2fc2faa3]);
    assert "caou" + "jyn" == "caoujyn";
  }

  lemma D5xga26()
    ensures Serial(0, Bytes("d5xga26")) == 0x2fc2faa3
  {
    Digits(); LettersToK(); LettersFromL();
    SpelledCrc("d5xg", "a26", [0x4adfa541, 0x57226a80, 0xb3315844, 0xa2d4402a], [0xe1ac4c58, 0xad86240a, 0x2fc2faa3]);
    assert "d5xg" + "a26" == "d5xga26";
  }

  lemma Yhh9bn0()
    ensures Serial(0, Bytes("yhh9bn0")) == 0x2fc2faa3
  {
    Digits(); LettersToK(); LettersFromL();
    SpelledCrc("yhh9", "bn0", [0x29d9c998, 0xbd942bd5, 0xb56d5b1a, 0xa2d21c29], [0xe1ac4a04, 0xad86240c, 0x2fc2faa3]);
    assert "yhh9" + "bn0" == "yhh9bn0";
  }

  lemma P10mfv1()
    ensures Serial(0, Bytes("p10mfv1")) == 0x2fc2faa3
  {
    Digits(); LettersToK(); LettersFromL();
    SpelledCrc("p10m", "fv1", [0x5005713c, 0x7ee179cc, 0xb4755f4e, 0xa2d3042d], [0xe1ac4b1c, 0xad86240d, 0x2fc2faa3]);
    assert "p10m" + "fv1" == "p10mfv1";
  }

  lemma Ivo5kmf()
    ensures Serial(0, Bytes("ivo5kmf")) == 0x2fc2faa3
  {
    Digits(); LettersToK(); LettersFromL();
    SpelledCrc("ivo5", "kmf", [0x346ed9fc, 0xd5904e7, 0xe36e5216, 0xa2841f20], [0xe1ac1c07, 0xad86245a, 0x2fc2faa3]);
    assert "ivo5" + "kmf" == "ivo5kmf";
  }

  lemma Qrnol3g()
    ensures Serial(0, Bytes("qrnol3g")) == 0x2fc2faa3
  {
    Digits(); LettersToK(); LettersFromL();
    SpelledCrc("qrno", "l3g", [0x270241aa, 0x882f58a7, 0xe230554c, 0xa2854127], [0xe1ac1d59, 0xad86245b, 0x2fc2faa3]);
    assert "qrno" + "l3g" == "qrnol3g";
  }

  lemma Ue3lmcp()
    ensures Serial(0, Bytes("ue3lmcp")) == 0x2fc2faa3
  {
    Digits(); LettersToK(); LettersFromL();
    SpelledCrc("ue3l", "mcp", [0x206f85b3, 0x6f901864, 0xf560544f, 0xa2921126], [0xe1ac0a09, 0xad86244c, 0x2fc2faa3]);
    assert "ue3l" + "mcp" == "ue3lmcp";
  }

  lemma Kvgi72k()
    ensures Serial(0, Bytes("kvgi72k")) == 0x2fc2faa3
  {
    Digits(); LettersToK(); LettersFromL();
    SpelledCrc("kvgi", "72k", [0xda60b8d0, 0x3f6f6665, 0xee310e4a, 0xa289407c], [0xe1ac1158, 0xad862457, 0x2fc2faa3]);
    assert "kvgi" + "72k" == "kvgi72k";
  }

  function Fellow(i: nat): Key {
    if i == 0 then "alice01"
    else if i == 1 then "caoujyn"
    else if i == 2 then "d5xga26"
    else if i == 3 then "yhh9bn0"
    else if i == 4 then "p10mfv1"
    else if i == 5 then "ivo5kmf"
    else if i == 6 then "qrnol3g"
    else if i == 7 then "ue3lmcp"
    else "kvgi72k"
  }

  lemma FellowCrc(i: nat)
    requires i < 9
    ensures Serial(0, Bytes(Fellow(i))) == 0x2fc2faa3
  {
    match i
    case 0 => Alice01();
    case 1 => Caoujyn();
    case 2 => D5xga26();
    case 3 => Yhh9bn0();
    case 4 => P10mfv1();
    case 5 => Ivo5kmf();
    case 6 => Qrnol3g();
    case 7 => Ue3lmcp();
    case _ => Kvgi72k();
  }

  function Fellows(): (ks: seq<Key>)
    ensures |ks| == 9 && forall i | 0 <= i < 9 :: ks[i] == Fellow(i)
  {
    seq(9, i requires 0 <= i < 9 => Fellow(i))
  }

  /** They differ in their first characters. */
  lemma FellowsDiffer(i: nat, j: nat)
    requires i < j < 9
    ensures Fellow(i) != Fellow(j)
  {
    assert Fellow(i)[0] != Fellow(j)[0];
  }

  lemma FellowHash(i: nat)
    requires i < 9
    ensures KeyHash(Fellow(i)) == KeyHash(Fellow(0))
  {
    FellowCrc(i);
    FellowCrc(0);
  }

  lemma FellowsHaveOneHash()
    ensures OneHash(KeyHash, Fellows())
  {
    var ks := Fellows();
    forall i, j | 0 <= i < j < 9 ensures ks[i] != ks[j] { FellowsDiffer(i, j); }
    forall i | 0 <= i < 9 ensures KeyHash(ks[i]) == KeyHash(ks[0]) { FellowHash(i); }
  }

  /** The server's own hash: of these nine names any eight get into a new table, and the ninth never does. */
  lemma NinthFellowNeverFits<V>(v: V, limit: nat)
    ensures var r := PutAll(KeyHash, Empty<V>(256), Pairs(Fellows()[..8], v), limit);
      && r.ok && Tidy(KeyHash, r.table) && |r.table.slots| == 256
      && Fellow(8) !in Contents(r.table.slots) && !Put(KeyHash, r.table, Fellow(8), v, limit).ok
  {
    FellowsHaveOneHash();
    NinthNeverFits(KeyHash, Fellows(), v, limit);
  }

  /** With memory for 512 slots its put fails after a rehash that succeeded, and nothing is lost. */
  lemma FellowsKeptAfterARehash<V(!new)>(v: V)
    ensures var t := PutAll(KeyHash, Empty<V>(256), Pairs(Fellows()[..8], v), 512).table;
      var r := Put(KeyHash, t, Fellow(8), v, 512);
      && Tidy(KeyHash, t) && Fellow(8) !in Contents(t.slots) && 2 * |t.slots| == 512
      && !r.ok && r.table != t && Contents(r.table.slots) == Contents(t.slots)
  {
    FellowsHaveOneHash();
    KeptAfterARehash(KeyHash, Fellows(), v);
  }
}
