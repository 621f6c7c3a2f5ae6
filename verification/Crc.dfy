// The string hash of hashmap.c, first half: a table-driven CRC register. It is proved equal to the
// register that takes one message bit at a time, and linear over xor.
// Facts about xor are stated of named words (z is x ^ y), which keeps them cheap for the solver.
module Crc {
  // ---------- The table form ----------

  const POLYNOMIAL: bv32 := 0xedb88320

  /** The entry of an eight-entry row selected by the low three bits of the index. */
  function Pick(i: bv32, a: bv32, b: bv32, c: bv32, d: bv32, e: bv32, f: bv32, g: bv32, h: bv32): bv32 {
    if i & 4 == 0 then (if i & 2 == 0 then (if i & 1 == 0 then a else b) else if i & 1 == 0 then c else d)
    else (if i & 2 == 0 then (if i & 1 == 0 then e else f) else if i & 1 == 0 then g else h)
  }

  function Block0(i: bv32): bv32 {
    Pick(i >> 3,
      Pick(i, 0x00000000, 0x77073096, 0xee0e612c, 0x990951ba, 0x076dc419, 0x706af48f, 0xe963a535, 0x9e6495a3),
      Pick(i, 0x0edb8832, 0x79dcb8a4, 0xe0d5e91e, 0x97d2d988, 0x09b64c2b, 0x7eb17cbd, 0xe7b82d07, 0x90bf1d91),
      Pick(i, 0x1db71064, 0x6ab020f2, 0xf3b97148, 0x84be41de, 0x1adad47d, 0x6ddde4eb, 0xf4d4b551, 0x83d385c7),
      Pick(i, 0x136c9856, 0x646ba8c0, 0xfd62f97a, 0x8a65c9ec, 0x14015c4f, 0x63066cd9, 0xfa0f3d63, 0x8d080df5),
      Pick(i, 0x3b6e20c8, 0x4c69105e, 0xd56041e4, 0xa2677172, 0x3c03e4d1, 0x4b04d447, 0xd20d85fd, 0xa50ab56b),
      Pick(i, 0x35b5a8fa, 0x42b2986c, 0xdbbbc9d6, 0xacbcf940, 0x32d86ce3, 0x45df5c75, 0xdcd60dcf, 0xabd13d59),
      Pick(i, 0x26d930ac, 0x51de003a, 0xc8d75180, 0xbfd06116, 0x21b4f4b5, 0x56b3c423, 0xcfba9599, 0xb8bda50f),
      Pick(i, 0x2802b89e, 0x5f058808, 0xc60cd9b2, 0xb10be924, 0x2f6f7c87, 0x58684c11, 0xc1611dab, 0xb6662d3d))
  }

  function Block1(i: bv32): bv32 {
    Pick(i >> 3,
      Pick(i, 0x76dc4190, 0x01db7106, 0x98d220bc, 0xefd5102a, 0x71b18589, 0x06b6b51f, 0x9fbfe4a5, 0xe8b8d433),
      Pick(i, 0x7807c9a2, 0x0f00f934, 0x9609a88e, 0xe10e9818, 0x7f6a0dbb, 0x086d3d2d, 0x91646c97, 0xe6635c01),
      Pick(i, 0x6b6b51f4, 0x1c6c6162, 0x856530d8, 0xf262004e, 0x6c0695ed, 0x1b01a57b, 0x8208f4c1, 0xf50fc457),
      Pick(i, 0x65b0d9c6, 0x12b7e950, 0x8bbeb8ea, 0xfcb9887c, 0x62dd1ddf, 0x15da2d49, 0x8cd37cf3, 0xfbd44c65),
      Pick(i, 0x4db26158, 0x3ab551ce, 0xa3bc0074, 0xd4bb30e2, 0x4adfa541, 0x3dd895d7, 0xa4d1c46d, 0xd3d6f4fb),
      Pick(i, 0x4369e96a, 0x346ed9fc, 0xad678846, 0xda60b8d0, 0x44042d73, 0x33031de5, 0xaa0a4c5f, 0xdd0d7cc9),
      Pick(i, 0x5005713c, 0x270241aa, 0xbe0b1010, 0xc90c2086, 0x5768b525, 0x206f85b3, 0xb966d409, 0xce61e49f),
      Pick(i, 0x5edef90e, 0x29d9c998, 0xb0d09822, 0xc7d7a8b4, 0x59b33d17, 0x2eb40d81, 0xb7bd5c3b, 0xc0ba6cad))
  }

  function Block2(i: bv32): bv32 {
    Pick(i >> 3,
      Pick(i, 0xedb88320, 0x9abfb3b6, 0x03b6e20c, 0x74b1d29a, 0xead54739, 0x9dd277af, 0x04db2615, 0x73dc1683),
      Pick(i, 0xe3630b12, 0x94643b84, 0x0d6d6a3e, 0x7a6a5aa8, 0xe40ecf0b, 0x9309ff9d, 0x0a00ae27, 0x7d079eb1),
      Pick(i, 0xf00f9344, 0x8708a3d2, 0x1e01f268, 0x6906c2fe, 0xf762575d, 0x806567cb, 0x196c3671, 0x6e6b06e7),
      Pick(i, 0xfed41b76, 0x89d32be0, 0x10da7a5a, 0x67dd4acc, 0xf9b9df6f, 0x8ebeeff9, 0x17b7be43, 0x60b08ed5),
      Pick(i, 0xd6d6a3e8, 0xa1d1937e, 0x38d8c2c4, 0x4fdff252, 0xd1bb67f1, 0xa6bc5767, 0x3fb506dd, 0x48b2364b),
      Pick(i, 0xd80d2bda, 0xaf0a1b4c, 0x36034af6, 0x41047a60, 0xdf60efc3, 0xa867df55, 0x316e8eef, 0x4669be79),
      Pick(i, 0xcb61b38c, 0xbc66831a, 0x256fd2a0, 0x5268e236, 0xcc0c7795, 0xbb0b4703, 0x220216b9, 0x5505262f),
      Pick(i, 0xc5ba3bbe, 0xb2bd0b28, 0x2bb45a92, 0x5cb36a04, 0xc2d7ffa7, 0xb5d0cf31, 0x2cd99e8b, 0x5bdeae1d))
  }

  function Block3(i: bv32): bv32 {
    Pick(i >> 3,
      Pick(i, 0x9b64c2b0, 0xec63f226, 0x756aa39c, 0x026d930a, 0x9c0906a9, 0xeb0e363f, 0x72076785, 0x05005713),
      Pick(i, 0x95bf4a82, 0xe2b87a14, 0x7bb12bae, 0x0cb61b38, 0x92d28e9b, 0xe5d5be0d, 0x7cdcefb7, 0x0bdbdf21),
      Pick(i, 0x86d3d2d4, 0xf1d4e242, 0x68ddb3f8, 0x1fda836e, 0x81be16cd, 0xf6b9265b, 0x6fb077e1, 0x18b74777),
      Pick(i, 0x88085ae6, 0xff0f6a70, 0x66063bca, 0x11010b5c, 0x8f659eff, 0xf862ae69, 0x616bffd3, 0x166ccf45),
      Pick(i, 0xa00ae278, 0xd70dd2ee, 0x4e048354, 0x3903b3c2, 0xa7672661, 0xd06016f7, 0x4969474d, 0x3e6e77db),
      Pick(i, 0xaed16a4a, 0xd9d65adc, 0x40df0b66, 0x37d83bf0, 0xa9bcae53, 0xdebb9ec5, 0x47b2cf7f, 0x30b5ffe9),
      Pick(i, 0xbdbdf21c, 0xcabac28a, 0x53b39330, 0x24b4a3a6, 0xbad03605, 0xcdd70693, 0x54de5729, 0x23d967bf),
      Pick(i, 0xb3667a2e, 0xc4614ab8, 0x5d681b02, 0x2a6f2b94, 0xb40bbe37, 0xc30c8ea1, 0x5a05df1b, 0x2d02ef8d))
  }

  /** crc32_tab, in blocks of 64 entries. */
  function Table(i: bv32): bv32 {
    if i < 64 then Block0(i) else if i < 128 then Block1(i) else if i < 192 then Block2(i) else Block3(i)
  }

  function WideIndex(crc: bv64, b: bv8): bv32 { ((crc ^ (b as bv64)) & 0xff) as bv32 }

  function WideJoin(entry: bv32, crc: bv64): bv64 { (entry as bv64) ^ (crc >> 8) }

  /** One iteration of the loop in crc32 over a table, on `unsigned long`, which is 64 bits wide. */
  function Step(table: bv32 -> bv32, crc: bv64, b: bv8): bv64 {
    WideJoin(table(WideIndex(crc, b)), crc)
  }

  function TableStep(crc: bv64, b: bv8): bv64 { Step(Table, crc, b) }

  /** The loop of crc32, around its body. */
  method Loop(step: (bv64, bv8) -> bv64, s: seq<bv8>) returns (crc32val: bv64)
    ensures crc32val == Fold(step, 0, s)
  {
    crc32val := 0;
    var i := 0;
    while i < |s|
      invariant 0 <= i <= |s|
      invariant crc32val == Fold(step, 0, s[..i])
    {
      assert s[..i + 1][..i] == s[..i];
      crc32val := step(crc32val, s[i]);
      i := i + 1;
    }
    assert s[..i] == s;
  }

  method Crc32(s: seq<bv8>) returns (crc32val: bv64)
    ensures crc32val == Serial(0, s) as bv64
  {
    crc32val := Loop(TableStep, s);
    FoldIsSerial(s);
  }

  // ---------- The bit-serial register ----------

  /** Division by the generator polynomial with one message bit, the low bit of `bit`. */
  function FeedBit(r: bv32, bit: bv32): bv32 {
    if r & 1 != bit & 1 then (r >> 1) ^ POLYNOMIAL else r >> 1
  }

  function Half(x: bv32): bv32 { x >> 1 }

  /** The low four bits of b, least significant first. */
  function FeedNibble(r: bv32, b: bv32): bv32 {
    FeedBit(FeedBit(FeedBit(FeedBit(r, b), Half(b)), Half(Half(b))), Half(Half(Half(b))))
  }

  function FeedByte(r: bv32, b: bv32): bv32 {
    FeedNibble(FeedNibble(r, b), Half(Half(Half(Half(b)))))
  }

  function Feed(r: bv32, b: bv8): bv32 {
    FeedByte(r, b as bv32)
  }

  /** A run of f over s, from r. */
  function Fold<R, B>(f: (R, B) -> R, r: R, s: seq<B>): R {
    if s == [] then r else f(Fold(f, r, s[..|s| - 1]), s[|s| - 1])
  }

  /** A whole message, from register r. */
  function Serial(r: bv32, s: seq<bv8>): bv32 {
    Fold(Feed, r, s)
  }

  // ---------- One shift ----------

  function Shift(r: bv32): bv32 {
    if r & 1 == 1 then (r >> 1) ^ POLYNOMIAL else r >> 1
  }

  function Shift4(r: bv32): bv32 {
    Shift(Shift(Shift(Shift(r))))
  }

  function Shift8(r: bv32): bv32 {
    Shift4(Shift4(r))
  }

  lemma LowBits(x: bv32, y: bv32)
    ensures (x ^ y) & 1 == (x & 1) ^ (y & 1)
    ensures (x & 1 == 0 || x & 1 == 1) && (y & 1 == 0 || y & 1 == 1)
    ensures (x ^ y) >> 1 == (x >> 1) ^ (y >> 1)
  {}

  lemma XorOrder(a: bv32, b: bv32, p: bv32)
    ensures (a ^ p) ^ (b ^ p) == a ^ b
    ensures a ^ (b ^ p) == (a ^ b) ^ p && (a ^ p) ^ b == (a ^ b) ^ p
  {}

  /** A part whose low bit is clear is only moved. */
  lemma ShiftPart(a: bv32, c: bv32, z: bv32) returns (a': bv32, c': bv32, z': bv32)
    requires z == a ^ c && c & 1 == 0
    ensures a' == Shift(a) && c' == c >> 1 && z' == Shift(z)
    ensures z' == a' ^ c'
  {
    LowBits(a, c);
    XorOrder(a >> 1, c >> 1, POLYNOMIAL);
    a', c', z' := Shift(a), c >> 1, Shift(z);
  }

  /** A message bit may as well be added to the register beforehand. */
  lemma ShiftBit(r: bv32, b: bv32, z: bv32) returns (r': bv32, b': bv32, z': bv32)
    requires z == r ^ b
    ensures r' == FeedBit(r, b) && b' == Half(b) && z' == Shift(z)
    ensures z' == r' ^ b'
  {
    LowBits(r, b);
    XorOrder(r >> 1, b >> 1, POLYNOMIAL);
    r', b', z' := FeedBit(r, b), Half(b), Shift(z);
  }

  lemma Block0IsShift8(i: bv32)
    requires 0 <= i < 64
    ensures Block0(i) == Shift8(i)
  {
    if i < 8 {} else if i < 16 {} else if i < 24 {} else if i < 32 {}
    else if i < 40 {} else if i < 48 {} else if i < 56 {} else {}
  }

  lemma Block1IsShift8(i: bv32)
    requires 64 <= i < 128
    ensures Block1(i) == Shift8(i)
  {
    if i < 72 {} else if i < 80 {} else if i < 88 {} else if i < 96 {}
    else if i < 104 {} else if i < 112 {} else if i < 120 {} else {}
  }

  lemma Block2IsShift8(i: bv32)
    requires 128 <= i < 192
    ensures Block2(i) == Shift8(i)
  {
    if i < 136 {} else if i < 144 {} else if i < 152 {} else if i < 160 {}
    else if i < 168 {} else if i < 176 {} else if i < 184 {} else {}
  }

  lemma Block3IsShift8(i: bv32)
    requires 192 <= i < 256
    ensures Block3(i) == Shift8(i)
  {
    if i < 200 {} else if i < 208 {} else if i < 216 {} else if i < 224 {}
    else if i < 232 {} else if i < 240 {} else if i < 248 {} else {}
  }

  /** Every table entry is its index after eight shifts. */
  lemma TableIsShift8(i: bv32)
    requires i <= 0xff
    ensures Table(i) == Shift8(i)
  {
    if i < 64 { Block0IsShift8(i); }
    else if i < 128 { Block1IsShift8(i); }
    else if i < 192 { Block2IsShift8(i); }
    else { Block3IsShift8(i); }
  }

  // ---------- Eight shifts ----------

  lemma Shift4Part(a: bv32, c: bv32, z: bv32) returns (a': bv32, c': bv32, z': bv32)
    requires z == a ^ c && c & 0xf == 0
    ensures a' == Shift4(a) && c' == c >> 4 && z' == Shift4(z)
    ensures z' == a' ^ c'
  {
    var a1, c1, z1 := ShiftPart(a, c, z);
    var a2, c2, z2 := ShiftPart(a1, c1, z1);
    var a3, c3, z3 := ShiftPart(a2, c2, z2);
    a', c', z' := ShiftPart(a3, c3, z3);
  }

  lemma Shift8Part(a: bv32, c: bv32, z: bv32) returns (a': bv32, c': bv32, z': bv32)
    requires z == a ^ c && c & 0xff == 0
    ensures a' == Shift8(a) && c' == c >> 8 && z' == Shift8(z)
    ensures z' == a' ^ c'
  {
    var a4, c4, z4 := Shift4Part(a, c, z);
    a', c', z' := Shift4Part(a4, c4, z4);
  }

  lemma NibbleIsShift4(r: bv32, b: bv32, z: bv32) returns (r': bv32, b': bv32, z': bv32)
    requires z == r ^ b
    ensures r' == FeedNibble(r, b) && b' == Half(Half(Half(Half(b)))) && z' == Shift4(z)
    ensures z' == r' ^ b'
  {
    var r1, b1, z1 := ShiftBit(r, b, z);
    var r2, b2, z2 := ShiftBit(r1, b1, z1);
    var r3, b3, z3 := ShiftBit(r2, b2, z2);
    r', b', z' := ShiftBit(r3, b3, z3);
  }

  lemma Exhausted(b: bv32, b': bv32)
    requires b <= 0xff && b' == Half(Half(Half(Half(Half(Half(Half(Half(b))))))))
    ensures b' == 0
  {}

  lemma FeedIsShift8(r: bv32, b: bv32, z: bv32)
    requires z == r ^ b && b <= 0xff
    ensures FeedByte(r, b) == Shift8(z)
  {
    var r4, b4, z4 := NibbleIsShift4(r, b, z);
    var r8, b8, z8 := NibbleIsShift4(r4, b4, z4);
    Exhausted(b, b8);
  }

  lemma HighPart(r: bv32, low: bv32, high: bv32)
    requires low == r & 0xff && high == r & 0xffff_ff00
    ensures high & 0xff == 0 && high >> 8 == r >> 8
  {}

  lemma BothParts(r: bv32, low: bv32, high: bv32)
    requires low == r & 0xff && high == r & 0xffff_ff00
    ensures r == low ^ high
  {}

  // ---------- The table step feeds one byte ----------

  ghost predicate HoldsShift8(table: bv32 -> bv32) {
    forall i | i <= 0xff :: table(i) == Shift8(i)
  }

  function Index(crc: bv32, b: bv32): bv32 { (crc ^ b) & 0xff }

  function Join(entry: bv32, crc: bv32): bv32 { entry ^ (crc >> 8) }

  /** The loop body on a 32-bit register. */
  function Update(table: bv32 -> bv32, crc: bv32, b: bv32): bv32 {
    Join(table(Index(crc, b)), crc)
  }

  lemma LookupIsShift8(table: bv32 -> bv32, r: bv32, low: bv32, z: bv32)
    requires HoldsShift8(table) && low == r & 0xff && z == Join(table(low), r)
    ensures z == Shift8(r)
  {
    var high := r & 0xffff_ff00;
    HighPart(r, low, high);
    BothParts(r, low, high);
    var x, y, w := Shift8Part(low, high, r);
  }

  lemma AbsorbByte(crc: bv32, b: bv32, r: bv32, entry: bv32)
    requires b <= 0xff && r == crc ^ b
    ensures Index(crc, b) == r & 0xff && Join(entry, crc) == Join(entry, r)
  {}

  lemma UpdateFeedsByte(table: bv32 -> bv32, crc: bv32, b: bv32)
    requires HoldsShift8(table) && b <= 0xff
    ensures Update(table, crc, b) == FeedByte(crc, b)
  {
    var r := crc ^ b;
    AbsorbByte(crc, b, r, table(Index(crc, b)));
    LookupIsShift8(table, r, Index(crc, b), Update(table, crc, b));
    FeedIsShift8(crc, b, r);
  }

  lemma SameIndex(r: bv32, w: bv64, c: bv8, b: bv32) returns (i: bv32, j: bv32)
    requires w == r as bv64 && b == c as bv32
    ensures i == WideIndex(w, c) && j == Index(r, b) && i == j
  {
    i, j := WideIndex(w, c), Index(r, b);
  }

  lemma SameJoin(r: bv32, w: bv64, entry: bv32) returns (r': bv32, w': bv64)
    requires w == r as bv64
    ensures r' == Join(entry, r) && w' == WideJoin(entry, w) && w' == r' as bv64
  {
    r', w' := Join(entry, r), WideJoin(entry, w);
  }

  /** On 64 bits a register that fits 32 bits goes on fitting them. */
  lemma StepIsUpdate(table: bv32 -> bv32, r: bv32, w: bv64, c: bv8, b: bv32) returns (r': bv32, w': bv64)
    requires w == r as bv64 && b == c as bv32
    ensures r' == Update(table, r, b) && w' == Step(table, w, c) && w' == r' as bv64
  {
    var i, j := SameIndex(r, w, c, b);
    r', w' := SameJoin(r, w, table(i));
  }

  predicate Widened(w: bv64, r: bv32) { w == r as bv64 }

  lemma StepFeedsByte(table: bv32 -> bv32, r: bv32, w: bv64, c: bv8) returns (r': bv32, w': bv64)
    requires HoldsShift8(table) && w == r as bv64
    ensures r' == Feed(r, c) && w' == Step(table, w, c) && w' == r' as bv64
  {
    r', w' := StepIsUpdate(table, r, w, c, c as bv32);
    UpdateFeedsByte(table, r, c as bv32);
  }

  lemma StepWidens(table: bv32 -> bv32, r: bv32, w: bv64, c: bv8)
    requires HoldsShift8(table) && Widened(w, r)
    ensures Widened(Step(table, w, c), Feed(r, c))
  {
    var r', w' := StepFeedsByte(table, r, w, c);
  }

  /** Runs of two step functions stay related if each step keeps them so. */
  lemma {:induction false} FoldSimulates<R(!new), S(!new), B(!new)>(f: (R, B) -> R, g: (S, B) -> S, rel: (R, S) -> bool,
                                                                   x: R, y: S, s: seq<B>)
    requires rel(x, y) && forall x, y, b | rel(x, y) :: rel(f(x, b), g(y, b))
    ensures rel(Fold(f, x, s), Fold(g, y, s))
    decreases |s|
  {
    if s != [] { FoldSimulates(f, g, rel, x, y, s[..|s| - 1]); }
  }

  lemma FoldIsSerial(s: seq<bv8>)
    ensures Widened(Fold(TableStep, 0, s), Serial(0, s))
  {
    TableHoldsShift8();
    forall w, r, c | Widened(w, r) ensures Widened(TableStep(w, c), Feed(r, c)) {
      StepWidens(Table, r, w, c);
    }
    FoldSimulates(TableStep, Feed, Widened, 0, 0, s);
  }

  lemma TableHoldsShift8()
    ensures HoldsShift8(Table)
  {
    forall i: bv32 | i <= 0xff ensures Table(i) == Shift8(i) {
      TableIsShift8(i);
    }
  }

  // ---------- crc32 is linear ----------

  predicate Xor8(b: bv8, c: bv8, d: bv8) { d == b ^ c }

  predicate Xor32(x: bv32, y: bv32, z: bv32) { z == x ^ y }

  lemma FeedBitXorNamed(x: bv32, y: bv32, z: bv32, b: bv32, c: bv32, d: bv32) returns (x': bv32, y': bv32, z': bv32)
    requires z == x ^ y && d == b ^ c
    ensures x' == FeedBit(x, b) && y' == FeedBit(y, c) && z' == FeedBit(z, d) && Xor32(x', y', z')
  {
    LowBits(x, y);
    LowBits(b, c);
    XorOrder(x >> 1, y >> 1, POLYNOMIAL);
    x', y', z' := FeedBit(x, b), FeedBit(y, c), FeedBit(z, d);
  }

  lemma FeedBitXor(x: bv32, y: bv32, z: bv32, b: bv32, c: bv32, d: bv32)
    requires Xor32(x, y, z) && Xor32(b, c, d)
    ensures Xor32(FeedBit(x, b), FeedBit(y, c), FeedBit(z, d))
  {
    var x', y', z' := FeedBitXorNamed(x, y, z, b, c, d);
  }

  lemma HalfXor(b: bv32, c: bv32, d: bv32)
    requires Xor32(b, c, d)
    ensures Xor32(Half(b), Half(c), Half(d))
  {
    LowBits(b, c);
  }

  /** What FeedByte feeds bit by bit: the low bit of each of these words. */
  function Bits(b: bv32): (bits: seq<bv32>)
    ensures |bits| == 8
  {
    var b4 := Half(Half(Half(Half(b))));
    [b, Half(b), Half(Half(b)), Half(Half(Half(b))), b4, Half(b4), Half(Half(b4)), Half(Half(Half(b4)))]
  }

  lemma {:induction false} BitsNext(b: bv32, i: nat)
    requires i < 7
    ensures Bits(b)[i + 1] == Half(Bits(b)[i])
  {}

  lemma {:induction false} BitsXor(b: bv32, c: bv32, d: bv32, i: nat)
    requires Xor32(b, c, d) && i < 8
    ensures Xor32(Bits(b)[i], Bits(c)[i], Bits(d)[i])
  {
    if i > 0 {
      BitsXor(b, c, d, i - 1);
      BitsNext(b, i - 1);
      BitsNext(c, i - 1);
      BitsNext(d, i - 1);
      HalfXor(Bits(b)[i - 1], Bits(c)[i - 1], Bits(d)[i - 1]);
    }
  }

  lemma FoldOne<R, B>(f: (R, B) -> R, r: R, s: seq<B>, i: nat)
    requires i < |s|
    ensures Fold(f, r, s[..i + 1]) == f(Fold(f, r, s[..i]), s[i])
  {
    assert s[..i + 1][..i] == s[..i];
  }

  lemma FoldEight<R, B>(f: (R, B) -> R, r: R, s: seq<B>)
    requires |s| == 8
    ensures Fold(f, r, s) == f(f(f(f(f(f(f(f(r, s[0]), s[1]), s[2]), s[3]), s[4]), s[5]), s[6]), s[7])
  {
    assert s[..0] == [] && s[..8] == s;
    FoldOne(f, r, s, 0);
    FoldOne(f, r, s, 1);
    FoldOne(f, r, s, 2);
    FoldOne(f, r, s, 3);
    FoldOne(f, r, s, 4);
    FoldOne(f, r, s, 5);
    FoldOne(f, r, s, 6);
    FoldOne(f, r, s, 7);
  }

  lemma FeedByteIsFold(r: bv32, b: bv32)
    ensures FeedByte(r, b) == Fold(FeedBit, r, Bits(b))
  {
    FoldEight(FeedBit, r, Bits(b));
  }

  lemma FeedByteXor(x: bv32, y: bv32, z: bv32, b: bv32, c: bv32, d: bv32)
    requires Xor32(x, y, z) && Xor32(b, c, d)
    ensures Xor32(Fold(FeedBit, x, Bits(b)), Fold(FeedBit, y, Bits(c)), Fold(FeedBit, z, Bits(d)))
  {
    forall x, y, z, b, c, d | Xor32(x, y, z) && Xor32(b, c, d)
      ensures Xor32(FeedBit(x, b), FeedBit(y, c), FeedBit(z, d))
    {
      FeedBitXor(x, y, z, b, c, d);
    }
    forall i | 0 <= i < 8 ensures Xor32(Bits(b)[i], Bits(c)[i], Bits(d)[i]) {
      BitsXor(b, c, d, i);
    }
    FoldRelated(FeedBit, Xor32, Xor32, x, y, z, Bits(b), Bits(c), Bits(d));
  }

  function Wide(b: bv8): bv32 { b as bv32 }

  lemma BytesXor(b: bv8, c: bv8, d: bv8)
    requires Xor8(b, c, d)
    ensures Xor32(Wide(b), Wide(c), Wide(d))
  {}

  lemma FeedXor(x: bv32, y: bv32, z: bv32, b: bv8, c: bv8, d: bv8)
    requires Xor32(x, y, z) && Xor8(b, c, d)
    ensures Xor32(Feed(x, b), Feed(y, c), Feed(z, d))
  {
    BytesXor(b, c, d);
    FeedByteXor(x, y, z, Wide(b), Wide(c), Wide(d));
    FeedByteIsFold(x, Wide(b));
    FeedByteIsFold(y, Wide(c));
    FeedByteIsFold(z, Wide(d));
  }

  /** A relation between three registers that every step keeps holds after three runs side by side. */
  lemma {:induction false} FoldRelated<R(!new), B(!new)>(f: (R, B) -> R, rel: (R, R, R) -> bool, on: (B, B, B) -> bool,
                                             x: R, y: R, z: R, s: seq<B>, t: seq<B>, u: seq<B>)
    requires rel(x, y, z) && |s| == |t| == |u|
    requires forall i | 0 <= i < |s| :: on(s[i], t[i], u[i])
    requires forall x, y, z, b, c, d | rel(x, y, z) && on(b, c, d) :: rel(f(x, b), f(y, c), f(z, d))
    ensures rel(Fold(f, x, s), Fold(f, y, t), Fold(f, z, u))
    decreases |s|
  {
    if s != [] {
      var n := |s| - 1;
      FoldRelated(f, rel, on, x, y, z, s[..n], t[..n], u[..n]);
      assert on(s[n], t[n], u[n]);
    }
  }

  /** u is the bytewise xor of s and t. */
  ghost predicate IsXor(s: seq<bv8>, t: seq<bv8>, u: seq<bv8>) {
    |s| == |t| == |u| && forall i | 0 <= i < |u| :: Xor8(s[i], t[i], u[i])
  }

  lemma XorKept()
    ensures forall x, y, z, b, c, d | Xor32(x, y, z) && Xor8(b, c, d) :: Xor32(Feed(x, b), Feed(y, c), Feed(z, d))
  {
    forall x, y, z, b, c, d | Xor32(x, y, z) && Xor8(b, c, d)
      ensures Xor32(Feed(x, b), Feed(y, c), Feed(z, d))
    {
      FeedXor(x, y, z, b, c, d);
    }
  }

  /** The register is linear in its start value and the message, for messages of equal length. */
  lemma SerialXor(x: bv32, y: bv32, z: bv32, s: seq<bv8>, t: seq<bv8>, u: seq<bv8>)
    requires Xor32(x, y, z) && IsXor(s, t, u)
    ensures Xor32(Serial(x, s), Serial(y, t), Serial(z, u))
  {
    XorKept();
    FoldRelated(Feed, Xor32, Xor8, x, y, z, s, t, u);
  }

  /** crc32 is linear over xor of buffers of equal length. */
  lemma CrcLinear(s: seq<bv8>, t: seq<bv8>, u: seq<bv8>)
    requires IsXor(s, t, u)
    ensures Serial(0, u) == Serial(0, s) ^ Serial(0, t)
  {
    SerialXor(0, 0, 0, s, t, u);
  }

  const ONES: bv32 := 0xffff_ffff

  function Complement(x: bv32): bv32 { x ^ ONES }

  /** The CRC of RFC 1952, section 8: the register starts at all ones and is complemented at the end. */
  function Rfc1952(s: seq<bv8>): bv32 {
    Complement(Serial(ONES, s))
  }

  /**
   * The CRC computed here is off by a word that depends on the length of the buffer only: the
   * standard's CRC of as many zero bytes.
   */
  lemma DiffersFromRfc1952ByLength(s: seq<bv8>, zeros: seq<bv8>) returns (here: bv32, standard: bv32, blank: bv32)
    requires |s| == |zeros| && forall i | 0 <= i < |s| :: zeros[i] == 0
    ensures here == Serial(0, s) && standard == Rfc1952(s) && blank == Rfc1952(zeros)
    ensures standard == here ^ blank
  {
    XorZeros(s, zeros);
    var p, r;
    here, p, r := SerialXorNamed(0, ONES, ONES, s, zeros, s);
    standard, blank := ComplementXor(here, p, r);
  }

  lemma ComplementXor(a: bv32, p: bv32, r: bv32) returns (r': bv32, p': bv32)
    requires r == a ^ p
    ensures r' == Complement(r) && p' == Complement(p)
    ensures r' == a ^ p'
  {
    XorOrder(a, p, ONES);
    r', p' := Complement(r), Complement(p);
  }

  lemma SerialXorNamed(x: bv32, y: bv32, z: bv32, s: seq<bv8>, t: seq<bv8>, u: seq<bv8>)
      returns (x': bv32, y': bv32, z': bv32)
    requires Xor32(x, y, z) && IsXor(s, t, u)
    ensures x' == Serial(x, s) && y' == Serial(y, t) && z' == Serial(z, u)
    ensures z' == x' ^ y'
  {
    SerialXor(x, y, z, s, t, u);
    x', y', z' := Serial(x, s), Serial(y, t), Serial(z, u);
  }

  lemma XorZeros(s: seq<bv8>, zeros: seq<bv8>)
    requires |s| == |zeros| && forall i | 0 <= i < |s| :: zeros[i] == 0
    ensures IsXor(s, zeros, s)
  {
    forall i | 0 <= i < |s| ensures Xor8(s[i], zeros[i], s[i]) {
      var b := s[i];
      assert Xor8(b, 0, b);
    }
  }
}
