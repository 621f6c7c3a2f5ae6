// The string hash of hashmap.c, second half: mixing a CRC into a 64-bit word. The eight mixing steps
// are a bijection, and what is left of the word after dropping three bits is multiplied injectively.
module Mix {
  import Sets

  // ---------- The steps ----------

  function AddShift12(k: bv64): bv64 { k + (k << 12) }

  function XorShift22(k: bv64): bv64 { k ^ (k >> 22) }

  function AddShift4(k: bv64): bv64 { k + (k << 4) }

  function XorShift9(k: bv64): bv64 { k ^ (k >> 9) }

  function AddShift10(k: bv64): bv64 { k + (k << 10) }

  function XorShift2(k: bv64): bv64 { k ^ (k >> 2) }

  function AddShift7(k: bv64): bv64 { k + (k << 7) }

  function XorShift12(k: bv64): bv64 { k ^ (k >> 12) }

  /** The eight steps of Robert Jenkins' mix. */
  function Jenkins(k: bv64): bv64 {
    XorShift12(AddShift7(XorShift2(AddShift10(XorShift9(AddShift4(XorShift22(AddShift12(k))))))))
  }

  function Drop3(k: bv64): bv64 { k >> 3 }

  function Multiply(k: bv64): bv64 { k * 2654435761 }

  /** Knuth's multiplicative step. */
  function Knuth(k: bv64): bv64 { Multiply(Drop3(k)) }

  /** The hash before it is reduced to a slot index. */
  function Hash(crc: bv64): bv64 { Knuth(Jenkins(crc)) }

  // ---------- Each step undone ----------

  function UndoAdd12(k: bv64): bv64 { k * 17294103975376711681 }

  function UndoXor22(k: bv64): bv64 { k ^ (k >> 22) ^ (k >> 44) }

  function UndoAdd4(k: bv64): bv64 { k * 17361641481138401521 }

  function UndoXor9(k: bv64): bv64 {
    k ^ (k >> 9) ^ (k >> 18) ^ (k >> 27) ^ (k >> 36) ^ (k >> 45) ^ (k >> 54) ^ (k >> 63)
  }

  function UndoAdd10(k: bv64): bv64 { k * 1151796703138937857 }

  function XorShift4(k: bv64): bv64 { k ^ (k >> 4) }

  function XorShift8(k: bv64): bv64 { k ^ (k >> 8) }

  function XorShift16(k: bv64): bv64 { k ^ (k >> 16) }

  function XorShift32(k: bv64): bv64 { k ^ (k >> 32) }

  function UndoXor2(k: bv64): bv64 { XorShift32(XorShift16(XorShift8(XorShift4(XorShift2(k))))) }

  function UndoAdd7(k: bv64): bv64 { k * 9294871044892409729 }

  function UndoXor12(k: bv64): bv64 { k ^ (k >> 12) ^ (k >> 24) ^ (k >> 36) ^ (k >> 48) ^ (k >> 60) }

  function Unjenkins(k: bv64): bv64 {
    UndoAdd12(UndoXor22(UndoAdd4(UndoXor9(UndoAdd10(UndoXor2(UndoAdd7(UndoXor12(k))))))))
  }

  function Times4097(k: bv64): bv64 { k * 4097 }

  lemma Add12IsTimes4097(k: bv64)
    ensures AddShift12(k) == Times4097(k)
  {}

  lemma Times4097Undone(k: bv64)
    ensures UndoAdd12(Times4097(k)) == k && Times4097(UndoAdd12(k)) == k
  {
    assert UndoAdd12(k * 4097) == k;
    assert Times4097(k * 17294103975376711681) == k;
  }

  lemma Add12Undone(k: bv64)
    ensures UndoAdd12(AddShift12(k)) == k && AddShift12(UndoAdd12(k)) == k
  {
    Times4097Undone(k);
    Add12IsTimes4097(k);
    Add12IsTimes4097(UndoAdd12(k));
  }

  function Times17(k: bv64): bv64 { k * 17 }

  lemma Add4IsTimes17(k: bv64)
    ensures AddShift4(k) == Times17(k)
  {}

  lemma Times17Undone(k: bv64)
    ensures UndoAdd4(Times17(k)) == k && Times17(UndoAdd4(k)) == k
  {
    assert UndoAdd4(k * 17) == k;
    assert Times17(k * 17361641481138401521) == k;
  }

  lemma Add4Undone(k: bv64)
    ensures UndoAdd4(AddShift4(k)) == k && AddShift4(UndoAdd4(k)) == k
  {
    Times17Undone(k);
    Add4IsTimes17(k);
    Add4IsTimes17(UndoAdd4(k));
  }

  function Times1025(k: bv64): bv64 { k * 1025 }

  lemma Add10IsTimes1025(k: bv64)
    ensures AddShift10(k) == Times1025(k)
  {}

  lemma Times1025Undone(k: bv64)
    ensures UndoAdd10(Times1025(k)) == k && Times1025(UndoAdd10(k)) == k
  {
    assert UndoAdd10(k * 1025) == k;
    assert Times1025(k * 1151796703138937857) == k;
  }

  lemma Add10Undone(k: bv64)
    ensures UndoAdd10(AddShift10(k)) == k && AddShift10(UndoAdd10(k)) == k
  {
    Times1025Undone(k);
    Add10IsTimes1025(k);
    Add10IsTimes1025(UndoAdd10(k));
  }

  function Times129(k: bv64): bv64 { k * 129 }

  lemma Add7IsTimes129(k: bv64)
    ensures AddShift7(k) == Times129(k)
  {}

  lemma Times129Undone(k: bv64)
    ensures UndoAdd7(Times129(k)) == k && Times129(UndoAdd7(k)) == k
  {
    assert UndoAdd7(k * 129) == k;
    assert Times129(k * 9294871044892409729) == k;
  }

  lemma Add7Undone(k: bv64)
    ensures UndoAdd7(AddShift7(k)) == k && AddShift7(UndoAdd7(k)) == k
  {
    Times129Undone(k);
    Add7IsTimes129(k);
    Add7IsTimes129(UndoAdd7(k));
  }

  lemma Xor22Undone(k: bv64)
    ensures UndoXor22(XorShift22(k)) == k && XorShift22(UndoXor22(k)) == k
  {
    assert UndoXor22(k ^ (k >> 22)) == k;
    assert XorShift22(k ^ (k >> 22) ^ (k >> 44)) == k;
  }

  lemma Xor9Undone(k: bv64)
    ensures UndoXor9(XorShift9(k)) == k && XorShift9(UndoXor9(k)) == k
  {
    assert UndoXor9(k ^ (k >> 9)) == k;
    assert XorShift9(k ^ (k >> 9) ^ (k >> 18) ^ (k >> 27) ^ (k >> 36) ^ (k >> 45) ^ (k >> 54) ^ (k >> 63)) == k;
  }

  lemma Xor12Undone(k: bv64)
    ensures UndoXor12(XorShift12(k)) == k && XorShift12(UndoXor12(k)) == k
  {
    assert UndoXor12(k ^ (k >> 12)) == k;
    assert XorShift12(k ^ (k >> 12) ^ (k >> 24) ^ (k >> 36) ^ (k >> 48) ^ (k >> 60)) == k;
  }

  // A shift-xor done twice is the shift-xor by twice as much.

  lemma Twice2(k: bv64)
    ensures XorShift2(XorShift2(k)) == XorShift4(k)
  {
    assert XorShift2(k ^ (k >> 2)) == XorShift4(k);
  }

  lemma Twice4(k: bv64)
    ensures XorShift4(XorShift4(k)) == XorShift8(k)
  {
    assert XorShift4(k ^ (k >> 4)) == XorShift8(k);
  }

  lemma Twice8(k: bv64)
    ensures XorShift8(XorShift8(k)) == XorShift16(k)
  {
    assert XorShift8(k ^ (k >> 8)) == XorShift16(k);
  }

  lemma Twice16(k: bv64)
    ensures XorShift16(XorShift16(k)) == XorShift32(k)
  {
    assert XorShift16(k ^ (k >> 16)) == XorShift32(k);
  }

  lemma Twice32(k: bv64)
    ensures XorShift32(XorShift32(k)) == k
  {
    assert XorShift32(k ^ (k >> 32)) == k;
  }

  lemma Commuting(k: bv64)
    ensures XorShift2(XorShift4(k)) == XorShift4(XorShift2(k)) && XorShift2(XorShift8(k)) == XorShift8(XorShift2(k))
    ensures XorShift2(XorShift16(k)) == XorShift16(XorShift2(k)) && XorShift2(XorShift32(k)) == XorShift32(XorShift2(k))
  {
    assert XorShift2(k ^ (k >> 4)) == XorShift4(k ^ (k >> 2));
    assert XorShift2(k ^ (k >> 8)) == XorShift8(k ^ (k >> 2));
    assert XorShift2(k ^ (k >> 16)) == XorShift16(k ^ (k >> 2));
    assert XorShift2(k ^ (k >> 32)) == XorShift32(k ^ (k >> 2));
  }

  lemma Xor2Undone(k: bv64)
    ensures UndoXor2(XorShift2(k)) == k && XorShift2(UndoXor2(k)) == k
  {
    Twice2(k);
    Twice4(k);
    Twice8(k);
    Twice16(k);
    Twice32(k);
    var a := XorShift2(k);
    var b := XorShift4(a);
    var c := XorShift8(b);
    var d := XorShift16(c);
    Commuting(a);
    Commuting(b);
    Commuting(c);
    Commuting(d);
  }

  /** Mixing is a bijection of 64-bit words: Unjenkins is its inverse on both sides. */
  lemma JenkinsIsBijective(k: bv64)
    ensures Unjenkins(Jenkins(k)) == k && Jenkins(Unjenkins(k)) == k
  {
    JenkinsUndone(k);
    UnjenkinsRedone(k);
  }

  lemma JenkinsUndone(k: bv64)
    ensures Unjenkins(Jenkins(k)) == k
  {
    var a := AddShift12(k);
    var b := XorShift22(a);
    var c := AddShift4(b);
    var d := XorShift9(c);
    var e := AddShift10(d);
    var f := XorShift2(e);
    var g := AddShift7(f);
    Add12Undone(k);
    Xor22Undone(a);
    Add4Undone(b);
    Xor9Undone(c);
    Add10Undone(d);
    Xor2Undone(e);
    Add7Undone(f);
    Xor12Undone(g);
  }

  lemma UnjenkinsRedone(k: bv64)
    ensures Jenkins(Unjenkins(k)) == k
  {
    var a := UndoXor12(k);
    var b := UndoAdd7(a);
    var c := UndoXor2(b);
    var d := UndoAdd10(c);
    var e := UndoXor9(d);
    var f := UndoAdd4(e);
    var g := UndoXor22(f);
    Xor12Undone(k);
    Add7Undone(a);
    Xor2Undone(b);
    Add10Undone(c);
    Xor9Undone(d);
    Add4Undone(e);
    Xor22Undone(f);
    Add12Undone(g);
  }

  function UndoMultiply(k: bv64): bv64 { k * 14962265741255716689 }

  lemma MultiplyUndone(k: bv64)
    ensures UndoMultiply(Multiply(k)) == k
  {
    assert UndoMultiply(k * 2654435761) == k;
  }

  /** The multiplication loses nothing. */
  lemma KnuthIsInjective(k: bv64, l: bv64)
    ensures Knuth(k) == Knuth(l) <==> Drop3(k) == Drop3(l)
  {
    MultiplyUndone(Drop3(k));
    MultiplyUndone(Drop3(l));
  }

  // ---------- What collides ----------

  function Group(k: bv64): bv64 { k & 0xffff_ffff_ffff_fff8 }

  function Member(k: bv64): bv64 { k & 7 }

  function Join(group: bv64, b: bv64): bv64 { group | b }

  function InGroup(k: bv64, b: bv64): bv64 { Join(Group(k), b) }

  function Raise3(k: bv64): bv64 { k << 3 }

  lemma DroppedIsGroup(k: bv64)
    ensures Raise3(Drop3(k)) == Group(k) && Drop3(Group(k)) == Drop3(k)
  {
    assert Raise3(k >> 3) == Group(k);
    assert Drop3(k & 0xffff_ffff_ffff_fff8) == Drop3(k);
  }

  lemma GroupsOfEight(k: bv64, l: bv64)
    ensures Drop3(k) == Drop3(l) <==> Group(k) == Group(l)
  {
    DroppedIsGroup(k);
    DroppedIsGroup(l);
  }

  lemma InOwnGroup(k: bv64)
    ensures InGroup(k, Member(k)) == k && Member(k) < 8
  {}

  lemma GroupMembers(k: bv64, b: bv64)
    requires b < 8
    ensures Group(InGroup(k, b)) == Group(k) && Member(InGroup(k, b)) == b
  {}

  /** The word that collides with crc and mixes to a word ending in the bits b. */
  function Sibling(crc: bv64, b: bv64): bv64 { Unjenkins(InGroup(Jenkins(crc), b)) }

  /** Two words have the same pre-modulus hash exactly when one is among the eight siblings of the other. */
  lemma CollisionsAreSiblings(x: bv64, y: bv64)
    ensures Hash(x) == Hash(y) <==> y == Sibling(x, Member(Jenkins(y)))
  {
    SameKnuth(Jenkins(x), Jenkins(y));
    JenkinsIsBijective(y);
    JenkinsIsBijective(InGroup(Jenkins(x), Member(Jenkins(y))));
  }

  lemma SameKnuth(k: bv64, l: bv64)
    ensures Knuth(k) == Knuth(l) <==> InGroup(k, Member(l)) == l
  {
    KnuthIsInjective(k, l);
    GroupsOfEight(k, l);
    InOwnGroup(l);
    GroupMembers(k, Member(l));
  }

  /** Every sibling collides. */
  lemma SiblingsCollide(x: bv64, b: bv64)
    requires b < 8
    ensures Hash(Sibling(x, b)) == Hash(x)
  {
    SiblingMixed(x, b);
    MemberKnuth(Jenkins(x), b);
  }

  /** The eight siblings are eight different words. */
  lemma SiblingsDiffer(x: bv64, b: bv64, c: bv64)
    requires b < 8 && c < 8 && b != c
    ensures Sibling(x, b) != Sibling(x, c)
  {
    SiblingMixed(x, b);
    SiblingMixed(x, c);
  }

  lemma SiblingMixed(x: bv64, b: bv64)
    requires b < 8
    ensures Jenkins(Sibling(x, b)) == InGroup(Jenkins(x), b)
    ensures Member(Jenkins(Sibling(x, b))) == b
  {
    JenkinsIsBijective(InGroup(Jenkins(x), b));
    GroupMembers(Jenkins(x), b);
  }

  lemma MemberKnuth(k: bv64, b: bv64)
    requires b < 8
    ensures Knuth(InGroup(k, b)) == Knuth(k)
  {
    GroupMembers(k, b);
    KnuthIsInjective(InGroup(k, b), k);
    GroupsOfEight(InGroup(k, b), k);
  }

  lemma EightAtMost(f: bv64 -> bv64, pick: bv64 -> bv64, s: set<bv64>)
    requires forall y | y in s :: pick(y) < 8 && y == f(pick(y))
    ensures |s| <= 8
  {
    var all := {f(0)} + {f(1)} + {f(2)} + {f(3)} + {f(4)} + {f(5)} + {f(6)} + {f(7)};
    forall y | y in s ensures y in all {
      OneOfEight(f, pick(y));
    }
    Sets.SubsetSize(s, all);
  }

  lemma OneOfEight(f: bv64 -> bv64, b: bv64)
    requires b < 8
    ensures f(b) in {f(0)} + {f(1)} + {f(2)} + {f(3)} + {f(4)} + {f(5)} + {f(6)} + {f(7)}
  {
    assert b == 0 || b == 1 || b == 2 || b == 3 || b == 4 || b == 5 || b == 6 || b == 7;
  }

  /** Which of the eight siblings y is. */
  function Rank(y: bv64): bv64 { Member(Jenkins(y)) }

  lemma RankOfSibling(x: bv64, y: bv64)
    requires Hash(y) == Hash(x)
    ensures Rank(y) < 8 && y == Sibling(x, Rank(y))
  {
    CollisionsAreSiblings(x, y);
    InOwnGroup(Jenkins(y));
  }

  /** At most eight CRC values share a pre-modulus hash. */
  lemma AtMostEightShareAHash(x: bv64, s: set<bv64>)
    requires forall y | y in s :: Hash(y) == Hash(x)
    ensures |s| <= 8
  {
    forall y | y in s ensures Rank(y) < 8 && y == Sibling(x, Rank(y)) {
      RankOfSibling(x, y);
    }
    EightAtMost(b => Sibling(x, b), Rank, s);
  }
}
