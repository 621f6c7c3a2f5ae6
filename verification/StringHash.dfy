// hashmap_hash_int of hashmap.c: the CRC of the key, mixed, multiplied and reduced to a slot index.
module StringHash {
  import Crc
  import opened Mix

  /** A C char holds eight bits. */
  function Byte(c: char): bv8 { LowByte(c as int) }

  function LowByte(i: int): bv8 { (i % 256) as bv8 }

  function Bytes(s: string): (b: seq<bv8>) { seq(|s|, i requires 0 <= i < |s| => Byte(s[i])) }

  /** Every character counts with its own code: keys are told apart, upper and lower case included. */
  lemma BytesAreCodes(s: string, i: nat)
    requires i < |s| && s[i] as int < 256
    ensures |Bytes(s)| == |s| && Bytes(s)[i] as int == s[i] as int
  {
    LowByteKeeps(s[i] as int);
  }

  lemma LowByteKeeps(i: int)
    requires 0 <= i < 256
    ensures LowByte(i) as int == i
  {
    assert i % 256 == i;
    assert (i as bv8) as int == i;
  }

  lemma BytesDiffer(s: string, t: string)
    requires Bytes(s) == Bytes(t)
    requires (forall i | 0 <= i < |s| :: s[i] as int < 256) && forall i | 0 <= i < |t| :: t[i] as int < 256
    ensures s == t
  {
    assert |Bytes(s)| == |s| && |Bytes(t)| == |t|;
    forall i | 0 <= i < |s| ensures s[i] == t[i] {
      BytesAreCodes(s, i);
      BytesAreCodes(t, i);
    }
  }

  /** What hashmap_hash_int computes before the final remainder. */
  function KeyHash(key: string): nat {
    Hash(Crc.Serial(0, Bytes(key)) as bv64) as nat
  }

  /** The mixing statements: each step function is one of them. */
  method MixKey(crc: bv64) returns (key: bv64)
    ensures key == Hash(crc)
  {
    key := AddShift12(crc);
    key := XorShift22(key);
    key := AddShift4(key);
    key := XorShift9(key);
    key := AddShift10(key);
    key := XorShift2(key);
    key := AddShift7(key);
    key := XorShift12(key);
    key := Multiply(Drop3(key));
  }

  method HashInt(keystring: string, tableSize: int) returns (index: int)
    requires 8 <= tableSize
    ensures index == KeyHash(keystring) % tableSize
  {
    var crc := Crc.Crc32(Bytes(keystring));
    var key := MixKey(crc);
    index := key as int % tableSize;
  }
}
