/** Which partition a Java producer picks for a key: Kafka's murmur2 of its bytes. */
module KafkaHash {
  type Bytes = seq<bv8>

  const MULTIPLIER: bv32 := 0x5bd1_e995

  /** Four bytes from `at` as a little-endian number. */
  function Word(data: Bytes, at: nat): bv32
    requires at + 4 <= |data|
  {
    (data[at] as bv32) | ((data[at + 1] as bv32) << 8) | ((data[at + 2] as bv32) << 16) | ((data[at + 3] as bv32) << 24)
  }

  function MixWord(h: bv32, word: bv32): bv32 {
    var k := word * MULTIPLIER;
    var mixed := (k ^ (k >> 24)) * MULTIPLIER;
    (h * MULTIPLIER) ^ mixed
  }

  /** The hash after `n` whole words. */
  function MixWords(data: Bytes, n: nat): bv32
    requires 4 * n <= |data|
  {
    if n == 0 then 0x9747_b28c ^ ((|data| % 0x1_0000_0000) as bv32) else MixWord(MixWords(data, n - 1), Word(data, 4 * (n - 1)))
  }

  function MixTail(h: bv32, tail: Bytes): bv32
    requires |tail| < 4
  {
    if tail == [] then h
    else
      var h2 := if |tail| == 3 then h ^ ((tail[2] as bv32) << 16) else h;
      var h1 := if |tail| >= 2 then h2 ^ ((tail[1] as bv32) << 8) else h2;
      (h1 ^ (tail[0] as bv32)) * MULTIPLIER
  }

  function Finish(h: bv32): bv32 {
    var a := h ^ (h >> 13);
    var b := a * MULTIPLIER;
    b ^ (b >> 15)
  }

  function HashOf(data: Bytes): bv32 {
    Finish(MixTail(MixWords(data, |data| / 4), data[|data| / 4 * 4..]))
  }

  /** Kafka's murmur2, word by word, with its fall-through tail. */
  method Murmur2(data: Bytes) returns (h: bv32)
    ensures h == HashOf(data)
  {
    h := 0x9747_b28c ^ ((|data| % 0x1_0000_0000) as bv32);
    var n := 0;
    while 4 * (n + 1) <= |data|
      invariant 4 * n <= |data| && h == MixWords(data, n)
    {
      h, n := MixWord(h, Word(data, 4 * n)), n + 1;
    }
    h := Finish(MixTail(h, data[|data| / 4 * 4..]));
  }

  /** The partition a Java producer picks for a key: its hash made positive,
      modulo how many partitions there are. */
  function PartitionFor(key: Bytes, partitions: seq<int>): (p: int)
    requires partitions != []
    ensures p in partitions
  {
    partitions[((HashOf(key) & 0x7fff_ffff) as int) % |partitions|]
  }

  // -------------------------------------------------------------------------
  // The values Kafka pins
  // -------------------------------------------------------------------------

  lemma {:induction false} HashSteps(data: Bytes, words: bv32, tail: bv32)
    requires MixWords(data, |data| / 4) == words && MixTail(words, data[|data| / 4 * 4..]) == tail
    ensures HashOf(data) == Finish(tail)
  {
  }

  lemma NextWord(data: Bytes, n: nat, before: bv32, word: bv32)
    requires 4 * n + 4 <= |data| && MixWords(data, n) == before && Word(data, 4 * n) == word
    ensures MixWords(data, n + 1) == MixWord(before, word)
  {
  }

  /** The hash of `21`. */
  lemma {:induction false} Kafka21()
    ensures HashOf([0x32, 0x31]) == 0xc5f2_f8ec
  {
    var data: Bytes := [0x32, 0x31];
    assert MixWords(data, 0) == 0x9747_b28e;
    assert data[0..] == [0x32, 0x31];
    assert MixTail(0x9747_b28e, [0x32, 0x31]) == 0x8401_c86c;
    HashSteps(data, 0x9747_b28e, 0x8401_c86c);
    assert Finish(0x8401_c86c) == 0xc5f2_f8ec;
  }

  /** The hash of `abc`. */
  lemma {:induction false} KafkaAbc()
    ensures HashOf([0x61, 0x62, 0x63]) == 0x1c94_221b
  {
    var data: Bytes := [0x61, 0x62, 0x63];
    assert MixWords(data, 0) == 0x9747_b28f;
    assert data[0..] == [0x61, 0x62, 0x63];
    assert MixTail(0x9747_b28f, [0x61, 0x62, 0x63]) == 0xa6e4_3886;
    HashSteps(data, 0x9747_b28f, 0xa6e4_3886);
    assert Finish(0xa6e4_3886) == 0x1c94_221b;
  }

  /** The hash of `foobar`. */
  lemma {:induction false} KafkaFoobar()
    ensures HashOf([0x66, 0x6f, 0x6f, 0x62, 0x61, 0x72]) == 0xd0e4_7bbe
  {
    var data: Bytes := [0x66, 0x6f, 0x6f, 0x62, 0x61, 0x72];
    assert MixWords(data, 0) == 0x9747_b28a;
    assert Word(data, 0) == 0x626f_6f66;
    NextWord(data, 0, 0x9747_b28a, 0x626f_6f66);
    assert MixWord(0x9747_b28a, 0x626f_6f66) == 0x0b27_c60b;
    assert data[4..] == [0x61, 0x72];
    assert MixTail(0x0b27_c60b, [0x61, 0x72]) == 0x99da_7bb2;
    HashSteps(data, 0x0b27_c60b, 0x99da_7bb2);
    assert Finish(0x99da_7bb2) == 0xd0e4_7bbe;
  }

  /** A key whose hash is negative counts from the bottom of the range, masked. */
  lemma MaskedPartition(key: Bytes, partitions: seq<int>)
    requires partitions != []
    ensures PartitionFor(key, partitions)
         == partitions[((if HashOf(key) < 0x8000_0000 then HashOf(key) else HashOf(key) ^ 0x8000_0000) as int) % |partitions|]
  {
    Masked(HashOf(key));
  }

  lemma Masked(h: bv32)
    ensures h & 0x7fff_ffff == if h < 0x8000_0000 then h else h ^ 0x8000_0000
  {
  }
}
