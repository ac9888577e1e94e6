/** Storage keys of URLs: 63 bits, a 7-bit checksum of the hostname above a 56-bit fold of a 64-bit FNV-1a hash. */
module Keys {
  import opened Bits

  type Key = Word

  const TWO_56 := 0x100_0000_0000_0000
  const MASK_56 := 0xff_ffff_ffff_ffff
  const CHECKSUM_MASK := 127 * TWO_56
  const WORD_LIMIT := 0x1_0000_0000_0000_0000
  const FNV_OFFSET: Word := 0xcbf2_9ce4_8422_2325
  const FNV_PRIME := 0x100_0000_01b3

  /** The eight-bit checksum, wrapping at 256. */
  function Checksum(bytes: Bytes): byte {
    if bytes == [] then 0 else (Checksum(bytes[..|bytes| - 1]) + bytes[|bytes| - 1]) % 0x100
  }

  /** The true sum of the bytes. */
  function ByteSum(bytes: Bytes): nat {
    if bytes == [] then 0 else ByteSum(bytes[..|bytes| - 1]) + bytes[|bytes| - 1]
  }

  /** One FNV-1a round: exclusive or, then multiplication modulo 2^64. */
  function Round(hash: Word, b: byte): Word {
    Xor(hash, b) * FNV_PRIME % WORD_LIMIT
  }

  function Fnv1a(start: Word, bytes: Bytes): Word {
    if bytes == [] then start else Round(Fnv1a(start, bytes[..|bytes| - 1]), bytes[|bytes| - 1])
  }

  /** The top byte of a hash folded into its low 56 bits. */
  function Fold(hash: Word): Word {
    XorBelow56(hash / TWO_56, hash % TWO_56);
    Xor(hash / TWO_56, hash % TWO_56)
  }

  function KeyOf(hostname: Bytes, url: Bytes): Key {
    XorBelow56(Fnv1a(FNV_OFFSET, url) / TWO_56, Fnv1a(FNV_OFFSET, url) % TWO_56);
    ByteSum(hostname) % 128 * TWO_56 + Fold(Fnv1a(FNV_OFFSET, url))
  }

  lemma XorBelow56(a: nat, b: nat)
    requires a < TWO_56 && b < TWO_56
    ensures Xor(a, b) < TWO_56
  {
    Powers();
    XorBound(a, b, 56);
  }

  /** The streaming hasher that a key is computed with. */
  class Fnv64a {
    var state: Word

    constructor ()
      ensures state == FNV_OFFSET
    {
      state := FNV_OFFSET;
    }

    method Write(data: Bytes)
      modifies this
      ensures state == Fnv1a(old(state), data)
    {
      for i := 0 to |data|
        invariant state == Fnv1a(old(state), data[..i])
      {
        state := Xor(state, data[i]) * FNV_PRIME % WORD_LIMIT;
        assert data[..i + 1][..i] == data[..i];
      }
      assert data[..|data|] == data;
    }

    method Sum64() returns (sum: Word)
      ensures sum == state
    {
      sum := state;
    }
  }

  method ComputeKey(hostname: Bytes, url: Bytes) returns (key: Key)
    ensures key == KeyOf(hostname, url)
  {
    var sum: byte := 0;
    for i := 0 to |hostname|
      invariant sum == Checksum(hostname[..i])
    {
      sum := (sum + hostname[i]) % 0x100;
      assert hostname[..i + 1][..i] == hostname[..i];
    }
    assert hostname[..|hostname|] == hostname;
    var h := new Fnv64a();
    h.Write(url);
    var hash := h.Sum64();
    key := Pack(sum, hash);
    ChecksumIsSum(hostname);
  }

  /** The word-level packing of a checksum and a hash: shift, mask, fold and combine. */
  method Pack(sum: byte, hash: Word) returns (key: Key)
    ensures key == sum % 128 * TWO_56 + Fold(hash)
  {
    var seg := And(sum * TWO_56, CHECKSUM_MASK);
    var folded := Xor(hash / TWO_56, And(hash, MASK_56));
    SegmentOf(sum);
    MaskedHash(hash);
    PartsDisjoint(sum % 128, hash);
    key := Or(seg, folded);
  }

  lemma SegmentOf(sum: byte)
    ensures And(sum * TWO_56, CHECKSUM_MASK) == sum % 128 * TWO_56
  {
    Powers();
    AndShiftedMask(sum, sum / 128, sum % 128, 127, 7, 56);
  }

  lemma MaskedHash(hash: Word)
    ensures And(hash, MASK_56) == hash % TWO_56
  {
    Powers();
    AndMask(hash / TWO_56, hash % TWO_56, 56);
  }

  lemma PartsDisjoint(a: nat, hash: Word)
    ensures Or(a * TWO_56, Fold(hash)) == a * TWO_56 + Fold(hash)
    ensures Fold(hash) < TWO_56
  {
    Powers();
    XorBelow56(hash / TWO_56, hash % TWO_56);
    OrDisjoint(a, Fold(hash), 56);
  }

  /** The sum of the bytes adds up over any division of a text. */
  lemma {:induction false} ByteSumAdds(a: Bytes, b: Bytes, c: byte)
    ensures ByteSum(a + b) == ByteSum(a) + ByteSum(b) && ByteSum([c]) == c
  {
    if b == [] {
      assert a + b == a;
    } else {
      ByteSumAdds(a, b[..|b| - 1], c);
      assert (a + b)[..|a + b| - 1] == a + b[..|b| - 1];
    }
  }

  lemma {:induction false} ChecksumIsSum(bytes: Bytes)
    ensures Checksum(bytes) == ByteSum(bytes) % 0x100
    ensures Checksum(bytes) % 128 == ByteSum(bytes) % 128
  {
    if bytes != [] {
      ChecksumIsSum(bytes[..|bytes| - 1]);
      WrappedSum(ByteSum(bytes[..|bytes| - 1]), bytes[|bytes| - 1]);
    }
  }

  lemma WrappedSum(sum: nat, b: byte)
    ensures (sum % 0x100 + b) % 0x100 == (sum + b) % 0x100
    ensures (sum + b) % 0x100 % 128 == (sum + b) % 128
  {
    RemainderOfByte(sum + b, sum / 0x100, sum % 0x100 + b);
    var n := sum + b;
    assert n == 128 * (2 * (n / 0x100)) + n % 0x100;
    RemainderOfSegment(n, 2 * (n / 0x100), n % 0x100);
  }

  lemma RemainderOfByte(n: nat, q: nat, r: nat)
    requires n == 0x100 * q + r
    ensures n % 0x100 == r % 0x100
  {
    assert n == 0x100 * (q + r / 0x100) + r % 0x100;
  }

  lemma RemainderOfSegment(n: nat, q: nat, r: nat)
    requires n == 128 * q + r
    ensures n % 128 == r % 128
  {
    assert n == 128 * (q + r / 128) + r % 128;
  }

  /** Hashing a concatenation continues from the hash of its first part, so a hasher may be fed piecemeal. */
  lemma {:induction false} Fnv1aAppend(start: Word, a: Bytes, b: Bytes)
    ensures Fnv1a(start, a + b) == Fnv1a(Fnv1a(start, a), b)
  {
    if b == [] {
      assert a + b == a;
    } else {
      Fnv1aAppend(start, a, b[..|b| - 1]);
      assert (a + b)[..|a + b| - 1] == a + b[..|b| - 1];
    }
  }

  /** The FNV prime is invertible modulo 2^64, so multiplying by it loses nothing. */
  lemma MultiplyInjective(x: Word, y: Word)
    requires x * FNV_PRIME % WORD_LIMIT == y * FNV_PRIME % WORD_LIMIT
    ensures x == y
  {
    CancelPrime(x - y, x * FNV_PRIME / WORD_LIMIT - y * FNV_PRIME / WORD_LIMIT);
  }

  /** 0xce965057aff6957b is the inverse of the prime modulo 2^64. */
  lemma CancelPrime(d: int, k: int)
    requires d * 0x100_0000_01b3 == k * 0x1_0000_0000_0000_0000
    requires -0x1_0000_0000_0000_0000 < d < 0x1_0000_0000_0000_0000
    ensures d == 0
  {
    var j := 0x100_0000_01b3 * 0xce96_5057_aff6_957b / 0x1_0000_0000_0000_0000;
    assert 0x100_0000_01b3 * 0xce96_5057_aff6_957b == j * 0x1_0000_0000_0000_0000 + 1;
    assert d == 0x1_0000_0000_0000_0000 * (k * 0xce96_5057_aff6_957b - d * j);
  }

  /** A round is injective in the hash it continues from... */
  lemma RoundInjectiveInHash(h1: Word, h2: Word, b: byte)
    requires Round(h1, b) == Round(h2, b)
    ensures h1 == h2
  {
    XorWord(h1, b);
    XorWord(h2, b);
    MultiplyInjective(Xor(h1, b), Xor(h2, b));
    XorInjective(h1, h2, b);
  }

  /** ... and in the byte it absorbs. */
  lemma RoundInjectiveInByte(h: Word, b1: byte, b2: byte)
    requires Round(h, b1) == Round(h, b2)
    ensures b1 == b2
  {
    XorWord(h, b1);
    XorWord(h, b2);
    MultiplyInjective(Xor(h, b1), Xor(h, b2));
    XorCommutes(h, b1);
    XorCommutes(h, b2);
    XorInjective(b1, b2, h);
  }

  lemma XorWord(a: Word, b: Word)
    ensures Xor(a, b) < WORD_LIMIT
  {
    Powers();
    XorBound(a, b, 64);
  }

  lemma {:induction false} Fnv1aInjectiveInStart(h1: Word, h2: Word, bytes: Bytes)
    requires Fnv1a(h1, bytes) == Fnv1a(h2, bytes)
    ensures h1 == h2
  {
    if bytes != [] {
      var init, last := bytes[..|bytes| - 1], bytes[|bytes| - 1];
      RoundInjectiveInHash(Fnv1a(h1, init), Fnv1a(h2, init), last);
      Fnv1aInjectiveInStart(h1, h2, init);
    }
  }

  /** Two strings that differ in exactly one byte have different 64-bit hashes. */
  lemma OneByteChangesHash(s: Bytes, t: Bytes, i: nat)
    requires |s| == |t| && i < |s| && s[i] != t[i]
    requires forall j | 0 <= j < |s| && j != i :: s[j] == t[j]
    ensures Fnv1a(FNV_OFFSET, s) != Fnv1a(FNV_OFFSET, t)
  {
    var before, rest := s[..i], s[i + 1..];
    assert s == before + [s[i]] + rest && t == before + [t[i]] + rest;
    Fnv1aAppend(FNV_OFFSET, before + [s[i]], rest);
    Fnv1aAppend(FNV_OFFSET, before + [t[i]], rest);
    assert (before + [s[i]])[..i] == before && (before + [t[i]])[..i] == before;
    var h := Fnv1a(FNV_OFFSET, before);
    if Fnv1a(FNV_OFFSET, s) == Fnv1a(FNV_OFFSET, t) {
      Fnv1aInjectiveInStart(Round(h, s[i]), Round(h, t[i]), rest);
      RoundInjectiveInByte(h, s[i], t[i]);
    }
  }

  /** Exactly which pairs of hashes fold together: those whose top bytes differ by what their low 56 bits differ by.
      Two different hashes that fold together therefore differ in their top byte. */
  lemma FoldCollides(h1: Word, h2: Word)
    ensures Fold(h1) == Fold(h2) <==> Xor(h1 / TWO_56, h2 / TWO_56) == Xor(h1 % TWO_56, h2 % TWO_56)
    ensures Fold(h1) == Fold(h2) && h1 != h2 ==> h1 / TWO_56 != h2 / TWO_56
  {
    XorSwap(h1 / TWO_56, h1 % TWO_56, h2 / TWO_56, h2 % TWO_56);
    XorZero(h1 / TWO_56, h2 / TWO_56);
    XorZero(h1 % TWO_56, h2 % TWO_56);
  }

  /** The layout of a key: bit 63 clear, bits 56 to 62 the hostname's byte sum modulo 128, bits 0 to 55 the folded
      hash, and nothing else. */
  lemma KeyLayout(hostname: Bytes, url: Bytes)
    ensures KeyOf(hostname, url) < 0x8000_0000_0000_0000
    ensures KeyOf(hostname, url) / 0x100_0000_0000_0000 == ByteSum(hostname) % 128
    ensures
      var hash := Fnv1a(FNV_OFFSET, url);
      KeyOf(hostname, url) % 0x100_0000_0000_0000 == Xor(hash / 0x100_0000_0000_0000, hash % 0x100_0000_0000_0000)
  {
    XorBelow56(Fnv1a(FNV_OFFSET, url) / TWO_56, Fnv1a(FNV_OFFSET, url) % TWO_56);
  }

  /** All keys of one hostname lie in one block of 2^56 keys, and inside it two keys coincide exactly when the folded
      hashes do. */
  lemma HostnameBlock(hostname: Bytes, url1: Bytes, url2: Bytes)
    ensures KeyOf(hostname, url1) / TWO_56 == KeyOf(hostname, url2) / TWO_56
    ensures KeyOf(hostname, url1) == KeyOf(hostname, url2) <==>
            Fold(Fnv1a(FNV_OFFSET, url1)) == Fold(Fnv1a(FNV_OFFSET, url2))
  {
    KeyLayout(hostname, url1);
    KeyLayout(hostname, url2);
  }

  /** Two URLs of one hostname that differ in exactly one byte share a key only if the top bytes of their hashes
      differ. */
  lemma OneByteCollision(hostname: Bytes, s: Bytes, t: Bytes, i: nat)
    requires |s| == |t| && i < |s| && s[i] != t[i]
    requires forall j | 0 <= j < |s| && j != i :: s[j] == t[j]
    requires KeyOf(hostname, s) == KeyOf(hostname, t)
    ensures Fnv1a(FNV_OFFSET, s) / TWO_56 != Fnv1a(FNV_OFFSET, t) / TWO_56
  {
    OneByteChangesHash(s, t, i);
    HostnameBlock(hostname, s, t);
    FoldCollides(Fnv1a(FNV_OFFSET, s), Fnv1a(FNV_OFFSET, t));
  }

  // ---- The published hash ----

  /** One round of FNV-1a in numbers: only the low byte of the hash meets the byte. */
  lemma RoundIs(hash: Word, b: byte, high: nat, low: byte, mixed: byte, next: Word)
    requires hash == high * 0x100 + low && Xor(low, b) == mixed
    requires next == (high * 0x100 + mixed) * 0x100_0000_01b3 % 0x1_0000_0000_0000_0000
    ensures Round(hash, b) == next
  {
    SmallPowers();
    ShiftedIsProduct(high, 8);
    XorLowBits(high, low, b, 8);
  }

  /** Hashing one more byte is an exclusive or and then a multiplication by the prime modulo 2^64. */
  lemma FnvOneMore(start: Word, bytes: Bytes, b: byte)
    ensures Fnv1a(start, bytes + [b]) == Xor(Fnv1a(start, bytes), b) * 0x100_0000_01b3 % 0x1_0000_0000_0000_0000
  {
    assert (bytes + [b])[..|bytes|] == bytes;
  }

  lemma XorOfA()
    ensures Xor(0x25, 0x61) == 0x44
  {
  }

  /** The published hashes of "" and "a" (the test vectors of draft-eastlake-fnv). */
  lemma FnvIsPublished(text: Bytes)
    ensures text == [] ==> Fnv1a(FNV_OFFSET, text) == 0xcbf2_9ce4_8422_2325
    ensures text == [0x61] ==> Fnv1a(FNV_OFFSET, text) == 0xaf63_dc4c_8601_ec8c
  {
    if |text| == 1 && text[0] == 0x61 {
      assert text == text[..0] + [text[0]];
      XorOfA();
      RoundIs(Fnv1a(FNV_OFFSET, text[..0]), text[0], 0xcb_f29c_e484_2223, 0x25, 0x44, 0xaf63_dc4c_8601_ec8c);
      FnvOneMore(FNV_OFFSET, text[..0], text[0]);
    }
  }
}
