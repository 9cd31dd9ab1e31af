/** The checksum of an IP header (net/ip.c): what `ip_out` stores and `ip_in` accepts, against the checksum of
    section 3.1 of RFC 791. */
module Checksum {

  type byte = x: int | 0 <= x < 256
  type word = x: int | 0 <= x < 0x10000

  const HDRWORDS := 10

  /** The header in network byte order. */
  type Header = h: seq<byte> | |h| == 2 * HDRWORDS witness seq(2 * HDRWORDS, _ => 0)

  /** A 16-bit load on a little-endian machine. */
  function Load(h: Header, i: int): word
    requires 0 <= i < HDRWORDS
  {
    h[2 * i] as int + 256 * (h[2 * i + 1] as int)
  }

  function Htons(w: word): word {
    w % 256 * 256 + w / 256
  }

  /** The `i`-th word of the header as a number. */
  function WordAt(h: Header, i: int): word
    requires 0 <= i < HDRWORDS
  {
    256 * (h[2 * i] as int) + h[2 * i + 1] as int
  }

  function SumTo(h: Header, n: int): (s: int)
    requires 0 <= n <= HDRWORDS
    ensures 0 <= s <= n * 0xFFFF
  {
    if n == 0 then 0 else SumTo(h, n - 1) + WordAt(h, n - 1)
  }

  /** What the code makes of the sum: one carry added in, complemented, with 0 for all ones. */
  function Fold(s: int): (c: word)
    requires 0 <= s
  {
    var f := s + s / 0x10000;
    var c := 0xFFFF - f % 0x10000;
    if c == 0xFFFF then 0 else c
  }

  /** The low half and the carries: what one fold adds up. */
  function Halves(s: int): int {
    s % 0x10000 + s / 0x10000
  }

  method Ipcksum(h: Header) returns (cksum: word)
    ensures cksum == Fold(SumTo(h, HDRWORDS))
  {
    var sum: int := 0;
    for i := 0 to HDRWORDS
      invariant sum == SumTo(h, i)
    {
      var w := Load(h, i);
      LoadSwapped(h, i);
      sum := sum + Htons(w) as int;
    }
    sum := sum + sum / 0x10000;
    sum := 0xFFFF - sum % 0x10000;
    if sum == 0xFFFF {
      sum := 0;
    }
    cksum := sum;
  }

  lemma LoadSwapped(h: Header, i: int)
    requires 0 <= i < HDRWORDS
    ensures Htons(Load(h, i)) == WordAt(h, i)
  {
  }

  // ---------- Sending and receiving ----------

  /** net_ipcksum is word 5 of the header. */
  const FIELD := 5

  /** Storing htons of a number, as a little-endian store. */
  function SetField(h: Header, c: word): Header {
    h[2 * FIELD := Htons(c) % 256][2 * FIELD + 1 := Htons(c) / 256]
  }

  lemma FieldWords(h: Header, c: word, i: int)
    requires 0 <= i < HDRWORDS
    ensures WordAt(SetField(h, c), i) == if i == FIELD then c else WordAt(h, i)
  {
  }

  lemma {:induction false} SumWithField(h: Header, c: word, n: int)
    requires 0 <= n <= HDRWORDS
    ensures SumTo(SetField(h, c), n) == SumTo(SetField(h, 0), n) + if n > FIELD then c else 0
  {
    hide SetField, WordAt;
    if n > 0 {
      SumWithField(h, c, n - 1);
      FieldWords(h, c, n - 1);
      FieldWords(h, 0, n - 1);
    }
  }

  /** The sum of the other nine words. */
  lemma {:induction false} ClearedSum(h: Header, n: int)
    requires 0 <= n <= HDRWORDS
    ensures SumTo(SetField(h, 0), n) <= (if n > FIELD then n - 1 else n) * 0xFFFF
  {
    hide SetField, WordAt;
    if n > 0 {
      ClearedSum(h, n - 1);
      FieldWords(h, 0, n - 1);
    }
  }

  /** A stored checksum is always accepted: over the header that ip_out sends, ipcksum is 0, also when adding
      in the carry carries once more. */
  lemma StoredIsAccepted(h: Header)
    ensures
      var c := Fold(SumTo(SetField(h, 0), HDRWORDS));
      Fold(SumTo(SetField(h, c), HDRWORDS)) == 0
  {
    hide SumTo, SetField, Fold;
    var s := SumTo(SetField(h, 0), HDRWORDS);
    ClearedSum(h, HDRWORDS);
    SumWithField(h, Fold(s), HDRWORDS);
    AddedIsAccepted(s);
  }

  /** net/ip.c:259-263, in ip_out: the field is cleared, the checksum computed and stored.  What ipcksum returns for
      the result is 0. */
  method StampHeader(h: Header) returns (r: Header)
    ensures r == SetField(h, Fold(SumTo(SetField(h, 0), HDRWORDS)))
    ensures Fold(SumTo(r, HDRWORDS)) == 0
    ensures forall i :: 0 <= i < |h| && i != 10 && i != 11 ==> r[i] == h[i]
  {
    hide Fold, SumTo;
    var cleared := SetField(h, 0);
    var cksum := Ipcksum(cleared);
    r := SetField(cleared, cksum);
    assert r == SetField(h, cksum);
    StoredIsAccepted(h);
  }

  /** The test of ip_in, net/ip.c:70-75, on what ip_out sends. */
  method Loopback(h: Header) returns (accepted: bool)
    ensures accepted
  {
    var sent := StampHeader(h);
    var cksum := Ipcksum(sent);
    accepted := cksum == 0;
  }

  lemma AddedIsAccepted(s: int)
    requires 0 <= s <= 9 * 0xFFFF
    ensures Fold(s + Fold(s)) == 0
  {
    hide Fold;
    var hi, lo := s / 0x10000, s % 0x10000;
    FoldHalves(s);
    if lo + hi == 0 || lo + hi == 0xFFFF || lo + hi == 0x10000 {
      assert Fold(s) == 0;
    } else if lo + hi < 0xFFFF {
      assert s + Fold(s) == hi * 0x10000 + (0xFFFF - hi);
      FoldParts(hi, 0xFFFF - hi);
    } else {
      assert s + Fold(s) == (hi + 1) * 0x10000 + (0xFFFF - hi);
      FoldParts(hi + 1, 0xFFFF - hi);
    }
  }

  lemma FoldHalves(s: int)
    requires 0 <= s < HDRWORDS * 0x10000
    ensures
      var t := Halves(s);
      && 0 <= t <= 0xFFFF + 9
      && Fold(s) == if t == 0 || t == 0xFFFF || t == 0x10000 then 0 else if t < 0xFFFF then 0xFFFF - t else 0x1_FFFF - t
  {
    var hi, lo := s / 0x10000, s % 0x10000;
    assert s + hi == hi * 0x10000 + (lo + hi);
  }

  lemma FoldParts(hi: int, lo: int)
    requires 0 <= hi <= 9 && 0 <= lo <= 0xFFFF
    ensures Halves(hi * 0x10000 + lo) == hi + lo
    ensures hi + lo == 0xFFFF || hi + lo == 0x10000 ==> Fold(hi * 0x10000 + lo) == 0
  {
    hide Fold, Halves;
    var s := hi * 0x10000 + lo;
    FoldHalves(s);
    HalvesAre(hi, lo);
  }

  lemma HalvesAre(hi: int, lo: int)
    requires 0 <= hi && 0 <= lo <= 0xFFFF
    ensures Halves(hi * 0x10000 + lo) == hi + lo
  {
  }

  /** What ip_in accepts: exactly the headers whose words add up to 0 modulo 65535, and those whose carry carries
      once more to exactly 65536. */
  lemma AcceptedIff(h: Header)
    ensures
      var s := SumTo(h, HDRWORDS);
      Fold(s) == 0 <==> s % 0xFFFF == 0 || Halves(s) == 0x10000
  {
    hide Fold, Halves, SumTo;
    var s := SumTo(h, HDRWORDS);
    FoldHalves(s);
    HalvesRest(s);
    SmallRest(Halves(s));
  }

  lemma SmallRest(t: int)
    requires 0 <= t < 3 * 0xFFFF
    ensures t % 0xFFFF == if t < 0xFFFF then t else if t < 2 * 0xFFFF then t - 0xFFFF else t - 2 * 0xFFFF
  {
  }

  lemma HalvesRest(s: int)
    requires 0 <= s
    ensures s % 0xFFFF == Halves(s) % 0xFFFF
  {
    assert s == 0xFFFF * (s / 0x10000) + Halves(s);
  }

  // ---------- The checksum of RFC 791 ----------

  /** The one's complement sum of two words: a carry out of the top is added in at the bottom. */
  function OnesAdd(a: word, b: word): word {
    if a + b < 0x10000 then a + b else a + b - 0xFFFF
  }

  function OnesSum(h: Header, n: int): word
    requires 0 <= n <= HDRWORDS
  {
    if n == 0 then 0 else OnesAdd(OnesSum(h, n - 1), WordAt(h, n - 1))
  }

  /** The 16 bit one's complement of the one's complement sum of all 16 bit words in the header. */
  function Rfc791(h: Header): word {
    0xFFFF - OnesSum(h, HDRWORDS)
  }

  /** End-around carries keep the sum modulo 65535, and reach 0 only from zeros. */
  lemma {:induction false} OnesSumRest(h: Header, n: int)
    requires 0 <= n <= HDRWORDS
    ensures OnesSum(h, n) % 0xFFFF == SumTo(h, n) % 0xFFFF
    ensures OnesSum(h, n) == 0 <==> SumTo(h, n) == 0
  {
    if n > 0 {
      OnesSumRest(h, n - 1);
      AddRest(OnesSum(h, n - 1), SumTo(h, n - 1), WordAt(h, n - 1));
    }
  }

  lemma AddRest(a: int, s: int, w: int)
    requires a % 0xFFFF == s % 0xFFFF
    ensures (a + w) % 0xFFFF == (s + w) % 0xFFFF && (a + w - 0xFFFF) % 0xFFFF == (s + w) % 0xFFFF
  {
    var k := a / 0xFFFF - s / 0xFFFF;
    assert a + w == s + w + 0xFFFF * k;
    SameRest(s + w, k);
    SameRest(s + w, k - 1);
  }

  lemma SameRest(x: int, k: int)
    ensures (x + 0xFFFF * k) % 0xFFFF == x % 0xFFFF
  {
    assert x + 0xFFFF * k == 0xFFFF * (x / 0xFFFF + k) + x % 0xFFFF;
  }

  /** ipcksum is the checksum of RFC 791 exactly when the words are not all zero and adding in the carry does not
      carry again. */
  lemma EqualsRfcIff(h: Header)
    ensures
      var s := SumTo(h, HDRWORDS);
      Fold(s) == Rfc791(h) <==> s > 0 && Halves(s) < 0x10000
  {
    hide Fold, Halves, SumTo, OnesSum;
    var s := SumTo(h, HDRWORDS);
    OnesSumRest(h, HDRWORDS);
    FoldHalves(s);
    HalvesRest(s);
    HalvesZero(s);
    SmallRest(Halves(s));
    SmallRest(OnesSum(h, HDRWORDS));
  }

  /** A receiver that checks for a one's complement sum of all ones takes the header that ip_out sends exactly
      when its stored checksum is the standard one. */
  lemma StandardReceiver(h: Header)
    ensures
      var s := SumTo(SetField(h, 0), HDRWORDS);
      OnesSum(SetField(h, Fold(s)), HDRWORDS) == 0xFFFF <==> s > 0 && Halves(s) < 0x10000
  {
    hide Fold, Halves, SumTo, OnesSum, SetField;
    var s := SumTo(SetField(h, 0), HDRWORDS);
    var r := SetField(h, Fold(s));
    ClearedSum(h, HDRWORDS);
    SumWithField(h, Fold(s), HDRWORDS);
    FoldHalves(s);
    OnesSumRest(r, HDRWORDS);
    HalvesRest(s);
    HalvesZero(s);
    AddRest(s, Halves(s), Fold(s));
    SmallRest(Halves(s) + Fold(s));
    SmallRest(OnesSum(r, HDRWORDS));
  }

  lemma HalvesZero(s: int)
    requires 0 <= s
    ensures Halves(s) == 0 <==> s == 0
  {
  }

  /** A header for which adding in the carry carries again, so that the stored checksum is not the standard one. */
  lemma SecondCarryExists()
    ensures
      var h: Header := [0xFF, 0xFF, 0xFF, 0xFF, 0, 1, 0, 0, 0, 0, 0, 0, 0, 0, 0, 0, 0, 0, 0, 0];
      SumTo(h, HDRWORDS) == 0x1_FFFF && Fold(SumTo(h, HDRWORDS)) == 0 && Rfc791(h) == 0xFFFE
  {
    var h: Header := [0xFF, 0xFF, 0xFF, 0xFF, 0, 1, 0, 0, 0, 0, 0, 0, 0, 0, 0, 0, 0, 0, 0, 0];
    assert SumTo(h, 0) == 0 && OnesSum(h, 0) == 0;
    assert SumTo(h, 1) == 0xFFFF && OnesSum(h, 1) == 0xFFFF;
    assert SumTo(h, 2) == 0x1_FFFE && OnesSum(h, 2) == 0xFFFF;
    assert SumTo(h, 3) == 0x1_FFFF && OnesSum(h, 3) == 1;
    hide SumTo, OnesSum;
    ZeroTail(h, 3, HDRWORDS);
  }

  lemma {:induction false} ZeroTail(h: Header, m: int, n: int)
    requires 0 <= m <= n <= HDRWORDS && forall i :: m <= i < n ==> WordAt(h, i) == 0
    ensures SumTo(h, n) == SumTo(h, m) && OnesSum(h, n) == OnesSum(h, m)
    decreases n - m
  {
    if m < n { ZeroTail(h, m, n - 1); }
  }
}
