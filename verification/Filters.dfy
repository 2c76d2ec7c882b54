/** Addresses, prefix masks and the client/server filter rules. */
module Filters {

  // ----- octets and their bits -----

  type Octet = x: int | 0 <= x < 256

  datatype Ip = Ip(a: Octet, b: Octet, c: Octet, d: Octet)

  function Pow2(k: nat): (r: nat)
    ensures r > 0
  {
    if k == 0 then 1 else 2 * Pow2(k - 1)
  }

  /** Bit `p` of `x`, counted from the least significant one. */
  predicate BitOf(x: nat, p: nat) {
    if p == 0 then x % 2 == 1 else BitOf(x / 2, p - 1)
  }

  /** Bitwise and of the `k` lowest bits. */
  function And(x: nat, y: nat, k: nat): (r: nat)
    ensures r < Pow2(k)
  {
    if k == 0 then 0 else 2 * And(x / 2, y / 2, k - 1) + if x % 2 == 1 && y % 2 == 1 then 1 else 0
  }

  lemma {:induction false} AndBit(x: nat, y: nat, k: nat, p: nat)
    requires p < k
    ensures BitOf(And(x, y, k), p) <==> BitOf(x, p) && BitOf(y, p)
  {
    assert And(x, y, k) / 2 == And(x / 2, y / 2, k - 1);
    if p > 0 {
      AndBit(x / 2, y / 2, k - 1, p - 1);
    }
  }

  /** Numbers of `k` bits are equal when all their bits are. */
  lemma {:induction false} SameBits(x: nat, y: nat, k: nat)
    requires x < Pow2(k) && y < Pow2(k)
    requires forall p :: 0 <= p < k ==> BitOf(x, p) == BitOf(y, p)
    ensures x == y
  {
    if k > 0 {
      assert BitOf(x, 0) == BitOf(y, 0);
      forall p | 0 <= p < k - 1 ensures BitOf(x / 2, p) == BitOf(y / 2, p) {
        assert BitOf(x, p + 1) == BitOf(y, p + 1);
      }
      SameBits(x / 2, y / 2, k - 1);
    }
  }

  /** 2^k - 2^j has exactly the bits j to k - 1. */
  lemma {:induction false} HighBits(k: nat, j: nat, p: nat)
    requires j <= k && p < k
    ensures Pow2(j) <= Pow2(k) && (BitOf(Pow2(k) - Pow2(j), p) <==> p >= j)
  {
    Pow2Monotone(j, k);
    if j == 0 {
      if p > 0 {
        HighBits(k - 1, 0, p - 1);
        assert (Pow2(k) - 1) / 2 == Pow2(k - 1) - 1;
      }
    } else {
      assert (Pow2(k) - Pow2(j)) / 2 == Pow2(k - 1) - Pow2(j - 1);
      if p > 0 {
        HighBits(k - 1, j - 1, p - 1);
      }
    }
  }

  lemma {:induction false} Pow2Monotone(j: nat, k: nat)
    requires j <= k
    ensures Pow2(j) <= Pow2(k)
  {
    if j < k {
      Pow2Monotone(j, k - 1);
    }
  }

  lemma {:induction false} Pow2Add(i: nat, j: nat)
    ensures Pow2(i + j) == Pow2(i) * Pow2(j)
  {
    if i > 0 {
      Pow2Add(i - 1, j);
      assert Pow2(i + j) == 2 * Pow2(i - 1 + j);
    }
  }

  lemma Pow2OfEight()
    ensures Pow2(8) == 256 && Pow2(16) == 0x1_0000 && Pow2(24) == 0x100_0000 && Pow2(32) == 0x1_0000_0000
  {
    assert Pow2(4) == 16 && Pow2(8) == 256 by { Pow2Add(4, 4); }
    Pow2Add(8, 8);
    Pow2Add(8, 16);
    Pow2Add(8, 24);
  }

  // ----- masks -----

  function AndOctet(x: Octet, y: Octet): Octet {
    Pow2OfEight();
    And(x, y, 8)
  }

  function MaskedIp(ip: Ip, mask: Ip): Ip {
    Ip(AndOctet(ip.a, mask.a), AndOctet(ip.b, mask.b), AndOctet(ip.c, mask.c), AndOctet(ip.d, mask.d))
  }

  /** 256 - (1 << k) */
  function Complement(k: nat): Octet
    requires k <= 8
  {
    Pow2OfEight();
    Pow2Monotone(k, 8);
    256 - Pow2(k)
  }

  /** The mask the configuration builds from a prefix length. */
  function PrefixMask(m: nat): Ip {
    Ip(if m > 7 then 255 else Complement(8 - m),
       if m > 15 then 255 else if m < 9 then 0 else Complement(8 - (m - 8)),
       if m > 23 then 255 else if m < 17 then 0 else Complement(8 - (m - 16)),
       if m > 31 then 255 else if m < 25 then 0 else Complement(8 - (m - 24)))
  }

  function OctetAt(ip: Ip, j: nat): Octet
    requires j < 4
  {
    if j == 0 then ip.a else if j == 1 then ip.b else if j == 2 then ip.c else ip.d
  }

  /** Zero bits of octet `j` in the mask of `m` bits. */
  function ZeroBits(m: nat, j: nat): (z: nat)
    ensures z <= 8
  {
    if m <= 8 * j then 8 else if m >= 8 * j + 8 then 0 else 8 * j + 8 - m
  }

  lemma MaskOctets(m: nat, j: nat)
    requires j < 4
    ensures OctetAt(PrefixMask(m), j) == Complement(ZeroBits(m, j))
  {
    Pow2OfEight();
  }

  function Value(ip: Ip): nat { ip.a * 0x100_0000 + ip.b * 0x1_0000 + ip.c * 0x100 + ip.d }

  lemma MaskInUpperHalf(m: nat)
    requires m <= 16
    ensures Value(PrefixMask(m)) == if m <= 8 then (256 - Pow2(8 - m)) * 0x100_0000
                                    else 255 * 0x100_0000 + (256 - Pow2(16 - m)) * 0x1_0000
  {
    Pow2OfEight();
    assert Pow2(0) == 1;
  }

  lemma MaskInLowerHalf(m: nat)
    requires 16 < m <= 32
    ensures Value(PrefixMask(m)) == if m <= 24 then 0xFFFF_0000 + (256 - Pow2(24 - m)) * 0x100
                                    else 0xFFFF_FF00 + (256 - Pow2(32 - m))
  {
    Pow2OfEight();
    assert Pow2(0) == 1;
  }

  /** The four-octet formula is the mask of the prefix: the `m` highest of 32 bits set. */
  lemma MaskValue(m: nat)
    requires m <= 32
    ensures Value(PrefixMask(m)) == Pow2(32) - Pow2(32 - m)
  {
    Pow2OfEight();
    if m <= 16 {
      MaskInUpperHalf(m);
    } else {
      MaskInLowerHalf(m);
    }
    var high := if m <= 8 then 24 else if m <= 16 then 16 else if m <= 24 then 8 else 0;
    Pow2Add(high, 32 - high - m);
  }

  /** Bit `i` of the address, counted from the most significant one. */
  predicate Bit(ip: Ip, i: nat)
    requires i < 32
  {
    BitOf(OctetAt(ip, i / 8), 7 - i % 8)
  }

  ghost predicate SameLeadingBits(x: Ip, y: Ip, m: nat) {
    forall i :: 0 <= i < m && i < 32 ==> Bit(x, i) == Bit(y, i)
  }

  ghost predicate SameBitsFrom(x: Octet, y: Octet, z: nat) {
    forall p :: z <= p < 8 ==> BitOf(x, p) == BitOf(y, p)
  }

  lemma MaskedBit(x: Octet, z: nat, p: nat)
    requires z <= 8 && p < 8
    ensures BitOf(AndOctet(x, Complement(z)), p) <==> p >= z && BitOf(x, p)
  {
    Pow2OfEight();
    AndBit(x, Complement(z), 8, p);
    HighBits(8, z, p);
  }

  lemma OctetsAgree(x: Octet, y: Octet, z: nat)
    requires z <= 8
    ensures AndOctet(x, Complement(z)) == AndOctet(y, Complement(z)) <==> SameBitsFrom(x, y, z)
  {
    var a, b := AndOctet(x, Complement(z)), AndOctet(y, Complement(z));
    if a == b {
      forall p | z <= p < 8 ensures BitOf(x, p) == BitOf(y, p) {
        MaskedBit(x, z, p);
        MaskedBit(y, z, p);
      }
    }
    if SameBitsFrom(x, y, z) {
      forall p | 0 <= p < 8 ensures BitOf(a, p) == BitOf(b, p) {
        MaskedBit(x, z, p);
        MaskedBit(y, z, p);
      }
      Pow2OfEight();
      SameBits(a, b, 8);
    }
  }

  ghost predicate SameBitsInOctet(x: Ip, y: Ip, m: nat, j: nat)
    requires j < 4
  {
    forall i :: 8 * j <= i < 8 * j + 8 && i < m ==> Bit(x, i) == Bit(y, i)
  }

  lemma OctetBits(x: Ip, y: Ip, m: nat, j: nat)
    requires j < 4
    ensures SameBitsFrom(OctetAt(x, j), OctetAt(y, j), ZeroBits(m, j)) <==> SameBitsInOctet(x, y, m, j)
  {
    var u, v, z := OctetAt(x, j), OctetAt(y, j), ZeroBits(m, j);
    if SameBitsFrom(u, v, z) {
      forall i | 8 * j <= i < 8 * j + 8 && i < m ensures Bit(x, i) == Bit(y, i) {
        assert i / 8 == j;
        assert BitOf(u, 7 - i % 8) == BitOf(v, 7 - i % 8);
      }
    }
    if SameBitsInOctet(x, y, m, j) {
      forall p | z <= p < 8 ensures BitOf(u, p) == BitOf(v, p) {
        var i := 8 * j + 7 - p;
        assert i / 8 == j && 7 - i % 8 == p;
        assert Bit(x, i) == Bit(y, i);
      }
    }
  }

  lemma MaskedOctet(x: Ip, y: Ip, m: nat, j: nat)
    requires j < 4
    ensures OctetAt(MaskedIp(x, PrefixMask(m)), j) == OctetAt(MaskedIp(y, PrefixMask(m)), j)
            <==> SameBitsInOctet(x, y, m, j)
  {
    var mask := PrefixMask(m);
    assert OctetAt(MaskedIp(x, mask), j) == AndOctet(OctetAt(x, j), OctetAt(mask, j));
    assert OctetAt(MaskedIp(y, mask), j) == AndOctet(OctetAt(y, j), OctetAt(mask, j));
    MaskOctets(m, j);
    OctetsAgree(OctetAt(x, j), OctetAt(y, j), ZeroBits(m, j));
    OctetBits(x, y, m, j);
  }

  /** Two addresses are equal under the mask of `m` bits exactly when their `m` leading
      bits agree (section 3.1 of RFC 4632). */
  lemma PrefixMatch(x: Ip, y: Ip, m: nat)
    ensures MaskedIp(x, PrefixMask(m)) == MaskedIp(y, PrefixMask(m)) <==> SameLeadingBits(x, y, m)
  {
    var a, b := MaskedIp(x, PrefixMask(m)), MaskedIp(y, PrefixMask(m));
    assert a == b <==> forall j :: 0 <= j < 4 ==> OctetAt(a, j) == OctetAt(b, j) by {
      assert OctetAt(a, 0) == a.a && OctetAt(a, 1) == a.b && OctetAt(a, 2) == a.c && OctetAt(a, 3) == a.d;
      assert OctetAt(b, 0) == b.a && OctetAt(b, 1) == b.b && OctetAt(b, 2) == b.c && OctetAt(b, 3) == b.d;
    }
    forall j | 0 <= j < 4 ensures OctetAt(a, j) == OctetAt(b, j) <==> SameBitsInOctet(x, y, m, j) {
      MaskedOctet(x, y, m, j);
    }
    if a == b {
      forall i | 0 <= i < m && i < 32 ensures Bit(x, i) == Bit(y, i) {
        assert SameBitsInOctet(x, y, m, i / 8);
      }
    }
  }

  // ----- the rules -----

  datatype Rule = Rule(srcIp: Ip, srcMask: Ip, dstIp: Ip, dstMask: Ip, allow: bool)

  predicate Matches(r: Rule, server: Ip, client: Ip) {
    && MaskedIp(client, r.srcMask) == MaskedIp(r.srcIp, r.srcMask)
    && MaskedIp(server, r.dstMask) == MaskedIp(r.dstIp, r.dstMask)
  }

  /** The first matching rule decides; with none the pair is allowed. */
  predicate Allowed(rules: seq<Rule>, server: Ip, client: Ip) {
    if rules == [] then true
    else if Matches(rules[0], server, client) then rules[0].allow
    else Allowed(rules[1..], server, client)
  }

  method IsServerAllowed(rules: seq<Rule>, server: Ip, client: Ip) returns (val: bool)
    ensures val == Allowed(rules, server, client)
  {
    val := true;
    var i := 0;
    while i < |rules|
      invariant 0 <= i <= |rules| + 2
      invariant i <= |rules| ==> val && Allowed(rules, server, client) == Allowed(rules[i..], server, client)
      invariant i > |rules| ==> val == Allowed(rules, server, client)
    {
      if MaskedIp(client, rules[i].srcMask) == MaskedIp(rules[i].srcIp, rules[i].srcMask) {
        if MaskedIp(server, rules[i].dstMask) == MaskedIp(rules[i].dstIp, rules[i].dstMask) {
          val := rules[i].allow;
          i := |rules| + 1;
        }
      }
      i := i + 1;
    }
  }

  /** The decision belongs to the first rule that matches. */
  lemma {:induction false} FirstMatchDecides(rules: seq<Rule>, server: Ip, client: Ip, k: nat)
    requires k <= |rules| && forall i :: 0 <= i < k ==> !Matches(rules[i], server, client)
    ensures k < |rules| && Matches(rules[k], server, client) ==> Allowed(rules, server, client) == rules[k].allow
    ensures k == |rules| ==> Allowed(rules, server, client)
  {
    if k > 0 {
      FirstMatchDecides(rules[1..], server, client, k - 1);
    }
  }

  predicate IsPrefixRule(r: Rule, srcBits: nat, dstBits: nat) {
    r.srcMask == PrefixMask(srcBits) && r.dstMask == PrefixMask(dstBits)
  }

  /** A rule of two prefixes matches exactly the clients and servers whose leading bits agree
      with its own. */
  lemma MatchesPrefixes(r: Rule, srcBits: nat, dstBits: nat, server: Ip, client: Ip)
    requires IsPrefixRule(r, srcBits, dstBits)
    ensures Matches(r, server, client) <==>
            SameLeadingBits(client, r.srcIp, srcBits) && SameLeadingBits(server, r.dstIp, dstBits)
  {
    PrefixMatch(client, r.srcIp, srcBits);
    PrefixMatch(server, r.dstIp, dstBits);
  }

  /** The lengths of a rule's prefixes, for the clients and for the servers. */
  datatype Lengths = Lengths(src: nat, dst: nat)

  predicate ArePrefixRules(rules: seq<Rule>, lengths: seq<Lengths>) {
    |lengths| == |rules| && forall i :: 0 <= i < |rules| ==> IsPrefixRule(rules[i], lengths[i].src, lengths[i].dst)
  }

  /** The pair lies inside both prefixes of rule `i`. */
  ghost predicate Inside(rules: seq<Rule>, lengths: seq<Lengths>, i: nat, server: Ip, client: Ip)
    requires i < |rules| == |lengths|
  {
    SameLeadingBits(client, rules[i].srcIp, lengths[i].src) && SameLeadingBits(server, rules[i].dstIp, lengths[i].dst)
  }

  /** Among prefix rules the first one whose two prefixes the pair lies inside decides, and
      with none the pair is allowed. */
  lemma FirstPrefixDecides(rules: seq<Rule>, lengths: seq<Lengths>, server: Ip, client: Ip, k: nat)
    requires ArePrefixRules(rules, lengths) && k <= |rules|
    requires forall i :: 0 <= i < k ==> !Inside(rules, lengths, i, server, client)
    ensures k < |rules| && Inside(rules, lengths, k, server, client) ==>
              Allowed(rules, server, client) == rules[k].allow
    ensures k == |rules| ==> Allowed(rules, server, client)
  {
    forall i | 0 <= i < |rules|
      ensures Matches(rules[i], server, client) <==> Inside(rules, lengths, i, server, client)
    {
      MatchesPrefixes(rules[i], lengths[i].src, lengths[i].dst, server, client);
    }
    FirstMatchDecides(rules, server, client, k);
  }

  /** Rule `j`, whose two prefixes lie inside those of the earlier rule `i`, decides no
      pair: removing it changes no decision. */
  lemma ShadowedRule(rules: seq<Rule>, i: nat, j: nat, s1: nat, d1: nat, s2: nat, d2: nat, server: Ip, client: Ip)
    requires i < j < |rules|
    requires IsPrefixRule(rules[i], s1, d1) && IsPrefixRule(rules[j], s2, d2) && s1 <= s2 && d1 <= d2
    requires SameLeadingBits(rules[i].srcIp, rules[j].srcIp, s1) && SameLeadingBits(rules[i].dstIp, rules[j].dstIp, d1)
    ensures Matches(rules[j], server, client) ==> Matches(rules[i], server, client)
    ensures Allowed(rules, server, client) == Allowed(rules[..j] + rules[j + 1..], server, client)
  {
    MatchesPrefixes(rules[i], s1, d1, server, client);
    MatchesPrefixes(rules[j], s2, d2, server, client);
    RemoveUnusedRule(rules, j, server, client);
  }

  lemma {:induction false} RemoveUnusedRule(rules: seq<Rule>, j: nat, server: Ip, client: Ip)
    requires j < |rules|
    requires Matches(rules[j], server, client) ==> exists i :: 0 <= i < j && Matches(rules[i], server, client)
    ensures Allowed(rules, server, client) == Allowed(rules[..j] + rules[j + 1..], server, client)
  {
    var rest := rules[..j] + rules[j + 1..];
    if j == 0 {
      assert rest == rules[1..];
      return;
    }
    var tail := rules[1..];
    assert rest == [rules[0]] + (tail[..j - 1] + tail[j..]);
    assert rest[0] == rules[0] && rest[1..] == tail[..j - 1] + tail[j..];
    if !Matches(rules[0], server, client) {
      if Matches(rules[j], server, client) {
        var i :| 0 <= i < j && Matches(rules[i], server, client);
        assert tail[i - 1] == rules[i];
      }
      RemoveUnusedRule(tail, j - 1, server, client);
    }
  }

}
