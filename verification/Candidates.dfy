/** Candidates and the priorities computed from them. */
module Candidates {
  import opened Arith

  datatype Kind = Host | ServerReflexive | PeerReflexive | Relayed

  datatype Address = Address(family: nat, host: nat, port: nat)

  /** `id` stands for the identity of the candidate object. */
  datatype Candidate = Candidate(
    id: nat, kind: Kind, component: nat, addr: Address, socket: nat, priority: nat, foundation: string)

  const PEER_REFLEXIVE_PREFERENCE: nat := 110

  /** The recommended candidate priority, in 32-bit arithmetic. */
  function IcePriority(typePreference: nat, localPreference: nat, componentId: nat): nat {
    U32(0x100_0000 * typePreference + 0x100 * localPreference + (0x100 - componentId))
  }

  /** The pair priority of the controlling side's candidate `o` and the controlled
      side's `a`. The doubling happens in 32 bits. */
  function PairPriority(o: nat, a: nat): nat {
    TWO32 * Min(o, a) + U32(2 * Max(o, a)) + (if o > a then 1 else 0)
  }

  /** Section 5.7.2 of RFC 5245. */
  function RfcPairPriority(g: nat, d: nat): nat {
    TWO32 * Min(g, d) + 2 * Max(g, d) + (if g > d then 1 else 0)
  }

  /** The priority an agent in the given role computes for a pair. */
  function RolePriority(controlling: bool, local: nat, remote: nat): nat {
    if controlling then PairPriority(local, remote) else PairPriority(remote, local)
  }

  /** The computed priority is the standard's exactly for 31-bit candidate priorities. */
  lemma PairPriorityExactIff(o: nat, a: nat)
    requires o < TWO32 && a < TWO32
    ensures PairPriority(o, a) == RfcPairPriority(o, a) <==> Max(o, a) < TWO31
  {
    var m := Max(o, a);
    if m >= TWO31 {
      assert U32(2 * m) == 2 * m - TWO32;
    }
  }

  /** The three parts of a pair priority can be read back. */
  lemma PairPriorityParts(o: nat, a: nat)
    requires o < TWO31 && a < TWO31
    ensures PairPriority(o, a) / TWO32 == Min(o, a)
    ensures PairPriority(o, a) % TWO32 / 2 == Max(o, a)
    ensures PairPriority(o, a) % 2 == 1 <==> o > a
  {
    var low := 2 * Max(o, a) + (if o > a then 1 else 0);
    assert low < TWO32;
    assert PairPriority(o, a) == TWO32 * Min(o, a) + low;
    DivMod(Min(o, a), low);
  }

  lemma DivMod(hi: nat, low: nat)
    requires low < TWO32
    ensures (TWO32 * hi + low) / TWO32 == hi && (TWO32 * hi + low) % TWO32 == low
    ensures (TWO32 * hi + low) % 2 == low % 2
  {
  }

  /** Different pairs of candidate priorities never share a pair priority. */
  lemma PairPriorityInjective(o: nat, a: nat, o': nat, a': nat)
    requires o < TWO31 && a < TWO31 && o' < TWO31 && a' < TWO31
    requires PairPriority(o, a) == PairPriority(o', a')
    ensures o == o' && a == a'
  {
    PairPriorityParts(o, a);
    PairPriorityParts(o', a');
  }

  /** The two ends give one pair the same priority if and only if their roles
      differ or the candidates weigh the same. */
  lemma MirroredPrioritiesIff(role: bool, role': bool, l: nat, r: nat)
    requires l < TWO31 && r < TWO31
    ensures RolePriority(role, l, r) == RolePriority(role', r, l) <==> role != role' || l == r
  {
    if role == role' && RolePriority(role, l, r) == RolePriority(role', r, l) {
      if role {
        PairPriorityInjective(l, r, r, l);
      } else {
        PairPriorityInjective(r, l, l, r);
      }
    }
  }

  lemma PairPriorityPositive(o: nat, a: nat)
    requires o > 0 && a > 0
    ensures PairPriority(o, a) > 0
  {
    assert TWO32 * Min(o, a) >= TWO32;
  }

  /** Candidate priorities lie in the documented range, and the three inputs can be
      read back from one. */
  lemma IcePriorityRange(t: nat, l: nat, c: nat)
    requires t <= 126 && l <= 65535 && 1 <= c <= 256
    requires t > 0 || l > 0 || c < 256
    ensures 1 <= IcePriority(t, l, c) <= 0x7eff_ffff
    ensures var p := IcePriority(t, l, c);
            p / 0x100_0000 == t && p / 0x100 % 0x1_0000 == l && 0x100 - p % 0x100 == c
  {
    var p := 0x100_0000 * t + 0x100 * l + (0x100 - c);
    assert p < TWO32;
    assert p / 0x100 == 0x1_0000 * t + l;
  }
}
