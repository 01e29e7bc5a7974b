/**
 * The IPv4 part of Python's `ipaddress.ip_network(text, strict=False)` and of
 * `IPv4Network.subnet_of`: a network is a 32-bit address with its host bits cleared and a
 * prefix length from 0 to 32.
 */
module Ipv4 {
  import opened Wrappers
  import opened Text

  /** The netmask of a prefix length: `len` one bits followed by zero bits. */
  function Mask(len: nat): bv32
    requires len <= 32
  {
    if len == 0 then 0 else (Mask(len - 1) >> 1) | 0x8000_0000
  }

  /** Each mask keeps the bits of the one before it. */
  lemma {:induction false} MaskStep(k: nat)
    requires k < 32
    ensures Mask(k) & Mask(k + 1) == Mask(k)
  {
    if k > 0 {
      MaskStep(k - 1);
    }
  }

  /** A longer mask keeps every bit a shorter one keeps. */
  lemma {:induction false} MaskNested(i: nat, j: nat)
    requires i <= j <= 32
    ensures Mask(j) & Mask(i) == Mask(i)
    decreases j - i
  {
    if i < j {
      MaskNested(i + 1, j);
      MaskStep(i);
    }
  }

  datatype Network = Network(address: bv32, length: nat) {
    /** A length of at most 32 and no host bit set in the address. */
    predicate Valid() {
      length <= 32 && address & Mask(length) == address
    }
  }

  /**
   * `a.subnet_of(b)`: `b` is no longer than `a`, and `a`'s address cut to `b`'s length is
   * `b`'s address.
   */
  predicate SubnetOf(a: Network, b: Network): (r: bool)
    requires a.Valid() && b.Valid()
    ensures r ==> forall x :: Holds(a, x) ==> Holds(b, x)
  {
    if b.length <= a.length then
      MaskNested(b.length, a.length);
      a.address & Mask(b.length) == b.address
    else false
  }

  /** `x in n`: the address with the host bits of `n` cleared is `n`'s address. */
  predicate Holds(n: Network, x: bv32)
    requires n.Valid()
  {
    x & Mask(n.length) == n.address
  }

  /** Every network lies in itself. */
  lemma SubnetOfReflexive(a: Network)
    requires a.Valid()
    ensures SubnetOf(a, a)
  {
  }

  /** Lying in a network is transitive. */
  lemma SubnetOfTransitive(a: Network, b: Network, c: Network)
    requires a.Valid() && b.Valid() && c.Valid()
    requires SubnetOf(a, b) && SubnetOf(b, c)
    ensures SubnetOf(a, c)
  {
    MaskNested(c.length, b.length);
  }

  /** Two networks that lie in each other are the same network. */
  lemma SubnetOfAntisymmetric(a: Network, b: Network)
    requires a.Valid() && b.Valid() && SubnetOf(a, b) && SubnetOf(b, a)
    ensures a == b
  {
  }

  /**
   * The networks containing a given one form a chain: of two of them, the one with the
   * longer prefix lies in the other.
   */
  lemma ContainingNetworksNest(t: Network, a: Network, b: Network)
    requires t.Valid() && a.Valid() && b.Valid()
    requires SubnetOf(t, a) && SubnetOf(t, b) && a.length <= b.length
    ensures SubnetOf(b, a)
  {
    MaskNested(a.length, b.length);
  }

  // ----- Parsing -----

  /** One octet of a dotted quad: 1 to 3 ASCII digits, no leading zero, at most 255. */
  function ParseOctet(s: string): (r: Option<nat>)
    ensures r.Some? ==> r.value < 256
    ensures r.Some? <==> 1 <= |s| <= 3 && AllDigits(s) && (s[0] == '0' ==> s == "0") && DecimalValue(s) < 256
  {
    if 1 <= |s| <= 3 && AllDigits(s) && (s[0] == '0' ==> s == "0") && DecimalValue(s) < 256
    then Some(DecimalValue(s)) else None
  }

  /** The 32-bit value of four octets, the first the most significant. */
  function AddressValue(o0: nat, o1: nat, o2: nat, o3: nat): (r: bv32)
    requires o0 < 256 && o1 < 256 && o2 < 256 && o3 < 256
  {
    (((o0 * 256 + o1) * 256 + o2) * 256 + o3) as bv32
  }

  /** `IPv4Address(text)`: exactly four dot-separated octets. */
  function ParseAddress(s: string): (r: Option<bv32>)
    ensures r.Some? <==>
      |SplitOn(s, '.')| == 4 && forall k :: 0 <= k < 4 ==> ParseOctet(SplitOn(s, '.')[k]).Some?
  {
    var parts := SplitOn(s, '.');
    if |parts| != 4 then None
    else
      match (ParseOctet(parts[0]), ParseOctet(parts[1]), ParseOctet(parts[2]), ParseOctet(parts[3]))
      case (Some(o0), Some(o1), Some(o2), Some(o3)) => Some(AddressValue(o0, o1, o2, o3))
      case _ => None
  }

  /** A prefix length written as ASCII digits, leading zeros allowed, at most 32. */
  function ParseLength(s: string): (r: Option<nat>)
    ensures r.Some? <==> IsDecimal(s) && DecimalValue(s) <= 32
    ensures r.Some? ==> r.value == DecimalValue(s)
  {
    if IsDecimal(s) && DecimalValue(s) <= 32 then Some(DecimalValue(s)) else None
  }

  /**
   * The prefix length of a 32-bit netmask, searched from `k` upward: the first length whose
   * mask is `m`, or None when `m` is not a run of one bits followed by zero bits.
   */
  function MaskLengthFrom(m: bv32, k: nat): (r: Option<nat>)
    requires k <= 33
    ensures r.Some? ==> k <= r.value <= 32 && Mask(r.value) == m
    ensures r.None? ==> forall len: nat :: k <= len <= 32 ==> Mask(len) != m
    decreases 33 - k
  {
    if k == 33 then None
    else if Mask(k) == m then Some(k)
    else MaskLengthFrom(m, k + 1)
  }

  /**
   * The prefix length of a mask written as a dotted quad: tried first as a netmask (ones
   * then zeros), then, with its bits inverted, as a hostmask (zeros then ones).
   */
  function MaskLength(a: bv32): (r: Option<nat>)
  {
    match MaskLengthFrom(a, 0)
    case Some(len) => Some(len)
    case None => MaskLengthFrom(!a, 0)
  }

  /**
   * `255.255.0.0` is the netmask of /16; `0.0.0.0` reads as both the netmask of /0 and the
   * hostmask of /32, and the netmask wins.
   */
  lemma {:induction false} MaskExamples()
    ensures MaskLength(0xFFFF_0000) == Some(16)
    ensures MaskLength(0) == Some(0)
  {
    assert Mask(1) == 0x8000_0000;
    assert Mask(2) == 0xC000_0000;
    assert Mask(3) == 0xE000_0000;
    assert Mask(4) == 0xF000_0000;
    assert Mask(5) == 0xF800_0000;
    assert Mask(6) == 0xFC00_0000;
    assert Mask(7) == 0xFE00_0000;
    assert Mask(8) == 0xFF00_0000;
    assert Mask(9) == 0xFF80_0000;
    assert Mask(10) == 0xFFC0_0000;
    assert Mask(11) == 0xFFE0_0000;
    assert Mask(12) == 0xFFF0_0000;
    assert Mask(13) == 0xFFF8_0000;
    assert Mask(14) == 0xFFFC_0000;
    assert Mask(15) == 0xFFFE_0000;
    assert Mask(16) == 0xFFFF_0000;
    assert MaskLengthFrom(0xFFFF_0000, 16) == Some(16);
    assert MaskLengthFrom(0xFFFF_0000, 15) == Some(16);
    assert MaskLengthFrom(0xFFFF_0000, 14) == Some(16);
    assert MaskLengthFrom(0xFFFF_0000, 13) == Some(16);
    assert MaskLengthFrom(0xFFFF_0000, 12) == Some(16);
    assert MaskLengthFrom(0xFFFF_0000, 11) == Some(16);
    assert MaskLengthFrom(0xFFFF_0000, 10) == Some(16);
    assert MaskLengthFrom(0xFFFF_0000, 9) == Some(16);
    assert MaskLengthFrom(0xFFFF_0000, 8) == Some(16);
    assert MaskLengthFrom(0xFFFF_0000, 7) == Some(16);
    assert MaskLengthFrom(0xFFFF_0000, 6) == Some(16);
    assert MaskLengthFrom(0xFFFF_0000, 5) == Some(16);
    assert MaskLengthFrom(0xFFFF_0000, 4) == Some(16);
    assert MaskLengthFrom(0xFFFF_0000, 3) == Some(16);
    assert MaskLengthFrom(0xFFFF_0000, 2) == Some(16);
    assert MaskLengthFrom(0xFFFF_0000, 1) == Some(16);
    assert MaskLengthFrom(0xFFFF_0000, 0) == Some(16);
  }

  /**
   * The text after `/`: a prefix length, or else a netmask or hostmask in dotted-quad form.
   * The netmask reading wins where both apply (`0.0.0.0` is /0 and `255.255.255.255` /32).
   */
  function ParseMask(s: string): (r: Option<nat>)
    ensures ParseLength(s).Some? ==> r == ParseLength(s)
    ensures r.Some? && ParseLength(s).None? ==>
              ParseAddress(s).Some? && r.value <= 32 &&
              (Mask(r.value) == ParseAddress(s).value || Mask(r.value) == !ParseAddress(s).value)
    ensures ParseLength(s).None? && ParseAddress(s).Some? ==>
              forall len: nat {:trigger Mask(len)} :: len <= 32 && Mask(len) == ParseAddress(s).value ==>
                r.Some? && Mask(r.value) == ParseAddress(s).value
    ensures r.None? ==>
              ParseLength(s).None? &&
              (ParseAddress(s).None? ||
               forall len: nat {:trigger Mask(len)} :: len <= 32 ==>
                 Mask(len) != ParseAddress(s).value && Mask(len) != !ParseAddress(s).value)
  {
    match ParseLength(s)
    case Some(len) => Some(len)
    case None =>
      match ParseAddress(s)
      case Some(a) => MaskLength(a)
      case None => None
  }

  /** Clearing the bits outside `m` and then those outside `k` clears those outside both. */
  lemma ClearTwice(a: bv32, m: bv32, k: bv32)
    ensures (a & m) & k == a & (m & k)
  {
  }

  /** The network of an address and a length: the address with its host bits cleared. */
  function NetworkOf(a: bv32, len: nat): (n: Network)
    requires len <= 32
    ensures n.Valid() && n.length == len
  {
    assert (a & Mask(len)) & Mask(len) == a & Mask(len);
    Network(a & Mask(len), len)
  }

  /**
   * With `strict=False` the parsed network is the one of the given length that holds the
   * address: the address as a /32 lies in it.
   */
  lemma NetworkOfHoldsAddress(a: bv32, len: nat)
    requires len <= 32
    ensures SubnetOf(NetworkOf(a, 32), NetworkOf(a, len))
  {
    MaskNested(len, 32);
    ClearTwice(a, Mask(32), Mask(len));
  }

  /**
   * `ip_network(text, strict=False)` for IPv4: an address, optionally followed by `/` and a
   * prefix length or mask (32 when absent); the host bits are cleared.
   */
  function ParseNetwork(s: string): (r: Option<Network>)
    ensures var parts := SplitOn(s, '/');
            r.Some? <==>
              |parts| <= 2 && ParseAddress(parts[0]).Some? &&
              (|parts| == 2 ==> ParseMask(parts[1]).Some?)
    ensures var parts := SplitOn(s, '/');
            r.Some? ==>
              r.value.Valid() &&
              r.value == NetworkOf(ParseAddress(parts[0]).value, r.value.length) &&
              (|parts| == 1 ==> r.value.length == 32) &&
              (|parts| == 2 ==> ParseMask(parts[1]) == Some(r.value.length))
  {
    var parts := SplitOn(s, '/');
    if |parts| > 2 then None
    else
      match ParseAddress(parts[0])
      case None => None
      case Some(a) =>
        if |parts| == 1 then Some(NetworkOf(a, 32))
        else
          match ParseMask(parts[1])
          case None => None
          case Some(len) => Some(NetworkOf(a, len))
  }
}
