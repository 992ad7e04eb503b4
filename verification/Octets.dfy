/** Numbers as octets, most significant first. */
module Octets {
  function ToOctet(n: nat): bv8
    requires n < 256
  {
    n as bv8
  }

  lemma CastBack(b: bv8)
    ensures (b as nat) as bv8 == b
  {
  }

  lemma NextOctet(b: bv8)
    requires b != 255
    ensures (b + 1) as nat == b as nat + 1
  {
  }

  lemma {:induction false} OctetFor(n: nat) returns (b: bv8)
    requires n < 256
    ensures b as nat == n
  {
    if n == 0 {
      b := 0;
    } else {
      var c := OctetFor(n - 1);
      NextOctet(c);
      b := c + 1;
    }
  }

  lemma ToOctetIs(n: nat)
    requires n < 256
    ensures ToOctet(n) as nat == n
  {
    var b := OctetFor(n);
    CastBack(b);
    assert ToOctet(n) == ToOctet(b as nat) == b;
  }

  /** n as `size` big-endian octets. */
  function BigEndian(n: nat, size: nat): seq<bv8>
    decreases size
  {
    if size == 0 then [] else BigEndian(n / 256, size - 1) + [ToOctet(n % 256)]
  }

  /** The number that some octets stand for. */
  function Value(octets: seq<bv8>): nat {
    if octets == [] then 0 else 256 * Value(octets[..|octets| - 1]) + octets[|octets| - 1] as nat
  }

  function Pow256(k: nat): nat {
    if k == 0 then 1 else 256 * Pow256(k - 1)
  }

  lemma ValueMore(front: seq<bv8>, last: bv8)
    ensures Value(front + [last]) == 256 * Value(front) + last as nat
  {
    assert (front + [last])[..|front|] == front;
  }

  /** The encoding has the given size and stands for n. */
  lemma {:induction false} BigEndianIs(n: nat, size: nat)
    requires n < Pow256(size)
    ensures |BigEndian(n, size)| == size && Value(BigEndian(n, size)) == n
  {
    hide ToOctet, Value;
    if size == 0 {
      EmptyValue();
    } else {
      BigEndianIs(n / 256, size - 1);
      ToOctetIs(n % 256);
      ValueMore(BigEndian(n / 256, size - 1), ToOctet(n % 256));
    }
  }

  lemma EmptyValue()
    ensures Value([]) == 0
  {
  }

  lemma LastOctet(q: nat, a: bv8, s: nat, b: bv8)
    requires 256 * q + a as nat == 256 * s + b as nat
    ensures q == s && a == b
  {
  }

  /** Octets of one length that stand for the same number are the same. */
  lemma {:induction false} ValueUnique(a: seq<bv8>, b: seq<bv8>)
    requires |a| == |b| && Value(a) == Value(b)
    ensures a == b
  {
    if a != [] {
      var n := |a| - 1;
      assert a == a[..n] + [a[n]] && b == b[..n] + [b[n]];
      hide Value;
      ValueMore(a[..n], a[n]);
      ValueMore(b[..n], b[n]);
      LastOctet(Value(a[..n]), a[n], Value(b[..n]), b[n]);
      ValueUnique(a[..n], b[..n]);
    }
  }

  /** Eight octets hold every number below 2^64. */
  lemma EightOctets()
    ensures Pow256(8) == 0x1_0000_0000_0000_0000
  {
    assert Pow256(4) == 0x1_0000_0000;
    assert Pow256(8) == 256 * (256 * (256 * (256 * Pow256(4))));
  }
}
