// cmd/consumer/main.go, shouldLogDataTransform: a base-31 hash of the trace id, kept in a wrapping machine integer and
// masked to 31 bits, decides whether an event's transformation is logged.
module TraceSampling {
  import opened Backoff

  const TWO31 := 0x8000_0000
  const MASK := 0x7FFF_FFFF

  /** The polynomial the loop evaluates, without overflow. */
  function Polynomial(trace: string): nat {
    if trace == [] then 0 else Polynomial(trace[..|trace| - 1]) * 31 + trace[|trace| - 1] as int
  }

  /** x & 0x7FFFFFFF in two's complement: the low 31 bits. */
  function Masked(x: int): (r: int)
    ensures 0 <= r <= MASK
  {
    x % TWO31
  }

  function Selected(residue: int, ratio: real): bool {
    if ratio <= 0.0 then false else if ratio >= 1.0 then true else residue as real / MASK as real < ratio
  }

  lemma WrapKeepsResidue(x: int)
    ensures Masked(Wrap64(x)) == Masked(x)
  {
    var k := (x - Wrap64(x)) / TWO64;
    assert x == Wrap64(x) + (k * 0x2_0000_0000) * TWO31;
  }

  method ShouldLogDataTransform(trace: string, ratio: real) returns (b: bool)
    ensures b == Selected(Masked(Polynomial(trace)), ratio)
  {
    if ratio <= 0.0 {
      return false;
    }
    if ratio >= 1.0 {
      return true;
    }
    var hash := 0;
    for i := 0 to |trace|
      invariant Masked(hash) == Masked(Polynomial(trace[..i]))
    {
      assert trace[..i + 1][..i] == trace[..i];
      HornerStep(hash, Polynomial(trace[..i]), trace[i] as int);
      WrapKeepsResidue(hash * 31 + trace[i] as int);
      hash := Wrap64(hash * 31 + trace[i] as int);
    }
    assert trace[..|trace|] == trace;
    b := Masked(hash) as real / MASK as real < ratio;
  }

  lemma HornerStep(x: int, y: int, c: int)
    requires Masked(x) == Masked(y)
    ensures Masked(x * 31 + c) == Masked(y * 31 + c)
  {
    var q := x / TWO31 - y / TWO31;
    assert x == y + q * TWO31;
    assert x * 31 + c == y * 31 + c + (q * 31) * TWO31;
  }

  /** The register of an unsigned machine whose word has `modulus` values. */
  function Register(trace: string, modulus: nat): nat
    requires modulus > 0
  {
    if trace == [] then 0 else (Register(trace[..|trace| - 1], modulus) * 31 + trace[|trace| - 1] as int) % modulus
  }

  /** The decision does not depend on the width of int, as long as it has at least 31 bits. */
  lemma {:induction false} WidthIndependent(trace: string, k: nat)
    requires k > 0
    ensures Masked(Register(trace, TWO31 * k)) == Masked(Polynomial(trace))
  {
    if trace != [] {
      var front, c := trace[..|trace| - 1], trace[|trace| - 1] as int;
      WidthIndependent(front, k);
      HornerStep(Register(front, TWO31 * k), Polynomial(front), c);
      ModuloKeepsResidue(Register(front, TWO31 * k) * 31 + c, k);
    }
  }

  lemma ModuloKeepsResidue(x: nat, k: nat)
    requires k > 0
    ensures Masked(x % (TWO31 * k)) == Masked(x)
  {
    var m := TWO31 * k;
    var q, r := x / m, x % m;
    assert x == m * q + r;
    assert m * q == TWO31 * (k * q);
    MultipleAdds(r, k * q);
  }

  lemma MultipleAdds(r: int, n: int)
    ensures Masked(r + TWO31 * n) == Masked(r)
  {
  }

  /** Exactly the residues below ratio * (2^31 - 1) are selected, none at ratio 0 and all at ratio 1; a larger ratio
      never deselects a trace. */
  lemma SelectionThreshold(residue: int, ratio: real)
    requires 0 <= residue <= MASK
    ensures ratio <= 0.0 ==> !Selected(residue, ratio)
    ensures ratio >= 1.0 ==> Selected(residue, ratio)
    ensures 0.0 < ratio < 1.0 ==> (Selected(residue, ratio) <==> residue as real < ratio * 2147483647.0)
    ensures forall larger: real | larger >= ratio :: Selected(residue, ratio) ==> Selected(residue, larger)
  {
    var x := residue as real / MASK as real;
    assert x * MASK as real == residue as real;
  }

  /** The normalised value is meant to lie in [0, 1). It never leaves [0, 1], and is 1 exactly for the residue with all
      bits set, which no ratio below 1 selects. */
  lemma NormalisedIsOneIff(residue: int)
    requires 0 <= residue <= MASK
    ensures 0.0 <= residue as real / MASK as real <= 1.0
    ensures residue as real / MASK as real == 1.0 <==> residue == MASK
    ensures residue == MASK <==> forall ratio: real | 0.0 < ratio < 1.0 :: !Selected(residue, ratio)
  {
    var x := residue as real / MASK as real;
    assert x * MASK as real == residue as real;
    if residue < MASK {
      var ratio := (x + 1.0) / 2.0;
      assert x < 1.0 && x < ratio < 1.0 && Selected(residue, ratio);
    }
  }

  predicate IsHex(s: string) { forall c | c in s :: '0' <= c <= '9' || 'a' <= c <= 'f' }

  /** generateTraceID: 16 bytes as lower-case hexadecimal digits. */
  predicate IsTraceId(trace: string) { |trace| == 32 && IsHex(trace) }

  lemma OneMore(trace: string, c: char, before: int)
    requires Masked(Polynomial(trace)) == Masked(before)
    ensures Masked(Polynomial(trace + [c])) == Masked(before * 31 + c as int)
  {
    assert (trace + [c])[..|trace|] == trace;
    HornerStep(Polynomial(trace), before, c as int);
  }

  /** Four more characters, with the quotient that the mask cuts off. */
  lemma FourMore(trace: string, d: string, before: int, quotient: int, after: int) returns (longer: string)
    requires |d| == 4 && IsHex(trace) && IsHex(d) && Masked(Polynomial(trace)) == before && 0 <= after <= MASK
    requires before * 923521 + d[0] as int * 29791 + d[1] as int * 961 + d[2] as int * 31 + d[3] as int
             == quotient * TWO31 + after
    ensures longer == trace + d && |longer| == |trace| + 4 && IsHex(longer) && Masked(Polynomial(longer)) == after
  {
    hide Polynomial;
    var x1 := before * 31 + d[0] as int;
    var x2 := x1 * 31 + d[1] as int;
    var x3 := x2 * 31 + d[2] as int;
    OneMore(trace, d[0], before);
    OneMore(trace + [d[0]], d[1], x1);
    OneMore(trace + [d[0]] + [d[1]], d[2], x2);
    OneMore(trace + [d[0]] + [d[1]] + [d[2]], d[3], x3);
    longer := trace + d;
    assert trace + [d[0]] + [d[1]] + [d[2]] + [d[3]] == longer;
  }

  /** That residue is the hash of a trace id the program can generate. */
  lemma NormalisedCanBeOne()
    ensures exists trace :: IsTraceId(trace) && Masked(Polynomial(trace)) == MASK
  {
    var trace: string := [];
    assert Masked(Polynomial(trace)) == 0;
    hide Polynomial, IsHex, Masked;
    HexLiterals();
    trace := FourMore(trace, "0000", 0, 0, 1477632);
    trace := FourMore(trace, "0000", 1477632, 635, 973543424);
    trace := FourMore(trace, "0000", 973543424, 418670, 819045376);
    trace := FourMore(trace, "0000", 819045376, 352228, 1735798784);
    trace := FourMore(trace, "0000", 1735798784, 746476, 1626651648);
    trace := FourMore(trace, "0000", 1626651648, 699538, 541935616);
    trace := FourMore(trace, "3ebc", 541935616, 233058, 679607891);
    trace := FourMore(trace, "9c35", 679607891, 292263, 2147483647);
    assert IsTraceId(trace);
  }

  lemma HexLiterals()
    ensures IsHex([]) && IsHex("0000") && IsHex("3ebc") && IsHex("9c35")
  {
  }
}
