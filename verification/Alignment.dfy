/** Rounding offsets up, and why alignments are powers of two. */
module Alignment {

  /** `align_up`. */
  function AlignUp(offset: nat, alignment: nat): nat {
    if alignment == 0 then offset else (offset + alignment - 1) / alignment * alignment
  }

  /** The least multiple of the alignment that is not below the offset. */
  lemma AlignUpLeast(offset: nat, alignment: nat, k: nat)
    requires alignment > 0
    ensures AlignUp(offset, alignment) % alignment == 0
    ensures offset <= AlignUp(offset, alignment) < offset + alignment
    ensures offset <= k * alignment ==> AlignUp(offset, alignment) <= k * alignment
  {
    var n := offset + alignment - 1;
    var q := n / alignment;
    DivMod(n, alignment);
    MultipleMod(q, alignment);
    assert (k + 1) * alignment == k * alignment + alignment;
    if q > k { MulMono(k + 1, q, alignment); }
  }

  lemma DivMod(n: nat, d: nat)
    requires d > 0
    ensures n == n / d * d + n % d && n % d < d
  {
  }

  lemma MulMono(a: nat, b: nat, c: nat)
    requires a <= b
    ensures a * c <= b * c
  {
  }

  lemma DivModUnique(n: nat, d: nat, q: nat, r: nat)
    requires n == q * d + r && r < d
    ensures n / d == q && n % d == r
  {
    var q1 := n / d;
    DivMod(n, d);
    assert (q + 1) * d == q * d + d && (q1 + 1) * d == q1 * d + d;
    if q < q1 { MulMono(q + 1, q1, d); }
    if q1 < q { MulMono(q1 + 1, q, d); }
  }

  lemma MultipleMod(k: nat, d: nat)
    requires d > 0
    ensures k * d % d == 0
  {
    DivModUnique(k * d, d, k, 0);
  }

  predicate Divides(a: nat, b: nat) { a > 0 && b % a == 0 }

  lemma DividesMultiple(a: nat, b: nat, k: nat)
    requires Divides(a, b)
    ensures Divides(a, k * b)
  {
    var m := b / a;
    DivMod(b, a);
    assert k * b == k * (m * a) == (k * m) * a;
    MultipleMod(k * m, a);
  }

  lemma DividesSum(a: nat, b: nat, c: nat)
    requires Divides(a, b) && Divides(a, c)
    ensures Divides(a, b + c)
  {
    DivMod(b, a);
    DivMod(c, a);
    assert b + c == (b / a + c / a) * a;
    MultipleMod(b / a + c / a, a);
  }

  lemma DividesTrans(a: nat, b: nat, c: nat)
    requires Divides(a, b) && Divides(b, c)
    ensures Divides(a, c)
  {
    DivMod(c, b);
    DividesMultiple(a, b, c / b);
  }

  predicate PowerOfTwo(n: nat) {
    n == 1 || (n > 1 && n % 2 == 0 && PowerOfTwo(n / 2))
  }

  /** Of two powers of two, the smaller divides the larger. */
  lemma {:induction false} SmallerDivides(a: nat, b: nat)
    requires PowerOfTwo(a) && PowerOfTwo(b) && a <= b
    ensures Divides(a, b)
    decreases b
  {
    if a > 1 {
      SmallerDivides(a / 2, b / 2);
      var k := (b / 2) / (a / 2);
      DivMod(b / 2, a / 2);
      assert b == 2 * (k * (a / 2)) == k * a;
      MultipleMod(k, a);
    }
  }
}
