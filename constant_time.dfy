/**
 * verify and cmov from verify.c, which kem.c uses for the re-encryption
 * check of decapsulation. verify.c is not part of this model; these are the
 * reference byte loops, with the functional contracts that kem.c's call
 * sites rely on. Their data-independent timing is not stated.
 */
module ConstantTime {
  import opened Params

  /**
   * verify(a, b, len): 0 when the first `len` bytes of `a` and `b` agree,
   * 1 otherwise. The differences are OR-ed into one byte and its non-zero-ness
   * is extracted as the top bit of its 64-bit negation.
   */
  method Verify(a: seq<byte>, b: seq<byte>, len: nat) returns (fail: int)
    requires len <= |a| && len <= |b|
    ensures fail == 0 <==> a[..len] == b[..len]
    ensures fail == 1 <==> a[..len] != b[..len]
  {
    var r: byte := 0;
    for i := 0 to len
      invariant r == 0 <==> a[..i] == b[..i]
    {
      assert a[..i + 1] == a[..i] + [a[i]] && b[..i + 1] == b[..i] + [b[i]];
      r := r | (a[i] ^ b[i]);
    }
    fail := ((0 - (r as bv64)) >> 63) as int;
  }

  /**
   * cmov(r, x, len, b): overwrites the first `len` bytes of `r` with those of
   * `x` when b is 1 and leaves them as they are when b is 0, through the mask
   * -b rather than a branch. verify.c requires b to be 0 or 1.
   */
  method Cmov(r: array<byte>, x: seq<byte>, len: nat, b: byte)
    requires len <= r.Length && len <= |x|
    requires b == 0 || b == 1
    modifies r
    ensures r[..len] == if b == 1 then x[..len] else old(r[..len])
    ensures r[len..] == old(r[len..])
  {
    var mask: byte := 0 - b;
    for i := 0 to len
      invariant forall k :: 0 <= k < i ==> r[k] == if b == 1 then x[k] else old(r[k])
      invariant forall k :: i <= k < r.Length ==> r[k] == old(r[k])
    {
      r[i] := r[i] ^ (mask & (r[i] ^ x[i]));
    }
  }
}
