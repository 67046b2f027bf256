/**
 The two hash functions, as parameters of everything that uses them, and the
 hexadecimal text they are carried in. Nothing assumes that a hash is
 injective, which would be inconsistent for digests of fixed size. Soundness
 results say instead that the claim holds unless two different strings of one
 explicit finite set, the strings hashed by the computations at hand, collide.
 */
module Hashing {

  newtype byte = x: int | 0 <= x < 256

  type Bytes = seq<byte>

  datatype Option<+T> = None | Some(value: T)

  /** `sha256` is SHA-256 of the UTF-8 text as lowercase hex; `keccak` is raw Keccak-256. */
  datatype Hashes = Hashes(sha256: string -> string, keccak: Bytes -> Bytes)

  predicate IsHexDigit(c: char) {
    '0' <= c <= '9' || 'a' <= c <= 'f'
  }

  /** What `hexdigest` returns: 64 lowercase hexadecimal digits. */
  predicate IsDigest(s: string) {
    |s| == 64 && forall i :: 0 <= i < 64 ==> IsHexDigit(s[i])
  }

  ghost predicate Length32(keccak: Bytes -> Bytes) {
    forall b :: |keccak(b)| == 32
  }

  ghost predicate Sized(h: Hashes) {
    (forall s :: IsDigest(h.sha256(s))) && Length32(h.keccak)
  }

  /** No two members of the finite set `inputs` have the same image. */
  ghost predicate NoCollision<A(!new), B(!new)>(f: A -> B, inputs: set<A>) {
    forall x, y {:trigger f(x), f(y)} :: x in inputs && y in inputs && f(x) == f(y) ==> x == y
  }

  lemma {:induction false} SameInput<A(!new), B(!new)>(f: A -> B, inputs: set<A>, x: A, y: A)
    requires NoCollision(f, inputs) && x in inputs && y in inputs && f(x) == f(y)
    ensures x == y
  {
  }

  lemma {:induction false} FewerInputs<A(!new), B(!new)>(f: A -> B, all: set<A>, some: set<A>)
    requires NoCollision(f, all) && some <= all
    ensures NoCollision(f, some)
  {
  }
}
