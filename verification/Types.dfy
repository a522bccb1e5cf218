/** Vocabulary shared by every module: results, error codes, bytes, u64 arithmetic
    and the incremental MD5 hasher. */
module Types {

  datatype Option<+T> = None | Some(value: T)

  datatype Result<+T> = Ok(value: T) | Err(error: ErrorCode)

  /** The error codes of the modelled operations (the wire catalogue has more). */
  datatype ErrorCode =
    | ContainerNotFound
    | ContainerAlreadyExists
    | BlobNotFound
    | InvalidBlockList
    | InvalidRange
    | Md5Mismatch
    | InvalidXmlDocument
    | InternalError

  type Bytes = seq<bv8>

  const U64_MODULUS: nat := 0x1_0000_0000_0000_0000
  const U64_MAX: nat := U64_MODULUS - 1

  /** A byte count as the program's unsigned 64-bit counter holds it. */
  function U64(n: nat): nat {
    n % U64_MODULUS
  }

  lemma U64Small(n: nat)
    requires n <= U64_MAX
    ensures U64(n) == n
  {
  }

  function Min(a: nat, b: nat): nat {
    if a < b then a else b
  }

  lemma Assoc<T>(a: seq<T>, b: seq<T>, c: seq<T>)
    ensures (a + b) + c == a + (b + c)
  {
  }

  function Concat(parts: seq<Bytes>): Bytes {
    if parts == [] then [] else parts[0] + Concat(parts[1..])
  }

  lemma {:induction false} ConcatAppend(a: seq<Bytes>, b: seq<Bytes>)
    ensures Concat(a + b) == Concat(a) + Concat(b)
  {
    if a == [] {
      assert a + b == b;
    } else {
      assert (a + b)[1..] == a[1..] + b;
      ConcatAppend(a[1..], b);
    }
  }

  lemma ConcatSnoc(a: seq<Bytes>, x: Bytes)
    ensures Concat(a + [x]) == Concat(a) + x
  {
    ConcatAppend(a, [x]);
    assert Concat([x]) == x + Concat([]);
  }

  /** MD5 as the hasher object sees it: a state, a step per byte and a final
      digest. What the three functions compute is not modelled. */
  datatype Md5 = Md5(init: Bytes, step: (Bytes, bv8) -> Bytes, finish: Bytes -> string) {

    function Absorb(state: Bytes, data: Bytes): Bytes
      decreases |data|
    {
      if data == [] then state else Absorb(step(state, data[0]), data[1..])
    }

    function Digest(data: Bytes): string {
      finish(Absorb(init, data))
    }

    /** Feeding two pieces one after the other is feeding their concatenation. */
    lemma {:induction false} AbsorbConcat(state: Bytes, a: Bytes, b: Bytes)
      ensures Absorb(Absorb(state, a), b) == Absorb(state, a + b)
      decreases |a|
    {
      if a == [] {
        assert a + b == b;
      } else {
        assert (a + b)[1..] == a[1..] + b;
        AbsorbConcat(step(state, a[0]), a[1..], b);
      }
    }

    /** A function that gives the hasher's state after any bytes, one step per byte. */
    ghost predicate Folds(g: Bytes -> Bytes) {
      g([]) == init && forall d, b :: g(d + [b]) == step(g(d), b)
    }

    lemma {:induction false} AbsorbIsFold(g: Bytes -> Bytes, data: Bytes)
      requires Folds(g)
      ensures Absorb(init, data) == g(data)
      decreases |data|
    {
      if data == [] {
      } else {
        var n := |data| - 1;
        AbsorbIsFold(g, data[..n]);
        AbsorbConcat(init, data[..n], [data[n]]);
        AbsorbOne(Absorb(init, data[..n]), data[n]);
        assert data == data[..n] + [data[n]];
      }
    }

    lemma AbsorbOne(state: Bytes, b: bv8)
      ensures Absorb(state, [b]) == step(state, b)
    {
      assert [b][1..] == [];
    }

    /** The digest is the final one after a step for every byte, in order. */
    lemma DigestIsFold(g: Bytes -> Bytes, data: Bytes)
      requires Folds(g)
      ensures Digest(data) == finish(g(data))
    {
      AbsorbIsFold(g, data);
    }

    lemma FoldExists() returns (g: Bytes -> Bytes)
      ensures Folds(g)
    {
      g := data => Absorb(init, data);
      forall d, b ensures g(d + [b]) == step(g(d), b) {
        AbsorbConcat(init, d, [b]);
        AbsorbOne(Absorb(init, d), b);
      }
    }
  }
}
