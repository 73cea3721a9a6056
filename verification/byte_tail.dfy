/** Byte strings and their bounded tails. */
module ByteTail {
  type Byte = b: int | 0 <= b < 256

  type Bytes = seq<Byte>

  /** The last `limit` elements of `s`, or all of it when it is shorter. */
  function Last<T>(s: seq<T>, limit: nat): (r: seq<T>) {
    if |s| <= limit then s else s[|s| - limit..]
  }

  predicate IsSuffix(r: Bytes, s: Bytes) {
    |r| <= |s| && r == s[|s| - |r|..]
  }

  /** Trimming early loses nothing a later trim would have kept. */
  lemma LastOfAppend<T>(s: seq<T>, t: seq<T>, limit: nat)
    ensures Last(Last(s, limit) + t, limit) == Last(s + t, limit)
  {
    if |s| > limit && |t| <= limit {
      var a, b := Last(s, limit) + t, s + t;
      assert a == b[|s| - limit..];
    }
  }

  /** How the calls of one rewriting of a file end: the first truncation, each write by what it would store if it were
      given as much, and the last truncation. */
  datatype Calls = Calls(opens: bool, stores: nat -> int, trims: bool)

  ghost predicate NothingFails(c: Calls) { c.opens && c.trims && forall k :: c.stores(k) > 0 }

  /** A write stores no more than it is given. */
  function Stored(c: Calls, k: nat, given: nat): (n: int)
    ensures n <= given && (c.stores(k) > 0 && given > 0 ==> n > 0)
  {
    if c.stores(k) < given then c.stores(k) else given
  }

  /** The effect of one positioned write inside or at the end of a file. */
  function Overwritten<T>(file: seq<T>, data: seq<T>, offset: nat): seq<T>
    requires offset <= |file|
  {
    file[..offset] + data + if offset + |data| <= |file| then file[offset + |data|..] else []
  }
}
