/** The lexicographic order that Python and JavaScript sort strings by, for any code units. */
module Lexicographic {

  predicate Less<T(==)>(rank: T -> int, a: seq<T>, b: seq<T>) {
    b != [] && (a == [] || rank(a[0]) < rank(b[0]) || (a[0] == b[0] && Less(rank, a[1..], b[1..])))
  }

  ghost predicate Injective<T(!new)>(rank: T -> int) {
    forall x, y :: rank(x) == rank(y) ==> x == y
  }

  /** A strict total order. */
  lemma {:induction false} Order<T(!new)>(rank: T -> int, a: seq<T>, b: seq<T>, c: seq<T>)
    requires Injective(rank)
    ensures !Less(rank, a, a)
    ensures Less(rank, a, b) || Less(rank, b, a) || a == b
    ensures Less(rank, a, b) && Less(rank, b, c) ==> Less(rank, a, c)
    decreases |a|
  {
    if a != [] {
      var bTail, cTail := if b != [] then b[1..] else [], if c != [] then c[1..] else [];
      Order(rank, a[1..], bTail, cTail);
      assert a == [a[0]] + a[1..];
      assert b != [] ==> b == [b[0]] + bTail;
    }
  }

  /** `a` and `b` agree up to place `k`, where `a` ends or has the element of smaller rank. */
  predicate DiffersAt<T(==)>(rank: T -> int, a: seq<T>, b: seq<T>, k: nat) {
    k <= |a| && k < |b| && a[..k] == b[..k] && (k == |a| || rank(a[k]) < rank(b[k]))
  }

  /** What the recursion decides: the first place at which the sequences differ. */
  lemma {:induction false} LessMeans<T>(rank: T -> int, a: seq<T>, b: seq<T>)
    ensures Less(rank, a, b) <==> exists k: nat :: DiffersAt(rank, a, b, k)
    decreases |a|
  {
    if a == [] {
      if b != [] {
        assert DiffersAt(rank, a, b, 0);
      }
    } else if b != [] {
      LessMeans(rank, a[1..], b[1..]);
      if rank(a[0]) < rank(b[0]) {
        assert a[..0] == b[..0] && DiffersAt(rank, a, b, 0);
      } else if Less(rank, a, b) {
        var k: nat :| DiffersAt(rank, a[1..], b[1..], k);
        assert a[..k + 1] == [a[0]] + a[1..][..k] && b[..k + 1] == [b[0]] + b[1..][..k];
        assert DiffersAt(rank, a, b, k + 1);
      }
      if exists k: nat :: DiffersAt(rank, a, b, k) {
        DiffersLater(rank, a, b);
      }
    }
  }

  lemma DiffersLater<T>(rank: T -> int, a: seq<T>, b: seq<T>)
    requires a != [] && b != [] && exists k: nat :: DiffersAt(rank, a, b, k)
    ensures rank(a[0]) < rank(b[0]) || (a[0] == b[0] && exists k: nat :: DiffersAt(rank, a[1..], b[1..], k))
  {
    var k: nat :| DiffersAt(rank, a, b, k);
    if k > 0 {
      assert a[..k][0] == b[..k][0];
      assert a[1..][..k - 1] == a[..k][1..] && b[1..][..k - 1] == b[..k][1..];
      assert DiffersAt(rank, a[1..], b[1..], k - 1);
    }
  }
}
