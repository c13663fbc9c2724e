/** Small things several modules share. */
module Common {
  datatype Option<T> = None | Some(value: T)

  /** A word of range 2 * half read as a signed number. */
  function Signed(x: int, half: nat): int
    requires half >= 1
  {
    var r := x % (2 * half);
    if r < half then r else r - 2 * half
  }

  lemma MulMonotone(a: int, b: int, c: nat)
    requires a <= b
    ensures a * c <= b * c && c * a <= c * b
  {
  }

  lemma {:induction false} SubsetSize<T>(a: set<T>, b: set<T>)
    requires a <= b
    ensures |a| <= |b|
  {
    if a != {} {
      var x :| x in a;
      SubsetSize(a - {x}, b - {x});
    }
  }

  /** A sequence without repetition has as many elements as places. */
  lemma {:induction false} ListedSize<T>(s: seq<T>)
    requires forall j, k :: 0 <= j < k < |s| ==> s[j] != s[k]
    ensures |set c | c in s| == |s|
  {
    if s != [] {
      var r := s[..|s| - 1];
      ListedSize(r);
      assert s == r + [s[|s| - 1]];
      assert (set c | c in s) == (set c | c in r) + {s[|s| - 1]};
    }
  }
}
