/** What several parts of the kernel model use. */
module Common {
  datatype Option<+T> = None | Some(value: T) {
    function GetOr(default: T): T { if Some? then value else default }
  }

  predicate Distinct(h: seq<nat>) {
    forall i, j | 0 <= i < j < |h| :: h[i] != h[j]
  }

  lemma {:induction false} DistinctWithin(a: seq<nat>, b: seq<nat>)
    requires Distinct(a) && forall k | 0 <= k < |a| :: a[k] in b
    ensures |a| <= |b|
  {
    if a != [] {
      var x := a[|a| - 1];
      var j :| 0 <= j < |b| && b[j] == x;
      var b' := b[..j] + b[j + 1..];
      var a' := a[..|a| - 1];
      forall k | 0 <= k < |a'|
        ensures a'[k] in b'
      {
        var m :| 0 <= m < |b| && b[m] == a[k];
        assert b'[if m < j then m else m - 1] == a[k];
      }
      DistinctWithin(a', b');
    }
  }

  lemma {:induction false} SubsetSize(a: set<nat>, b: set<nat>)
    requires a <= b
    ensures |a| <= |b|
  {
    if a != {} {
      var x :| x in a;
      SubsetSize(a - {x}, b - {x});
    }
  }
}
