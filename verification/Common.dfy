/** What several modules need of values that may be absent, calls that may fail, finite sets and determined runs. */
module Common {

  datatype Option<+T> = None | Some(value: T)

  datatype Reply<+T> = Ok(value: T) | Err

  lemma SubsetSize<T>(a: set<T>, b: set<T>)
    requires a <= b
    ensures |a| <= |b|
  {
    if a != {} {
      var k :| k in a;
      SubsetSize(a - {k}, b - {k});
    }
  }

  /** Every event of the run is the one the events before it call for. */
  ghost predicate Determined<E>(next: seq<E> -> Option<E>, run: seq<E>) {
    forall n :: 0 <= n < |run| ==> next(run[..n]) == Some(run[n])
  }

  lemma {:induction false} SamePath<E>(next: seq<E> -> Option<E>, a: seq<E>, b: seq<E>, n: nat)
    requires Determined(next, a) && Determined(next, b) && n <= |a| && n <= |b|
    ensures a[..n] == b[..n]
  {
    if n > 0 {
      SamePath(next, a, b, n - 1);
      assert a[..n] == a[..n - 1] + [a[n - 1]] && b[..n] == b[..n - 1] + [b[n - 1]];
    }
  }

  /** Two determined runs that nothing may follow are one. */
  lemma {:induction false} OnePath<E>(next: seq<E> -> Option<E>, a: seq<E>, b: seq<E>)
    requires Determined(next, a) && next(a) == None && Determined(next, b) && next(b) == None
    ensures a == b
  {
    var n := if |a| <= |b| then |a| else |b|;
    SamePath(next, a, b, n);
    assert a[..|a|] == a && b[..|b|] == b;
  }
}
