/** The two failure-carrying datatypes, and the counting lemmas the other modules share. */
module Wrappers {

  datatype Option<+T> = None | Some(value: T) {
    function Or(other: T): T {
      if Some? then value else other
    }
  }

  datatype Result<+T, +E> = Ok(value: T) | Err(error: E)

  ghost predicate InjectiveOn<A(!new), B>(f: A -> B, xs: set<A>) {
    forall x, y :: x in xs && y in xs && f(x) == f(y) ==> x == y
  }

  /** An image is no larger than its source, and as large when no two elements meet. */
  lemma {:induction false} ImageSize<A(!new), B>(f: A -> B, xs: set<A>, ys: set<B>)
    requires forall x :: x in xs ==> f(x) in ys
    requires forall y :: y in ys ==> exists x :: x in xs && f(x) == y
    ensures |ys| <= |xs|
    ensures InjectiveOn(f, xs) ==> |ys| == |xs|
    decreases |xs|
  {
    if xs != {} {
      var x :| x in xs;
      var rest := xs - {x};
      if exists x' :: x' in rest && f(x') == f(x) {
        ImageSize(f, rest, ys);
      } else {
        assert forall y :: y in ys - {f(x)} ==> exists x' :: x' in rest && f(x') == y;
        ImageSize(f, rest, ys - {f(x)});
      }
    } else {
      assert ys == {};
    }
  }
}
