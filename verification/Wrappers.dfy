/** Small helpers shared by every component. */
module Wrappers {
  datatype Option<+T> = None | Some(value: T)

  ghost function PickOne<T>(s: set<T>): (x: T)
    requires s != {}
    ensures x in s
  {
    var x :| x in s;
    x
  }

  /** The smallest of a set of integers. */
  function Least(ids: set<int>): (least: int)
    requires ids != {}
    ensures least in ids && forall i :: i in ids ==> least <= i
  {
    LeastExists(ids);
    var least :| least in ids && forall i :: i in ids ==> least <= i;
    least
  }

  lemma {:induction false} LeastExists(ids: set<int>)
    requires ids != {}
    ensures exists least :: least in ids && forall i :: i in ids ==> least <= i
  {
    var x: int := PickOne(ids);
    var others := ids - {x};
    if others == {} {
      assert ids == {x};
    } else {
      LeastExists(others);
      var y :| y in others && forall i :: i in others ==> y <= i;
      var least := if x < y then x else y;
      assert forall i :: i in ids ==> i == x || i in others;
      assert least in ids && forall i :: i in ids ==> least <= i;
    }
  }
}
