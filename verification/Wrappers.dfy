/** The optional value used where the program has `Option` or a nullable column. */
module Wrappers {
  datatype Option<+T> = None | Some(value: T)

  /** A finite set that is not empty has a member with the least key. */
  lemma {:induction false} LeastExists<T(!new)>(ids: set<T>, key: T -> int)
    requires ids != {}
    ensures exists least :: least in ids && forall other :: other in ids ==> key(least) <= key(other)
    decreases |ids|
  {
    var id :| id in ids;
    if ids != {id} {
      var rest := ids - {id};
      assert ids == rest + {id};
      LeastExists(rest, key);
      var m :| m in rest && forall other :: other in rest ==> key(m) <= key(other);
      var best := if key(id) <= key(m) then id else m;
      assert best in ids && forall other :: other in ids ==> key(best) <= key(other);
    }
  }
}
