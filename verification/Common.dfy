/** Types and small facts shared by the models of the separate network functions. */
module Common {

  datatype Option<+T> = None | Some(value: T)

  datatype Result<+T, +E> = Ok(value: T) | Err(error: E)

  // Lists of identifiers, and Python's list.remove on them.

  ghost predicate NoDuplicates(list: seq<nat>) {
    forall i, j | 0 <= i < j < |list| :: list[i] != list[j]
  }

  function Without(list: seq<nat>, id: nat): seq<nat> {
    if list == [] then [] else if list[0] == id then list[1..] else [list[0]] + Without(list[1..], id)
  }

  lemma {:induction false} WithoutMembers(list: seq<nat>, id: nat)
    requires NoDuplicates(list)
    ensures forall p :: p in Without(list, id) <==> p in list && p != id
    ensures NoDuplicates(Without(list, id))
  {
    if list == [] {
    } else {
      WithoutMembers(list[1..], id);
      assert list[0] !in list[1..];
    }
  }
}
