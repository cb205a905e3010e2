/** Lists of lists. */
module Lists {
  ghost function Flatten<T>(lists: seq<seq<T>>): (all: seq<T>)
  {
    if lists == [] then [] else lists[0] + Flatten(lists[1..])
  }

  lemma {:induction false} FlattenMore<T>(lists: seq<seq<T>>, list: seq<T>)
    ensures Flatten(lists + [list]) == Flatten(lists) + list
    decreases |lists|
  {
    if lists == [] {
      assert lists + [list] == [list] && [list][1..] == [];
      assert list + [] == list;
    } else {
      assert (lists + [list])[1..] == lists[1..] + [list];
      FlattenMore(lists[1..], list);
    }
  }

  lemma FlattenFront<T>(lists: seq<seq<T>>)
    requires lists != []
    ensures Flatten(lists) == Flatten(lists[..|lists| - 1]) + lists[|lists| - 1]
  {
    assert lists[..|lists| - 1] + [lists[|lists| - 1]] == lists;
    FlattenMore(lists[..|lists| - 1], lists[|lists| - 1]);
  }

  lemma FlattenNothing<T>()
    ensures Flatten<T>([]) == []
  {
  }

  lemma {:induction false} FlattenPrefix<T>(lists: seq<seq<T>>, k: nat)
    requires k <= |lists|
    ensures Flatten(lists[..k]) <= Flatten(lists)
    decreases |lists|
  {
    hide Flatten;
    if k < |lists| {
      FlattenFront(lists);
      FlattenPrefix(lists[..|lists| - 1], k);
      assert lists[..|lists| - 1][..k] == lists[..k];
    } else {
      assert lists[..k] == lists;
    }
  }
}
