/** Concatenation of a list of lists, in order: the shape of a loop that extends one growing
    list with the next list again and again. */
module Sequences {

  function Flatten<T>(lists: seq<seq<T>>): seq<T>
  {
    if lists == [] then [] else Flatten(lists[..|lists| - 1]) + lists[|lists| - 1]
  }

  /** The total length of the lists. */
  function TotalLength<T>(lists: seq<seq<T>>): nat
  {
    if lists == [] then 0 else TotalLength(lists[..|lists| - 1]) + |lists[|lists| - 1]|
  }

  /** One more list extends the concatenation at the end. */
  lemma FlattenStep<T>(lists: seq<seq<T>>, i: int)
    requires 0 <= i < |lists|
    ensures Flatten(lists[..i + 1]) == Flatten(lists[..i]) + lists[i]
  {
    assert lists[..i + 1][..i] == lists[..i];
  }

  lemma {:induction false} FlattenLength<T>(lists: seq<seq<T>>)
    ensures |Flatten(lists)| == TotalLength(lists)
  {
    if lists != [] {
      FlattenLength(lists[..|lists| - 1]);
    }
  }

  /** What holds of every element of every list holds of every element of the concatenation. */
  lemma {:induction false} FlattenAll<T>(lists: seq<seq<T>>, p: T -> bool)
    requires forall i, j :: 0 <= i < |lists| && 0 <= j < |lists[i]| ==> p(lists[i][j])
    ensures forall k :: 0 <= k < |Flatten(lists)| ==> p(Flatten(lists)[k])
  {
    if lists != [] {
      var n := |lists| - 1;
      FlattenAll(lists[..n], p);
      assert Flatten(lists) == Flatten(lists[..n]) + lists[n];
    } else {
      assert Flatten(lists) == [];
    }
  }

  /** An element is in the concatenation exactly when it is in one of the lists. */
  lemma {:induction false} FlattenMembers<T>(lists: seq<seq<T>>)
    ensures forall k :: 0 <= k < |Flatten(lists)| ==>
              exists i :: 0 <= i < |lists| && Flatten(lists)[k] in lists[i]
    ensures forall i, j :: 0 <= i < |lists| && 0 <= j < |lists[i]| ==> lists[i][j] in Flatten(lists)
  {
    if lists != [] {
      var n := |lists| - 1;
      var init := lists[..n];
      FlattenMembers(init);
      var xs := Flatten(lists);
      var front := Flatten(init);
      assert xs == front + lists[n];
      forall k | 0 <= k < |xs|
        ensures exists i :: 0 <= i < |lists| && xs[k] in lists[i]
      {
        if k < |front| {
          var i :| 0 <= i < |init| && front[k] in init[i];
          assert xs[k] == front[k] && init[i] == lists[i];
        } else {
          assert xs[k] == lists[n][k - |front|];
          assert xs[k] in lists[n];
        }
      }
      forall i, j | 0 <= i < |lists| && 0 <= j < |lists[i]|
        ensures lists[i][j] in xs
      {
        if i < n {
          assert init[i] == lists[i];
          assert lists[i][j] in front;
        } else {
          assert xs[|front| + j] == lists[i][j];
        }
      }
    } else {
      assert Flatten(lists) == [];
    }
  }
}
