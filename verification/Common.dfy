/** Small datatypes shared by every component. */
module Common {

  datatype Option<+T> = None | Some(value: T)

  datatype Result<+T, +E> = Ok(value: T) | Err(error: E)

  /** No two positions hold the same value. */
  ghost predicate Distinct<T>(s: seq<T>) {
    forall i, j :: 0 <= i < j < |s| ==> s[i] != s[j]
  }

  /** The elements that are not to be dropped, in order. */
  function Dropped<T>(s: seq<T>, drop: T -> bool): seq<T> {
    if s == [] then []
    else Dropped(s[..|s| - 1], drop) + (if drop(s[|s| - 1]) then [] else [s[|s| - 1]])
  }

  lemma {:induction false} DroppedMembers<T>(s: seq<T>, drop: T -> bool)
    ensures forall x :: x in Dropped(s, drop) <==> x in s && !drop(x)
    ensures |Dropped(s, drop)| <= |s|
    ensures |Dropped(s, drop)| < |s| <==> exists x :: x in s && drop(x)
  {
    if s != [] {
      DroppedMembers(s[..|s| - 1], drop);
      assert s == s[..|s| - 1] + [s[|s| - 1]];
    }
  }

  lemma DistinctSnoc<T>(s: seq<T>, x: T)
    ensures Distinct(s + [x]) <==> Distinct(s) && x !in s
  {
    var t := s + [x];
    if Distinct(t) {
      forall i | 0 <= i < |s|
        ensures s[i] != x
      {
        assert t[i] != t[|s|];
      }
      forall i, j | 0 <= i < j < |s|
        ensures s[i] != s[j]
      {
        assert t[i] != t[j];
      }
    }
  }
}
