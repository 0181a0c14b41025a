/** Sequence vocabulary shared by every module: concatenation, selection, and the per-direction pair. */
module Seqs {

  datatype Option<+T> = None | Some(value: T)

  datatype Result<+T> = Ok(value: T) | Err(message: string)

  /** A value for each direction of a conversation, indexed by `fromOrig`. */
  datatype Pair<T> = Pair(orig: T, resp: T) {
    function Get(fromOrig: bool): T {
      if fromOrig then orig else resp
    }

    function Set(fromOrig: bool, value: T): Pair<T> {
      if fromOrig then Pair(value, resp) else Pair(orig, value)
    }
  }

  function Flatten<T>(ss: seq<seq<T>>): seq<T> {
    if ss == [] then [] else ss[0] + Flatten(ss[1..])
  }

  lemma {:induction false} FlattenConcat<T>(a: seq<seq<T>>, b: seq<seq<T>>)
    ensures Flatten(a + b) == Flatten(a) + Flatten(b)
  {
    if a == [] {
      assert a + b == b;
    } else {
      assert (a + b)[1..] == a[1..] + b;
      FlattenConcat(a[1..], b);
    }
  }

  lemma FlattenOne<T>(x: seq<T>)
    ensures Flatten([x]) == x
  {
    assert Flatten([x]) == x + Flatten([]);
  }
}
