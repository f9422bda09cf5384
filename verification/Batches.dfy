/** Rows handed over in batches, and the stream they make up. */
module Batches {

  function Flatten<T>(batches: seq<seq<T>>): seq<T> {
    if batches == [] then [] else batches[0] + Flatten(batches[1..])
  }

  lemma {:induction false} FlattenOneMore<T>(batches: seq<seq<T>>, batch: seq<T>)
    ensures Flatten(batches + [batch]) == Flatten(batches) + batch
  {
    if batches == [] {
      assert Flatten([batch]) == batch + Flatten([]);
    } else {
      assert (batches + [batch])[1..] == batches[1..] + [batch];
      FlattenOneMore(batches[1..], batch);
    }
  }
}
