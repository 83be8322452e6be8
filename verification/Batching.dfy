/** chunk_vec of src/utils/batching.rs. */
module Batching {

  function ChunkVec<T>(items: seq<T>, size: nat): seq<seq<T>>
    decreases |items|
  {
    if size == 0 || items == [] then []
    else if |items| <= size then [items]
    else [items[..size]] + ChunkVec(items[size..], size)
  }

  function Concat<T>(chunks: seq<seq<T>>): seq<T> {
    if chunks == [] then [] else chunks[0] + Concat(chunks[1..])
  }

  /** Chunking loses, repeats and reorders nothing, and only the last chunk may be short. */
  lemma {:induction false} ChunksConcatenate<T>(items: seq<T>, size: nat)
    requires size >= 1
    ensures Concat(ChunkVec(items, size)) == items
    ensures forall i :: 0 <= i < |ChunkVec(items, size)| ==>
      1 <= |ChunkVec(items, size)[i]| <= size &&
      (i + 1 < |ChunkVec(items, size)| ==> |ChunkVec(items, size)[i]| == size)
    decreases |items|
  {
    if |items| > size {
      ChunksConcatenate(items[size..], size);
      var rest := ChunkVec(items[size..], size);
      assert ([items[..size]] + rest)[1..] == rest;
      assert items[..size] + items[size..] == items;
    } else if items != [] {
      assert [items][1..] == [] && Concat([items]) == items + [];
    }
  }
}
