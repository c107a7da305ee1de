/** Triangle streams built by loops.

Every tessellation routine is a counted loop whose i-th iteration hands a
fixed block of triangles to the sink. The stream the sink sees is therefore
the blocks concatenated in iteration order; this module defines that
concatenation once and proves where each block lands: offset `j` of block
`i` is position `len * i + j` of the stream when every block has length
`len`, and `Block` cuts block `i` back out.
 */
module Streams {

  /** The items of `blocks[0]`, then those of `blocks[1]`, and so on. */
  function Concat<T>(blocks: seq<seq<T>>): seq<T>
  {
    if |blocks| == 0 then [] else blocks[0] + Concat(blocks[1..])
  }

  /** Every block holds exactly `len` items. */
  predicate Uniform<T>(blocks: seq<seq<T>>, len: nat)
  {
    forall i :: 0 <= i < |blocks| ==> |blocks[i]| == len
  }

  /** When all blocks have the same length, the stream is as long as all of
      them together. */
  lemma {:induction false} ConcatUniformLength<T>(blocks: seq<seq<T>>, len: nat)
    requires Uniform(blocks, len)
    ensures |Concat(blocks)| == len * |blocks|
  {
    if |blocks| > 0 {
      ConcatUniformLength(blocks[1..], len);
      Distribute(len, |blocks| - 1);
    }
  }

  /** Item `j` of block `i` sits at position `len * i + j` of the stream. */
  lemma {:induction false} ConcatUniformAt<T>(blocks: seq<seq<T>>, len: nat, i: nat, j: nat)
    requires Uniform(blocks, len)
    requires i < |blocks| && j < len
    ensures len * i + j < |Concat(blocks)|
    ensures Concat(blocks)[len * i + j] == blocks[i][j]
  {
    ConcatUniformLength(blocks, len);
    if i > 0 {
      var rest := blocks[1..];
      ConcatUniformAt(rest, len, i - 1, j);
      Distribute(len, i - 1);
      assert rest[i - 1] == blocks[i];
    }
  }

  /** The `i`-th run of `len` items of `ts`, or nothing when `ts` is too
      short to hold it. */
  function Block<T>(ts: seq<T>, len: nat, i: nat): seq<T>
  {
    if len * i + len <= |ts| then ts[len * i .. len * i + len] else []
  }

  /** When all blocks have the same length, cutting the stream into runs of
      that length gives the blocks back, in order. */
  lemma {:induction false} ConcatUniformBlock<T>(blocks: seq<seq<T>>, len: nat, i: nat)
    requires Uniform(blocks, len)
    requires i < |blocks|
    ensures len * i + len <= |Concat(blocks)|
    ensures Block(Concat(blocks), len, i) == blocks[i]
  {
    ConcatUniformLength(blocks, len);
    if i > 0 {
      var rest := blocks[1..];
      ConcatUniformBlock(rest, len, i - 1);
      Distribute(len, i - 1);
      assert rest[i - 1] == blocks[i];
    }
  }

  lemma Distribute(a: int, b: int)
    ensures a * (b + 1) == a * b + a
  {
  }

  /** An item is in the stream exactly when it is in one of the blocks. */
  lemma {:induction false} ConcatMember<T>(blocks: seq<seq<T>>, x: T)
    ensures x in Concat(blocks) <==> exists i :: 0 <= i < |blocks| && x in blocks[i]
  {
    if |blocks| > 0 {
      var rest := blocks[1..];
      ConcatMember(rest, x);
      if x in Concat(rest) {
        var k :| 0 <= k < |rest| && x in rest[k];
        assert x in blocks[k + 1];
      }
      if exists i :: 0 <= i < |blocks| && x in blocks[i] {
        var i :| 0 <= i < |blocks| && x in blocks[i];
        if i > 0 {
          assert x in rest[i - 1];
        }
      }
    }
  }
}
