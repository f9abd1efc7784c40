/** The partitioner: `chunk(arr, size)` cuts a list into consecutive slices of `size`. */
module Chunking {
  import opened Wrappers

  /** MAX_ACCOUNTS_PER_TX: at most this many close instructions go into one transaction. */
  const MAX_ACCOUNTS_PER_TX: nat := 13

  /** The slices `arr.slice(i, i + size)` for i = 0, size, 2*size, ... below |s|. */
  function Chunks<T>(s: seq<T>, size: nat): seq<seq<T>>
    requires size > 0
    decreases |s|
  {
    if |s| == 0 then []
    else
      var k := Min(size, |s|);
      [s[..k]] + Chunks(s[k..], size)
  }

  /** The elements of the pieces, in order. */
  function Concat<T>(pieces: seq<seq<T>>): seq<T>
  {
    if pieces == [] then [] else Concat(pieces[..|pieces| - 1]) + pieces[|pieces| - 1]
  }

  lemma ConcatLast<T>(pieces: seq<seq<T>>)
    requires pieces != []
    ensures Concat(pieces) == Concat(pieces[..|pieces| - 1]) + pieces[|pieces| - 1]
    ensures forall a :: a in Concat(pieces) <==> a in Concat(pieces[..|pieces| - 1]) || a in pieces[|pieces| - 1]
  {
  }

  lemma {:induction false} ConcatAppend<T>(x: seq<seq<T>>, y: seq<seq<T>>)
    ensures Concat(x + y) == Concat(x) + Concat(y)
    decreases |y|
  {
    if y == [] {
      assert x + y == x;
    } else {
      var yi := y[..|y| - 1];
      assert (x + y)[..|x + y| - 1] == x + yi;
      assert (x + y)[|x + y| - 1] == y[|y| - 1];
      ConcatAppend(x, yi);
    }
  }

  lemma ConcatCons<T>(head: seq<T>, rest: seq<seq<T>>)
    ensures Concat([head] + rest) == head + Concat(rest)
  {
    ConcatAppend([head], rest);
    assert Concat([head]) == head by {
      assert [head][..0] == [];
    }
  }

  /** Concatenating the chunks in order gives the list back. */
  lemma {:induction false} ChunksConcat<T>(s: seq<T>, size: nat)
    requires size > 0
    ensures Concat(Chunks(s, size)) == s
    decreases |s|
  {
    if |s| > 0 {
      var k := Min(size, |s|);
      var head, rest := s[..k], Chunks(s[k..], size);
      calc {
        Concat(Chunks(s, size));
        Concat([head] + rest);
        { ConcatCons(head, rest); }
        head + Concat(rest);
        { ChunksConcat(s[k..], size); }
        head + s[k..];
        s;
      }
    }
  }

  /** Every chunk is non-empty and at most `size` long, and all but the last are exactly `size` long. */
  lemma {:induction false} ChunksSizes<T>(s: seq<T>, size: nat)
    requires size > 0
    ensures forall j :: 0 <= j < |Chunks(s, size)| ==>
      0 < |Chunks(s, size)[j]| <= size && (j < |Chunks(s, size)| - 1 ==> |Chunks(s, size)[j]| == size)
    decreases |s|
  {
    if |s| > 0 {
      var k := Min(size, |s|);
      ChunksSizes(s[k..], size);
      var c := Chunks(s, size);
      assert forall j :: 0 < j < |c| ==> c[j] == Chunks(s[k..], size)[j - 1];
      if k < size {
        assert |s[k..]| == 0;
      }
    }
  }

  /** There are ceil(|s| / size) chunks. */
  lemma {:induction false} ChunksCount<T>(s: seq<T>, size: nat)
    requires size > 0
    ensures |Chunks(s, size)| == (|s| + size - 1) / size
    decreases |s|
  {
    if |s| == 0 {
      assert (size - 1) / size == 0;
    } else if |s| <= size {
      assert Chunks(s, size) == [s[..|s|]] + Chunks(s[|s|..], size);
      assert |s[|s|..]| == 0;
      assert size <= |s| + size - 1 < 2 * size;
      DivBetween(|s| + size - 1, size, 1);
    } else {
      ChunksCount(s[size..], size);
      assert |s| + size - 1 == (|s| - size + size - 1) + size;
      DivShift(|s| - size + size - 1, size);
    }
  }

  lemma DivBetween(x: int, d: int, q: int)
    requires d > 0 && d * q <= x < d * q + d
    ensures x / d == q
  {
    var m := x / d;
    var r := x % d;
    assert x == d * m + r && 0 <= r < d;
    assert d * (m + 1 - q) == d * m + d - d * q;
    assert d * (q + 1 - m) == d * q + d - d * m;
    FactorPositive(d, m + 1 - q);
    FactorPositive(d, q + 1 - m);
  }

  /** A positive product with a positive factor has a positive co-factor. */
  lemma FactorPositive(d: int, t: int)
    requires d > 0 && d * t > 0
    ensures t > 0
  {
  }

  lemma DivShift(x: int, d: int)
    requires d > 0 && x >= 0
    ensures (x + d) / d == x / d + 1
  {
    var m := x / d;
    assert x == d * m + x % d;
    assert x + d == d * (m + 1) + x % d;
    DivBetween(x + d, d, m + 1);
  }

  /** chunk's index loop. */
  method Chunk<T>(arr: seq<T>, size: nat) returns (out: seq<seq<T>>)
    requires size > 0
    ensures out == Chunks(arr, size)
  {
    out := [];
    var i := 0;
    while i < |arr|
      invariant 0 <= i
      invariant out + Chunks(arr[Min(i, |arr|)..], size) == Chunks(arr, size)
      decreases |arr| - i
    {
      var rest := arr[i..];
      var k := Min(size, |rest|);
      assert Chunks(rest, size) == [rest[..k]] + Chunks(rest[k..], size);
      assert rest[..k] == arr[i..Min(i + size, |arr|)];
      assert rest[k..] == arr[Min(i + size, |arr|)..];
      out := out + [arr[i..Min(i + size, |arr|)]];
      i := i + size;
    }
  }
}
