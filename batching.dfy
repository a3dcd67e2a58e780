/** Splitting a sequence of table operations into consecutive groups of at
    most 100, the hard limit of one Azure table batch operation, as both
    pipelines' `PushToAzure` loops do. */
module Batching {

  /** The limit of one `TableBatchOperation`. */
  const MaxAzureOperations: nat := 100

  /** The groups `PushToAzure` submits: full groups of 100 in order, then the remainder. */
  function Chunks<T>(s: seq<T>): seq<seq<T>>
    decreases |s|
  {
    if s == [] then []
    else if |s| <= MaxAzureOperations then [s]
    else [s[..MaxAzureOperations]] + Chunks(s[MaxAzureOperations..])
  }

  function Flatten<T>(ss: seq<seq<T>>): seq<T>
    decreases |ss|
  {
    if ss == [] then [] else ss[0] + Flatten(ss[1..])
  }

  lemma {:induction false} FlattenAppend<T>(a: seq<seq<T>>, b: seq<seq<T>>)
    ensures Flatten(a + b) == Flatten(a) + Flatten(b)
    decreases |a|
  {
    if a == [] {
      assert a + b == b;
    } else {
      assert (a + b)[0] == a[0];
      assert (a + b)[1..] == a[1..] + b;
      FlattenAppend(a[1..], b);
    }
  }

  /** Read in order, the groups are exactly the input: nothing lost, duplicated or reordered. */
  lemma {:induction false} ChunksFlatten<T>(s: seq<T>)
    ensures Flatten(Chunks(s)) == s
    decreases |s|
  {
    if |s| > MaxAzureOperations {
      ChunksFlatten(s[MaxAzureOperations..]);
      assert s == s[..MaxAzureOperations] + s[MaxAzureOperations..];
    }
  }

  /** n operations take ceil(n / 100) batch calls; none at all for n = 0. */
  lemma {:induction false} ChunksCount<T>(s: seq<T>)
    ensures |Chunks(s)| == (|s| + MaxAzureOperations - 1) / MaxAzureOperations
    decreases |s|
  {
    if |s| > MaxAzureOperations {
      ChunksCount(s[MaxAzureOperations..]);
    }
  }

  /** Every call carries 1 to 100 operations, and all but the last exactly 100. */
  lemma {:induction false} ChunksSizes<T>(s: seq<T>)
    ensures forall i :: 0 <= i < |Chunks(s)| ==> 1 <= |Chunks(s)[i]| <= MaxAzureOperations
    ensures forall i :: 0 <= i < |Chunks(s)| - 1 ==> |Chunks(s)[i]| == MaxAzureOperations
    decreases |s|
  {
    if |s| > MaxAzureOperations {
      var rest := s[MaxAzureOperations..];
      ChunksSizes(rest);
      assert Chunks(s) == [s[..MaxAzureOperations]] + Chunks(rest);
      forall i | 1 <= i < |Chunks(s)|
        ensures Chunks(s)[i] == Chunks(rest)[i - 1]
      {
      }
    }
  }

  /** A prefix that is a whole number of full groups splits independently of what follows. */
  lemma {:induction false} ChunksAppend<T>(a: seq<T>, b: seq<T>)
    requires |a| % MaxAzureOperations == 0
    ensures Chunks(a + b) == Chunks(a) + Chunks(b)
    decreases |a|
  {
    if a == [] {
      assert a + b == b;
    } else if b == [] {
      assert a + b == a;
    } else {
      var n := MaxAzureOperations;
      assert (a + b)[..n] == a[..n];
      assert (a + b)[n..] == a[n..] + b;
      if |a| == n {
        assert a[n..] == [];
        assert Chunks(a) == [a];
        assert a[n..] + b == b;
      } else {
        ChunksAppend(a[n..], b);
      }
    }
  }

  /** A non-empty tail of at most 100 is a single final group. */
  lemma ChunksOfShort<T>(s: seq<T>)
    requires 1 <= |s| <= MaxAzureOperations
    ensures Chunks(s) == [s]
  {
  }
}
