/** The bounded queues of the collector and the dataset rows built from the
    recording queue: appending to a deque with a maximum length, flattening a
    window of normalised vectors, and the sliding window that turns a run of
    recorded frames into overlapping rows. */
module Recording {
  import opened Poses

  /** The last n elements of s (all of s when it is no longer than n). */
  function KeepLast<T>(s: seq<T>, n: nat): (r: seq<T>)
    ensures |r| == if |s| <= n then |s| else n
  {
    if |s| <= n then s else s[|s| - n..]
  }

  /** Appending x to a deque whose maximum length is n: when the deque is full,
      the oldest element is dropped; a deque of maximum length 0 stays empty. */
  function Push<T>(q: seq<T>, x: T, n: nat): (r: seq<T>)
    requires |q| <= n
    ensures |r| <= n
    ensures |q| < n ==> r == q + [x]
    ensures |q| == n > 0 ==> r == q[1..] + [x]
    ensures n == 0 ==> r == []
  {
    KeepLast(q + [x], n)
  }

  /** Every element of the pushed deque is x or an element of q. */
  lemma PushElements<T>(q: seq<T>, x: T, n: nat, k: nat)
    requires |q| <= n && k < |Push(q, x, n)|
    ensures Push(q, x, n)[k] == x || Push(q, x, n)[k] in q
  {
  }

  predicate AllVectors(vs: seq<seq<real>>) {
    forall k :: 0 <= k < |vs| ==> |vs[k]| == Features
  }

  /** The vectors of vs one after the other. */
  function Flatten(vs: seq<seq<real>>): (r: seq<real>)
    ensures AllVectors(vs) ==> |r| == Features * |vs|
    decreases |vs|
  {
    if vs == [] then []
    else
      var prefix := vs[..|vs| - 1];
      assert AllVectors(vs) ==> AllVectors(prefix) by {
        assert forall k :: 0 <= k < |prefix| ==> prefix[k] == vs[k];
      }
      Flatten(prefix) + vs[|vs| - 1]
  }

  /** Entry j of vector k sits at position Features * k + j of the flattened row. */
  lemma {:induction false} FlattenAt(vs: seq<seq<real>>, k: nat, j: nat)
    requires AllVectors(vs) && k < |vs| && j < Features
    ensures Features * k + j < |Flatten(vs)|
    ensures Flatten(vs)[Features * k + j] == vs[k][j]
  {
    var n := |vs| - 1;
    var prefix := vs[..n];
    assert forall i :: 0 <= i < n ==> prefix[i] == vs[i];
    assert Flatten(vs) == Flatten(prefix) + vs[n];
    if k < n {
      FlattenAt(prefix, k, j);
    }
  }

  /** One dataset row: the flattened window followed by the label. */
  function Row(window: seq<seq<real>>, classLabel: int): (r: seq<real>)
    ensures |r| == |Flatten(window)| + 1
    ensures AllVectors(window) ==> |r| == Features * |window| + 1
    ensures r[|r| - 1] == classLabel as real
  {
    Flatten(window) + [classLabel as real]
  }

  /** Column Features * k + j of a row holds entry j of the k-th vector of its
      window: the row lists the window's frames in order, each frame's vector
      in order, and the label last. */
  lemma RowAt(window: seq<seq<real>>, classLabel: int, k: nat, j: nat)
    requires AllVectors(window) && k < |window| && j < Features
    ensures Features * k + j < |Row(window, classLabel)| - 1
    ensures Row(window, classLabel)[Features * k + j] == window[k][j]
  {
    FlattenAt(window, k, j);
  }

  /** The recording queue together with the dataset it feeds. */
  datatype Recorder = Recorder(buffer: seq<seq<real>>, rows: seq<seq<real>>)

  /** One recorded frame: push v into the queue of maximum length seqLength and,
      if the queue is then full, append one row built from it. */
  function Record(rec: Recorder, v: seq<real>, seqLength: nat, classLabel: int): (r: Recorder)
    requires |rec.buffer| <= seqLength
    ensures r.buffer == Push(rec.buffer, v, seqLength)
    ensures |r.buffer| <= seqLength
    ensures |rec.rows| <= |r.rows| <= |rec.rows| + 1 && r.rows[..|rec.rows|] == rec.rows
    ensures |r.rows| == |rec.rows| + 1 <==> |r.buffer| == seqLength
    ensures |r.rows| == |rec.rows| + 1 ==> r.rows[|rec.rows|] == Row(r.buffer, classLabel)
  {
    var b := Push(rec.buffer, v, seqLength);
    Recorder(b, if |b| == seqLength then rec.rows + [Row(b, classLabel)] else rec.rows)
  }

  /** Recording the frames vs one by one, starting from an empty queue (as
      starting a recording leaves it) and the dataset rows. */
  function RecordAll(rows: seq<seq<real>>, vs: seq<seq<real>>, seqLength: nat, classLabel: int): (r: Recorder)
    ensures |r.buffer| <= seqLength
    decreases |vs|
  {
    if vs == [] then Recorder([], rows)
    else Record(RecordAll(rows, vs[..|vs| - 1], seqLength, classLabel), vs[|vs| - 1], seqLength, classLabel)
  }

  /** How many rows n recorded frames produce with a queue of maximum length L. */
  function Windows(n: nat, seqLength: nat): nat {
    if seqLength == 0 then n else if n < seqLength then 0 else n - seqLength + 1
  }

  /** Pushing onto the last n elements of a history keeps the last n elements
      of the extended history: a deque of maximum length n always holds the
      last n elements pushed. */
  lemma PushKeepLast<T>(p: seq<T>, x: T, n: nat)
    ensures Push(KeepLast(p, n), x, n) == KeepLast(p + [x], n)
  {
  }

  /** After the frames vs the recording queue holds the last seqLength of them. */
  lemma {:induction false} RecordedBuffer(rows: seq<seq<real>>, vs: seq<seq<real>>, seqLength: nat, classLabel: int)
    ensures RecordAll(rows, vs, seqLength, classLabel).buffer == KeepLast(vs, seqLength)
  {
    if vs != [] {
      var n := |vs| - 1;
      var prefix := vs[..n];
      RecordedBuffer(rows, prefix, seqLength, classLabel);
      PushKeepLast(prefix, vs[n], seqLength);
      assert prefix + [vs[n]] == vs;
    } else {
      assert RecordAll(rows, vs, seqLength, classLabel) == Recorder([], rows);
    }
  }

  /** After n recorded frames the dataset has gained one row per full window
      of the queue, and the rows it held before are untouched. */
  lemma {:induction false} RecordedRowCount(rows: seq<seq<real>>, vs: seq<seq<real>>, seqLength: nat, classLabel: int)
    ensures |RecordAll(rows, vs, seqLength, classLabel).rows| == |rows| + Windows(|vs|, seqLength)
    ensures RecordAll(rows, vs, seqLength, classLabel).rows[..|rows|] == rows
  {
    if vs != [] {
      var n := |vs| - 1;
      var prefix := vs[..n];
      RecordedRowCount(rows, prefix, seqLength, classLabel);
      RecordedBuffer(rows, vs, seqLength, classLabel);
      var before := RecordAll(rows, prefix, seqLength, classLabel);
      var after := RecordAll(rows, vs, seqLength, classLabel);
      assert after == Record(before, vs[n], seqLength, classLabel);
      assert after.rows[..|rows|] == before.rows[..|rows|];
    } else {
      assert RecordAll(rows, vs, seqLength, classLabel) == Recorder([], rows);
    }
  }

  /** Row i of the dataset after the frames vs, for a row the recording added,
      holds the window of frames that starts at i - |rows|. */
  lemma {:induction false} RecordedRow(rows: seq<seq<real>>, vs: seq<seq<real>>, seqLength: nat, classLabel: int, i: nat)
    requires |rows| <= i < |RecordAll(rows, vs, seqLength, classLabel).rows|
    ensures i - |rows| + seqLength <= |vs|
    ensures RecordAll(rows, vs, seqLength, classLabel).rows[i] == Row(vs[i - |rows|..i - |rows| + seqLength], classLabel)
  {
    assert vs != [] by {
      assert RecordAll(rows, [], seqLength, classLabel) == Recorder([], rows);
    }
    var prefix := vs[..|vs| - 1];
    if i < |RecordAll(rows, prefix, seqLength, classLabel).rows| {
      RecordedRow(rows, prefix, seqLength, classLabel, i);
      OldRow(rows, vs, seqLength, classLabel, i);
    } else {
      NewRow(rows, vs, seqLength, classLabel, i);
    }
  }

  /** A later frame leaves the rows that are already there as they are. */
  lemma {:induction false} OldRow(rows: seq<seq<real>>, vs: seq<seq<real>>, seqLength: nat, classLabel: int, i: nat)
    requires vs != [] && |rows| <= i < |RecordAll(rows, vs[..|vs| - 1], seqLength, classLabel).rows|
    requires i - |rows| + seqLength <= |vs| - 1
    requires RecordAll(rows, vs[..|vs| - 1], seqLength, classLabel).rows[i]
          == Row(vs[..|vs| - 1][i - |rows|..i - |rows| + seqLength], classLabel)
    ensures i < |RecordAll(rows, vs, seqLength, classLabel).rows|
    ensures RecordAll(rows, vs, seqLength, classLabel).rows[i] == Row(vs[i - |rows|..i - |rows| + seqLength], classLabel)
  {
    RecordAllStep(rows, vs, seqLength, classLabel);
    KeptRow(RecordAll(rows, vs[..|vs| - 1], seqLength, classLabel).rows, RecordAll(rows, vs, seqLength, classLabel).rows,
            vs, |vs| - 1, i, i - |rows|, seqLength, classLabel);
  }

  lemma KeptRow(before: seq<seq<real>>, after: seq<seq<real>>, vs: seq<seq<real>>, n: nat, i: nat, w: nat, seqLength: nat, classLabel: int)
    requires |before| <= |after| && after[..|before|] == before && i < |before|
    requires w + seqLength <= n <= |vs| && before[i] == Row(vs[..n][w..w + seqLength], classLabel)
    ensures after[i] == Row(vs[w..w + seqLength], classLabel)
  {
    PrefixKeeps(before, after, i);
    SliceOfPrefix(vs, n, w, w + seqLength);
  }

  /** Recording a run of frames is recording all but the last, then the last. */
  lemma RecordAllStep(rows: seq<seq<real>>, vs: seq<seq<real>>, seqLength: nat, classLabel: int)
    requires vs != []
    ensures RecordAll(rows, vs, seqLength, classLabel)
         == Record(RecordAll(rows, vs[..|vs| - 1], seqLength, classLabel), vs[|vs| - 1], seqLength, classLabel)
  {
  }

  lemma PrefixKeeps<T>(a: seq<T>, b: seq<T>, i: nat)
    requires |a| <= |b| && b[..|a|] == a && i < |a|
    ensures b[i] == a[i]
  {
  }

  /** The row that the last of the frames vs adds, if it adds one, holds the
      window that ends with that frame. */
  lemma {:induction false} NewRow(rows: seq<seq<real>>, vs: seq<seq<real>>, seqLength: nat, classLabel: int, i: nat)
    requires vs != []
    requires |RecordAll(rows, vs[..|vs| - 1], seqLength, classLabel).rows| <= i < |RecordAll(rows, vs, seqLength, classLabel).rows|
    ensures |rows| <= i && i - |rows| + seqLength <= |vs|
    ensures RecordAll(rows, vs, seqLength, classLabel).rows[i] == Row(vs[i - |rows|..i - |rows| + seqLength], classLabel)
  {
    var n := |vs| - 1;
    var before := RecordAll(rows, vs[..n], seqLength, classLabel);
    var after := RecordAll(rows, vs, seqLength, classLabel);
    assert |after.buffer| == seqLength && i == |before.rows| && after.rows[i] == Row(after.buffer, classLabel) by {
      assert after == Record(before, vs[n], seqLength, classLabel);
    }
    assert i - |rows| == Windows(n, seqLength) by {
      RecordedRowCount(rows, vs[..n], seqLength, classLabel);
    }
    assert after.buffer == KeepLast(vs, seqLength) by {
      RecordedBuffer(rows, vs, seqLength, classLabel);
    }
    FullWindow(vs, seqLength);
  }

  /** When the queue is full after the frames vs, it holds the window that
      starts at the number of rows the earlier frames produced. */
  lemma FullWindow<T>(vs: seq<T>, seqLength: nat)
    requires |vs| > 0 && |KeepLast(vs, seqLength)| == seqLength
    ensures Windows(|vs| - 1, seqLength) + seqLength <= |vs|
    ensures KeepLast(vs, seqLength) == vs[Windows(|vs| - 1, seqLength)..Windows(|vs| - 1, seqLength) + seqLength]
  {
  }

  lemma SliceOfPrefix<T>(s: seq<T>, n: nat, a: nat, b: nat)
    requires a <= b <= n <= |s|
    ensures s[..n][a..b] == s[a..b]
  {
  }

  /** After n recorded frames the dataset has gained one row per full window of
      the queue: the i-th new row is made of frames i .. i + seqLength - 1, in
      order, followed by the label. Earlier rows are untouched. */
  lemma SlidingWindow(rows: seq<seq<real>>, vs: seq<seq<real>>, seqLength: nat, classLabel: int)
    ensures var r := RecordAll(rows, vs, seqLength, classLabel);
      && |r.rows| == |rows| + Windows(|vs|, seqLength)
      && r.rows[..|rows|] == rows
      && forall i :: |rows| <= i < |r.rows| ==>
           i - |rows| + seqLength <= |vs| &&
           r.rows[i] == Row(vs[i - |rows|..i - |rows| + seqLength], classLabel)
  {
    RecordedRowCount(rows, vs, seqLength, classLabel);
    var r := RecordAll(rows, vs, seqLength, classLabel);
    forall i | |rows| <= i < |r.rows|
      ensures i - |rows| + seqLength <= |vs|
      ensures r.rows[i] == Row(vs[i - |rows|..i - |rows| + seqLength], classLabel)
    {
      RecordedRow(rows, vs, seqLength, classLabel, i);
    }
  }
}
