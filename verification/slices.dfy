/** The slice loop of the upload state machine (src/index.js:765-789): ask for a presigned
    destination for slice `n`, cut `[(n-1)K, min(nK, S))` out of the buffer, stop on an empty
    cut, PUT the cut, stop once the end reaches the file size. `S` is the buffer length and
    `K` the `sliceSize` the create-file reply reported. */
module Slices {
  import opened JsValues

  /** A half-open byte range `[start, end)` of the buffer. */
  datatype Range = Range(start: int, end: int)

  /** What the server answers for slice `n`: whether the presigned destination came back,
      and the HTTP status of the PUT to it (a transport error or step timeout is any status
      outside 2xx). */
  datatype SliceReply = SliceReply(urlGranted: bool, putStatus: int)

  datatype SliceCall = GetSliceUrl(preuploadID: string, sliceNo: nat) | PutSlice(sliceNo: nat, range: Range)

  datatype SliceResult = SlicesSent | UrlRefused(sliceNo: nat) | PutRejected(sliceNo: nat, status: int)

  datatype SliceRun = SliceRun(result: SliceResult, calls: seq<SliceCall>)

  /** Reply for slice `n` (1-based); a slice the script says nothing about never got its
      destination (the 15-second step timeout fired). */
  function ReplyAt(replies: seq<SliceReply>, n: nat): SliceReply {
    if 1 <= n <= |replies| then replies[n - 1] else SliceReply(false, 0)
  }

  predicate Accepted(reply: SliceReply) {
    reply.urlGranted && 200 <= reply.putStatus < 300
  }

  /** `Buffer.slice` index normalisation: negative indices count from the end, and the result
      is clamped into `[0, size]`. */
  function BufferIndex(i: int, size: nat): nat {
    if i < 0 then Max(0, size + i) else Min(i, size)
  }

  /** The bytes `buffer.slice(start, end)` covers: empty when the normalised end is not past
      the normalised start. */
  function BufferSlice(size: nat, start: int, end: int): (r: Range)
    ensures 0 <= r.start <= r.end <= size
  {
    var a := BufferIndex(start, size);
    var b := BufferIndex(end, size);
    if b <= a then Range(a, a) else Range(a, b)
  }

  /** Termination measure of the loop: the bytes still to cut for a positive slice size; for a
      non-positive one the loop runs at most twice. */
  function Remaining(size: nat, k: int, sliceNo: nat): nat {
    if k > 0 then Max(0, size - (sliceNo - 1) * k) else 2 - Min(sliceNo, 2)
  }

  lemma StepProduct(n: int, k: int)
    ensures n * k == (n - 1) * k + k
  {
  }

  /** With a negative slice size, every slice after the first is empty. */
  lemma NegativeSliceSizeStops(size: nat, k: int, n: nat)
    requires k < 0 && n >= 2
    ensures var r := BufferSlice(size, (n - 1) * k, Min(n * k, size)); r.start == r.end
  {
    StepProduct(n, k);
    assert (n - 1) * k <= k by {
      assert (n - 2) * k <= 0;
      StepProduct(n - 1, k);
    }
  }

  /** One pass of the `while (true)` loop per call, from slice `sliceNo` on. */
  function SliceLoop(size: nat, k: int, pid: string, replies: seq<SliceReply>, sliceNo: nat): (run: SliceRun)
    requires sliceNo >= 1
    decreases Remaining(size, k, sliceNo)
  {
    var reply := ReplyAt(replies, sliceNo);
    var ask := [GetSliceUrl(pid, sliceNo)];
    if !reply.urlGranted then SliceRun(UrlRefused(sliceNo), ask)
    else
      var start := (sliceNo - 1) * k;
      var end := Min(sliceNo * k, size);
      var r := BufferSlice(size, start, end);
      if r.start == r.end then SliceRun(SlicesSent, ask)
      else
        var sent := ask + [PutSlice(sliceNo, r)];
        if !(200 <= reply.putStatus < 300) then SliceRun(PutRejected(sliceNo, reply.putStatus), sent)
        else if end >= size then SliceRun(SlicesSent, sent)
        else
          assert k > 0 || sliceNo == 1 by {
            if k < 0 && sliceNo >= 2 {
              NegativeSliceSizeStops(size, k, sliceNo);
            }
          }
          StepProduct(sliceNo, k);
          var rest := SliceLoop(size, k, pid, replies, sliceNo + 1);
          SliceRun(rest.result, sent + rest.calls)
  }

  /** The slice loop started at slice 1. */
  function UploadSlices(size: nat, k: int, pid: string, replies: seq<SliceReply>): SliceRun {
    SliceLoop(size, k, pid, replies, 1)
  }

  /** The ranges PUT, in order. */
  function Puts(calls: seq<SliceCall>): seq<Range> {
    if |calls| == 0 then []
    else (if calls[0].PutSlice? then [calls[0].range] else []) + Puts(calls[1..])
  }

  /** The slice numbers whose destination was requested, in order. */
  function UrlRequests(calls: seq<SliceCall>): seq<nat> {
    if |calls| == 0 then []
    else (if calls[0].GetSliceUrl? then [calls[0].sliceNo] else []) + UrlRequests(calls[1..])
  }

  lemma {:induction false} PutsAppend(a: seq<SliceCall>, b: seq<SliceCall>)
    ensures Puts(a + b) == Puts(a) + Puts(b)
    ensures UrlRequests(a + b) == UrlRequests(a) + UrlRequests(b)
  {
    PutsOnlyAppend(a, b);
    UrlRequestsAppend(a, b);
  }

  lemma {:induction false} PutsOnlyAppend(a: seq<SliceCall>, b: seq<SliceCall>)
    ensures Puts(a + b) == Puts(a) + Puts(b)
    decreases |a|
  {
    if |a| == 0 {
      assert a + b == b;
    } else {
      var head := if a[0].PutSlice? then [a[0].range] else [];
      assert (a + b)[0] == a[0];
      assert (a + b)[1..] == a[1..] + b;
      PutsOnlyAppend(a[1..], b);
      assert Puts(a + b) == head + (Puts(a[1..]) + Puts(b));
      assert head + (Puts(a[1..]) + Puts(b)) == (head + Puts(a[1..])) + Puts(b);
    }
  }

  lemma {:induction false} UrlRequestsAppend(a: seq<SliceCall>, b: seq<SliceCall>)
    ensures UrlRequests(a + b) == UrlRequests(a) + UrlRequests(b)
    decreases |a|
  {
    if |a| == 0 {
      assert a + b == b;
    } else {
      var head := if a[0].GetSliceUrl? then [a[0].sliceNo] else [];
      assert (a + b)[0] == a[0];
      assert (a + b)[1..] == a[1..] + b;
      UrlRequestsAppend(a[1..], b);
      assert UrlRequests(a + b) == head + (UrlRequests(a[1..]) + UrlRequests(b));
      assert head + (UrlRequests(a[1..]) + UrlRequests(b)) == (head + UrlRequests(a[1..])) + UrlRequests(b);
    }
  }

  /** One loop pass that PUTs: a destination request for slice `n`, then the PUT of `r`. */
  lemma PassCalls(pid: string, n: nat, r: Range)
    ensures Puts([GetSliceUrl(pid, n), PutSlice(n, r)]) == [r]
    ensures UrlRequests([GetSliceUrl(pid, n), PutSlice(n, r)]) == [n]
  {
    var s := [GetSliceUrl(pid, n), PutSlice(n, r)];
    var t := [PutSlice(n, r)];
    assert s[1..] == t && t[1..] == [];
    assert Puts(t) == [r] + Puts([]);
    assert UrlRequests(t) == [] + UrlRequests([]);
    assert Puts(s) == [] + Puts(t);
    assert UrlRequests(s) == [n] + UrlRequests(t);
  }

  /** Reference plan for a positive slice size: consecutive `K`-byte ranges from `offset`,
      the last one cut at the file size. */
  function PlanFrom(size: nat, k: int, offset: int): seq<Range>
    requires k > 0 && offset >= 0
    decreases Max(0, size - offset)
  {
    if offset >= size then [] else [Range(offset, Min(offset + k, size))] + PlanFrom(size, k, offset + k)
  }

  function Plan(size: nat, k: int): seq<Range>
    requires k > 0
  {
    PlanFrom(size, k, 0)
  }

  /** `rs` are non-empty, contiguous ranges that start at `lo` and end at `hi`. */
  predicate TilesFrom(rs: seq<Range>, lo: int, hi: int)
    decreases |rs|
  {
    if |rs| == 0 then lo == hi
    else rs[0].start == lo && rs[0].start < rs[0].end && TilesFrom(rs[1..], rs[0].end, hi)
  }

  predicate InRange(r: Range, b: int) {
    r.start <= b < r.end
  }

  /** Byte `b` lies in one of the ranges of `rs`. */
  predicate Covered(rs: seq<Range>, b: int) {
    exists i :: 0 <= i < |rs| && InRange(rs[i], b)
  }

  lemma {:induction false} PlanFromTiles(size: nat, k: int, offset: int)
    requires k > 0 && 0 <= offset <= size
    ensures TilesFrom(PlanFrom(size, k, offset), offset, size)
    decreases size - offset
  {
    if offset < size {
      var next := Min(offset + k, size);
      PlanFromTiles(size, k, next);
      if offset + k < size {
        assert PlanFrom(size, k, offset)[1..] == PlanFrom(size, k, offset + k);
      } else {
        assert PlanFrom(size, k, offset + k) == [];
      }
    }
  }

  /** Every range of a tiling lies inside it, and later ranges start where earlier ones end. */
  lemma {:induction false} TilesOrdered(rs: seq<Range>, lo: int, hi: int)
    requires TilesFrom(rs, lo, hi)
    ensures forall i :: 0 <= i < |rs| ==> lo <= rs[i].start < rs[i].end <= hi
    ensures forall i, j :: 0 <= i < j < |rs| ==> rs[i].end <= rs[j].start
    decreases |rs|
  {
    if |rs| > 0 {
      TilesOrdered(rs[1..], rs[0].end, hi);
      assert forall i :: 1 <= i < |rs| ==> rs[i] == rs[1..][i - 1];
    }
  }

  /** A tiling covers every byte of `[lo, hi)` with exactly one of its ranges. */
  lemma {:induction false} TilesCoverExactly(rs: seq<Range>, lo: int, hi: int)
    requires TilesFrom(rs, lo, hi)
    ensures forall b :: lo <= b < hi ==> Covered(rs, b)
    ensures forall i, j, b :: 0 <= i < |rs| && 0 <= j < |rs| && InRange(rs[i], b) && InRange(rs[j], b) ==> i == j
    decreases |rs|
  {
    TilesOrdered(rs, lo, hi);
    if |rs| > 0 {
      TilesCoverExactly(rs[1..], rs[0].end, hi);
      forall b | lo <= b < hi
        ensures Covered(rs, b)
      {
        if b < rs[0].end {
          assert InRange(rs[0], b);
        } else {
          assert Covered(rs[1..], b);
          var i :| 0 <= i < |rs[1..]| && InRange(rs[1..][i], b);
          assert InRange(rs[i + 1], b);
        }
      }
    }
  }

  /** The plan tiles `[0, S)`: non-empty, contiguous, non-overlapping slices that cover every
      byte exactly once. */
  lemma PlanCoversFile(size: nat, k: int)
    requires k > 0
    ensures TilesFrom(Plan(size, k), 0, size)
    ensures forall b :: 0 <= b < size ==> Covered(Plan(size, k), b)
    ensures forall i, j, b ::
              (0 <= i < |Plan(size, k)| && 0 <= j < |Plan(size, k)|
               && InRange(Plan(size, k)[i], b) && InRange(Plan(size, k)[j], b)) ==> i == j
  {
    PlanFromTiles(size, k, 0);
    TilesCoverExactly(Plan(size, k), 0, size);
  }

  lemma MulMonotone(a: int, b: int, k: int)
    requires a <= b && k >= 0
    ensures a * k <= b * k
  {
    assert b * k - a * k == (b - a) * k;
  }

  /** `n` is the ceiling of `x / k` exactly when `(n - 1)k < x <= nk`. */
  lemma CeilingDiv(x: int, k: int, n: int)
    requires k > 0 && (n - 1) * k < x <= n * k
    ensures n == (x + k - 1) / k
  {
    var q := (x + k - 1) / k;
    var r := (x + k - 1) % k;
    assert x + k - 1 == q * k + r && 0 <= r < k;
    StepProduct(n, k);
    StepProduct(q + 1, k);
    if n > q {
      MulMonotone(q + 1, n, k);
    }
    if n < q {
      MulMonotone(n + 1, q, k);
      StepProduct(n + 1, k);
    }
  }

  /** `⌈(S - offset) / K⌉` ranges from `offset` on, each starting `K` after the previous one. */
  lemma {:induction false} PlanFromShape(size: nat, k: int, offset: int)
    requires k > 0 && 0 <= offset <= size
    ensures var p := PlanFrom(size, k, offset);
            && (|p| - 1) * k < size - offset <= |p| * k
            && forall i :: 0 <= i < |p| ==> p[i] == Range(offset + i * k, Min(offset + (i + 1) * k, size))
    decreases size - offset
  {
    var p := PlanFrom(size, k, offset);
    if offset == size {
      assert p == [];
    } else if offset + k >= size {
      assert PlanFrom(size, k, offset + k) == [];
    } else {
      var rest := PlanFrom(size, k, offset + k);
      PlanFromShape(size, k, offset + k);
      assert p == [p[0]] + rest;
      StepProduct(|p|, k);
      StepProduct(|p| - 1, k);
      forall i | 0 <= i < |p|
        ensures p[i] == Range(offset + i * k, Min(offset + (i + 1) * k, size))
      {
        if i > 0 {
          assert p[i] == rest[i - 1];
          StepProduct(i, k);
          StepProduct(i + 1, k);
        }
      }
    }
  }

  /** The plan's size and shape: `⌈S/K⌉` slices, slice `n` is `[(n-1)K, min(nK, S))`, so the
      last one holds the `S - (⌈S/K⌉ - 1)K` bytes left over, between 1 and `K`. */
  lemma PlanShape(size: nat, k: int)
    requires k > 0
    ensures |Plan(size, k)| == (size + k - 1) / k
    ensures forall i :: 0 <= i < |Plan(size, k)| ==> Plan(size, k)[i] == Range(i * k, Min((i + 1) * k, size))
    ensures size > 0 ==>
              var p := Plan(size, k);
              && |p| > 0
              && p[|p| - 1] == Range((|p| - 1) * k, size)
              && 0 < size - (|p| - 1) * k <= k
  {
    var p := Plan(size, k);
    PlanFromShape(size, k, 0);
    CeilingDiv(size, k, |p|);
    if size > 0 {
      assert |p| > 0;
      StepProduct(|p|, k);
    }
  }

  /** Slice numbers `from, from + 1, ..., from + count - 1`. */
  function Numbered(from: nat, count: nat): (r: seq<nat>)
    ensures |r| == count
    ensures forall i :: 0 <= i < count ==> r[i] == from + i
    decreases count
  {
    if count == 0 then [] else [from] + Numbered(from + 1, count - 1)
  }

  /** For a positive slice size the loop PUTs a prefix of the plan, and all of it when it
      reports success, with one destination request per slice in order. */
  lemma {:induction false} SliceLoopFollowsPlan(size: nat, k: int, pid: string, replies: seq<SliceReply>, sliceNo: nat)
    requires k > 0 && sliceNo >= 1 && (sliceNo - 1) * k <= size
    ensures var run := SliceLoop(size, k, pid, replies, sliceNo);
            var plan := PlanFrom(size, k, (sliceNo - 1) * k);
            && |Puts(run.calls)| <= |plan|
            && Puts(run.calls) == plan[..|Puts(run.calls)|]
            && (run.result.SlicesSent? && (sliceNo - 1) * k < size ==>
                  Puts(run.calls) == plan && UrlRequests(run.calls) == Numbered(sliceNo, |plan|))
    decreases Remaining(size, k, sliceNo)
  {
    var run := SliceLoop(size, k, pid, replies, sliceNo);
    var offset := (sliceNo - 1) * k;
    var plan := PlanFrom(size, k, offset);
    var reply := ReplyAt(replies, sliceNo);
    StepProduct(sliceNo, k);
    var end := Min(sliceNo * k, size);
    var r := BufferSlice(size, offset, end);
    if !reply.urlGranted || r.start == r.end {
      assert run.calls == [GetSliceUrl(pid, sliceNo)];
      assert Puts(run.calls) == [];
    } else {
      var sent := [GetSliceUrl(pid, sliceNo), PutSlice(sliceNo, r)];
      PassCalls(pid, sliceNo, r);
      assert r == Range(offset, Min(offset + k, size));
      assert plan[0] == r;
      if !(200 <= reply.putStatus < 300) || end >= size {
        assert run.calls == sent;
        if end >= size {
          assert PlanFrom(size, k, offset + k) == [];
          assert plan == [r];
        }
      } else {
        var rest := SliceLoop(size, k, pid, replies, sliceNo + 1);
        SliceLoopFollowsPlan(size, k, pid, replies, sliceNo + 1);
        assert run.calls == sent + rest.calls;
        PutsAppend(sent, rest.calls);
        assert plan == [r] + PlanFrom(size, k, offset + k);
      }
    }
  }

  /** Every slice numbered in `[first, last)` had its destination granted and its PUT accepted. */
  predicate AcceptedRun(replies: seq<SliceReply>, first: nat, last: nat) {
    forall n :: first <= n < last ==> Accepted(ReplyAt(replies, n))
  }

  /** Success is reported only after every planned slice was accepted, and acceptance of all of
      them is enough for success. */
  lemma {:induction false} SliceLoopSucceedsIffAllAccepted(size: nat, k: int, pid: string, replies: seq<SliceReply>, sliceNo: nat)
    requires k > 0 && sliceNo >= 1 && (sliceNo - 1) * k < size
    ensures SliceLoop(size, k, pid, replies, sliceNo).result.SlicesSent? <==>
            AcceptedRun(replies, sliceNo, sliceNo + |PlanFrom(size, k, (sliceNo - 1) * k)|)
    decreases Remaining(size, k, sliceNo)
  {
    var offset := (sliceNo - 1) * k;
    var plan := PlanFrom(size, k, offset);
    var rest := PlanFrom(size, k, offset + k);
    var reply := ReplyAt(replies, sliceNo);
    StepProduct(sliceNo, k);
    var end := Min(sliceNo * k, size);
    assert BufferSlice(size, offset, end) == Range(offset, end);
    assert |plan| == 1 + |rest|;
    if end >= size {
      assert rest == [];
    } else if Accepted(reply) {
      SliceLoopSucceedsIffAllAccepted(size, k, pid, replies, sliceNo + 1);
    } else {
      assert !AcceptedRun(replies, sliceNo, sliceNo + |plan|);
    }
  }

  /** Every reply accepted: the loop sends the whole plan. */
  lemma UploadSlicesSendsPlan(size: nat, k: int, pid: string, replies: seq<SliceReply>)
    requires k > 0 && size > 0
    requires AcceptedRun(replies, 1, 1 + |Plan(size, k)|)
    ensures var run := UploadSlices(size, k, pid, replies);
            && run.result == SlicesSent
            && Puts(run.calls) == Plan(size, k)
            && UrlRequests(run.calls) == Numbered(1, |Plan(size, k)|)
  {
    SliceLoopSucceedsIffAllAccepted(size, k, pid, replies, 1);
    SliceLoopFollowsPlan(size, k, pid, replies, 1);
  }

  /** A zero slice size makes the first cut empty: one destination request, nothing PUT. */
  lemma ZeroSliceSizeSendsNothing(size: nat, pid: string, replies: seq<SliceReply>)
    ensures var run := UploadSlices(size, 0, pid, replies);
            run.calls == [GetSliceUrl(pid, 1)] && (run.result.SlicesSent? <==> ReplyAt(replies, 1).urlGranted)
  {
  }

  /** A negative slice size PUTs at most the one range `[0, S + K)`. */
  lemma NegativeSliceSizeSendsAtMostOne(size: nat, k: int, pid: string, replies: seq<SliceReply>)
    requires k < 0
    ensures var puts := Puts(UploadSlices(size, k, pid, replies).calls);
            puts == [] || puts == [Range(0, size + k)]
  {
    var run := UploadSlices(size, k, pid, replies);
    var r := BufferSlice(size, 0, Min(k, size));
    var reply := ReplyAt(replies, 1);
    if reply.urlGranted && r.start != r.end {
      var sent := [GetSliceUrl(pid, 1), PutSlice(1, r)];
      PassCalls(pid, 1, r);
      if 200 <= reply.putStatus < 300 && Min(k, size) < size {
        var rest := SliceLoop(size, k, pid, replies, 2);
        NegativeSliceSizeStops(size, k, 2);
        assert rest.calls == [GetSliceUrl(pid, 2)];
        assert Puts(rest.calls) == [];
        assert run.calls == sent + rest.calls;
        PutsAppend(sent, rest.calls);
      } else {
        assert run.calls == sent;
      }
    } else {
      assert run.calls == [GetSliceUrl(pid, 1)];
      assert Puts(run.calls) == [];
    }
  }

  /** The last slice holds the remainder `size % k`, or a whole `k` when `k` divides `size`. */
  lemma LastSliceIsRemainder(size: nat, k: int)
    requires k > 0 && size > 0
    ensures var p := Plan(size, k);
            |p| > 0 && p[|p| - 1].end - p[|p| - 1].start == (if size % k == 0 then k else size % k)
  {
    PlanShape(size, k);
    var p := Plan(size, k);
    var n := |p|;
    var r := size - (n - 1) * k;
    if r == k {
      assert size == n * k by {
        StepProduct(n, k);
      }
      RemainderUnique(size, n, 0, k);
    } else {
      RemainderUnique(size, n - 1, r, k);
    }
  }

  /** `a % k` is the `r` of any split `a == q*k + r` with `0 <= r < k`. */
  lemma RemainderUnique(a: int, q: int, r: int, k: int)
    requires k > 0 && a == q * k + r && 0 <= r < k
    ensures a % k == r
  {
    var q2 := a / k;
    assert a == q2 * k + a % k;
    assert (q - q2) * k == a % k - r by {
      assert (q - q2) * k == q * k - q2 * k;
    }
    assert -k < (q - q2) * k < k;
    assert q - q2 == 0 by {
      MulBelowOne(q - q2, k);
    }
  }

  /** A multiple of `k` strictly between `-k` and `k` is zero. */
  lemma MulBelowOne(m: int, k: int)
    requires k > 0 && -k < m * k < k
    ensures m == 0
  {
    if m >= 1 {
      MulMonotone(1, m, k);
    } else if m <= -1 {
      MulMonotone(m, -1, k);
    }
  }

  /** An example: a 2500-byte file in 1000-byte slices goes as slices 1, 2 and 3 with ranges
      `[0,1000)`, `[1000,2000)` and `[2000,2500)`. */
  lemma ExampleThreeSlices()
    ensures Plan(2500, 1000) == [Range(0, 1000), Range(1000, 2000), Range(2000, 2500)]
  {
    assert PlanFrom(2500, 1000, 3000) == [];
    assert PlanFrom(2500, 1000, 2000) == [Range(2000, 2500)];
    assert PlanFrom(2500, 1000, 1000) == [Range(1000, 2000), Range(2000, 2500)];
  }
}
