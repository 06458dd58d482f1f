/** The per-request result buffers and the LoadGen responses made from them
    (src/infer_request_wrap.h). A response is a window into a result vector:
    the model keeps the vector's owner, the offset in floats and the size in
    bytes, where the program keeps a raw address. */
module Responses {

  /** A request's `response_ids_`, `counts_` and `results_`: count i says how
      many floats of `results` belong to response id i. */
  datatype Buffers = Buffers(responseIds: seq<nat>, counts: seq<nat>, results: seq<real>)

  const NoBuffers := Buffers([], [], [])

  /** Everything `extra` adds, appended after what `b` holds. */
  function Append(b: Buffers, extra: Buffers): (r: Buffers)
    ensures |r.responseIds| == |b.responseIds| + |extra.responseIds|
    ensures |r.counts| == |b.counts| + |extra.counts|
    ensures |r.results| == |b.results| + |extra.results|
    ensures r.responseIds[..|b.responseIds|] == b.responseIds && r.responseIds[|b.responseIds|..] == extra.responseIds
    ensures r.counts[..|b.counts|] == b.counts && r.counts[|b.counts|..] == extra.counts
    ensures r.results[..|b.results|] == b.results && r.results[|b.results|..] == extra.results
  {
    Buffers(b.responseIds + extra.responseIds, b.counts + extra.counts, b.results + extra.results)
  }

  function Sum(xs: seq<nat>): nat
  {
    if |xs| == 0 then 0 else Sum(xs[..|xs| - 1]) + xs[|xs| - 1]
  }

  lemma {:induction false} SumAppend(xs: seq<nat>, ys: seq<nat>)
    ensures Sum(xs + ys) == Sum(xs) + Sum(ys)
    decreases |ys|
  {
    if |ys| > 0 {
      assert (xs + ys)[..|xs + ys| - 1] == xs + ys[..|ys| - 1];
      SumAppend(xs, ys[..|ys| - 1]);
    } else {
      assert xs + ys == xs;
    }
  }

  /** One id per count, and the counts cover no more than the results. */
  predicate WellFormed(b: Buffers)
  {
    |b.responseIds| == |b.counts| && Sum(b.counts) <= |b.results|
  }

  lemma {:induction false} AppendWellFormed(b: Buffers, extra: Buffers)
    requires WellFormed(b) && WellFormed(extra)
    ensures WellFormed(Append(b, extra))
  {
    SumAppend(b.counts, extra.counts);
  }

  /** Whose result vector a response points into. */
  datatype Owner = Request(id: nat) | Local

  /** `mlperf::QuerySampleResponse`: id, start (as an offset into the
      owner's results) and size in bytes. */
  datatype Response = Response(id: nat, owner: Owner, offset: nat, size: nat)

  /** `sizeof(float)`. */
  const FloatBytes: nat := 4

  /** The loop that turns buffers into responses, from position `i` on with
      the running offset `idx`. */
  function WindowsFrom(b: Buffers, owner: Owner, i: nat, idx: nat): seq<Response>
    requires |b.responseIds| == |b.counts|
    decreases |b.counts| - i
  {
    if i >= |b.counts| then []
    else [Response(b.responseIds[i], owner, idx, FloatBytes * b.counts[i])] + WindowsFrom(b, owner, i + 1, idx + b.counts[i])
  }

  /** One response per count, in order: response i carries id i, starts at
      the sum of the earlier counts and is 4 * count i bytes long. */
  function Windows(b: Buffers, owner: Owner): (rs: seq<Response>)
    requires |b.responseIds| == |b.counts|
    ensures |rs| == |b.counts|
    ensures forall i :: 0 <= i < |rs| ==>
      rs[i] == Response(b.responseIds[i], owner, Sum(b.counts[..i]), FloatBytes * b.counts[i])
  {
    assert b.counts[..0] == [];
    WindowsFromLength(b, owner, 0, 0);
    assert forall k :: 0 <= k < |b.counts| ==>
      WindowsFrom(b, owner, 0, 0)[k] == Response(b.responseIds[k], owner, Sum(b.counts[..k]), FloatBytes * b.counts[k])
    by {
      forall k | 0 <= k < |b.counts|
        ensures WindowsFrom(b, owner, 0, 0)[k] == Response(b.responseIds[k], owner, Sum(b.counts[..k]), FloatBytes * b.counts[k])
      {
        WindowsFromPrefixSums(b, owner, 0, k);
      }
    }
    WindowsFrom(b, owner, 0, 0)
  }

  lemma {:induction false} WindowsFromLength(b: Buffers, owner: Owner, i: nat, idx: nat)
    requires |b.responseIds| == |b.counts| && i <= |b.counts|
    ensures |WindowsFrom(b, owner, i, idx)| == |b.counts| - i
    decreases |b.counts| - i
  {
    if i < |b.counts| {
      WindowsFromLength(b, owner, i + 1, idx + b.counts[i]);
    }
  }

  /** Started at position `i` with the sum of the earlier counts, the loop
      gives response `k` the sum of the counts before `k` as its start. */
  lemma {:induction false} WindowsFromPrefixSums(b: Buffers, owner: Owner, i: nat, k: nat)
    requires |b.responseIds| == |b.counts| && i <= k < |b.counts|
    ensures |WindowsFrom(b, owner, i, Sum(b.counts[..i]))| == |b.counts| - i
    ensures WindowsFrom(b, owner, i, Sum(b.counts[..i]))[k - i]
      == Response(b.responseIds[k], owner, Sum(b.counts[..k]), FloatBytes * b.counts[k])
    decreases k - i
  {
    WindowsFromLength(b, owner, i, Sum(b.counts[..i]));
    if i < k {
      SumPrefixStep(b.counts, i);
      WindowsFromPrefixSums(b, owner, i + 1, k);
    }
  }

  lemma {:induction false} SumPrefixStep(xs: seq<nat>, i: nat)
    requires i < |xs|
    ensures Sum(xs[..i + 1]) == Sum(xs[..i]) + xs[i]
  {
    assert xs[..i + 1][..i] == xs[..i];
  }

  lemma {:induction false} SumPrefixBound(xs: seq<nat>, i: nat)
    requires i <= |xs|
    ensures Sum(xs[..i]) <= Sum(xs)
    decreases |xs| - i
  {
    if i < |xs| {
      SumPrefixStep(xs, i);
      SumPrefixBound(xs, i + 1);
    } else {
      assert xs[..i] == xs;
    }
  }

  /** The windows of well-formed buffers tile a prefix of the results:
      the first starts at 0, each starts where the previous one ends, and
      all lie inside the results. */
  lemma {:induction false} WindowsTile(b: Buffers, owner: Owner)
    requires WellFormed(b)
    ensures var rs := Windows(b, owner);
      && (|rs| > 0 ==> rs[0].offset == 0)
      && (forall i :: 0 < i < |rs| ==> rs[i].offset == rs[i - 1].offset + b.counts[i - 1])
      && (forall i :: 0 <= i < |rs| ==> rs[i].offset + b.counts[i] <= |b.results|)
  {
    var rs := Windows(b, owner);
    if |rs| > 0 {
      assert rs[0].offset == Sum(b.counts[..0]);
      assert b.counts[..0] == [];
    }
    forall i | 0 < i < |rs|
      ensures rs[i].offset == rs[i - 1].offset + b.counts[i - 1]
    {
      WindowStep(b, owner, i);
    }
    forall i | 0 <= i < |rs|
      ensures rs[i].offset + b.counts[i] <= |b.results|
    {
      WindowInside(b, owner, i);
    }
  }

  lemma {:induction false} WindowStep(b: Buffers, owner: Owner, i: nat)
    requires |b.responseIds| == |b.counts| && 0 < i < |b.counts|
    ensures Windows(b, owner)[i].offset == Windows(b, owner)[i - 1].offset + b.counts[i - 1]
  {
    var rs := Windows(b, owner);
    assert rs[i].offset == Sum(b.counts[..i]);
    assert rs[i - 1].offset == Sum(b.counts[..i - 1]);
    SumPrefixStep(b.counts, i - 1);
  }

  lemma {:induction false} WindowInside(b: Buffers, owner: Owner, i: nat)
    requires WellFormed(b) && i < |b.counts|
    ensures Windows(b, owner)[i].offset + b.counts[i] <= |b.results|
  {
    var rs := Windows(b, owner);
    assert rs[i].offset == Sum(b.counts[..i]);
    SumPrefixStep(b.counts, i);
    SumPrefixBound(b.counts, i + 1);
  }

  /** A window that starts at the very end of the results, where the
      program forms the response's address as `&results[idx]` with `idx`
      equal to the size. For well-formed buffers that happens exactly when
      the counts cover all the results and this and every later count is 0. */
  lemma {:induction false} WindowAtEnd(b: Buffers, owner: Owner, i: nat)
    requires WellFormed(b) && i < |b.counts|
    ensures Windows(b, owner)[i].offset == |b.results|
      <==> Sum(b.counts) == |b.results| && forall j :: i <= j < |b.counts| ==> b.counts[j] == 0
  {
    var head, tail := b.counts[..i], b.counts[i..];
    assert Windows(b, owner)[i].offset == Sum(head);
    assert b.counts == head + tail;
    SumAppend(head, tail);
    SumZero(tail);
    SuffixZero(b.counts, i);
  }

  lemma {:induction false} SuffixZero(xs: seq<nat>, i: nat)
    requires i <= |xs|
    ensures (forall j :: 0 <= j < |xs[i..]| ==> xs[i..][j] == 0) <==> forall j :: i <= j < |xs| ==> xs[j] == 0
  {
    assert forall j :: i <= j < |xs| ==> xs[j] == xs[i..][j - i];
  }

  /** A sum is 0 exactly when every term is. */
  lemma {:induction false} SumZero(xs: seq<nat>)
    ensures Sum(xs) == 0 <==> forall j :: 0 <= j < |xs| ==> xs[j] == 0
    decreases |xs|
  {
    if |xs| > 0 {
      var front := xs[..|xs| - 1];
      SumZero(front);
      assert forall j :: 0 <= j < |front| ==> front[j] == xs[j];
    }
  }
}
