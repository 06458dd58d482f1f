/** `TopResults` of src/utils.h: for every batch row of an output tensor, the
    indices of its `n` largest values, largest first. Element values are
    modelled as reals (the source instantiates it for every numeric element
    type; only their order matters). */
module TopK {
  import opened Wrappers

  /** Number of elements of a tensor of the given shape. */
  function Product(shape: seq<nat>): nat
  {
    if |shape| == 0 then 1 else shape[0] * Product(shape[1..])
  }

  function Min(a: nat, b: nat): nat { if a <= b then a else b }

  /** Indices into `row`, ordered by non-increasing value. */
  predicate SortedByValue(row: seq<real>, idx: seq<nat>)
  {
    && (forall i :: 0 <= i < |idx| ==> idx[i] < |row|)
    && (forall i, j :: 0 <= i < j < |idx| ==> row[idx[i]] >= row[idx[j]])
  }

  predicate Distinct(idx: seq<nat>)
  {
    forall i, j :: 0 <= i < j < |idx| ==> idx[i] != idx[j]
  }

  /** The contract `partial_sort` gives the first `n` positions: `n`
      distinct indices of the row, values non-increasing, and none smaller
      than the value of an index left out. Ties may be broken either way. */
  predicate IsTopSelection(row: seq<real>, sel: seq<nat>, n: nat)
  {
    && |sel| == n
    && SortedByValue(row, sel)
    && Distinct(sel)
    && Dominates(row, sel)
  }

  /** No index of the row left out of `sel` has a larger value than one in it. */
  predicate Dominates(row: seq<real>, sel: seq<nat>)
    requires forall i :: 0 <= i < |sel| ==> sel[i] < |row|
  {
    forall k, j :: 0 <= k < |row| && k !in sel && 0 <= j < |sel| ==> row[sel[j]] >= row[k]
  }

  /** `k` placed into an index list, after every leading index whose value
      is at least as large. */
  function Insert(row: seq<real>, sorted: seq<nat>, k: nat): (r: seq<nat>)
    requires k < |row|
    requires forall i :: 0 <= i < |sorted| ==> sorted[i] < |row|
    ensures |r| == |sorted| + 1
    ensures multiset(r) == multiset(sorted) + multiset{k}
  {
    if |sorted| == 0 then [k]
    else if row[sorted[0]] >= row[k] then
      assert sorted == [sorted[0]] + sorted[1..];
      [sorted[0]] + Insert(row, sorted[1..], k)
    else
      [k] + sorted
  }

  /** Whatever `Insert` yields was in the list or is `k`. */
  lemma {:induction false} InsertMember(row: seq<real>, sorted: seq<nat>, k: nat, j: nat)
    requires k < |row|
    requires forall i :: 0 <= i < |sorted| ==> sorted[i] < |row|
    requires j < |sorted| + 1
    ensures Insert(row, sorted, k)[j] == k || Insert(row, sorted, k)[j] in sorted
  {
    var r := Insert(row, sorted, k);
    assert r[j] in multiset(r);
  }

  lemma {:induction false} InsertSorted(row: seq<real>, sorted: seq<nat>, k: nat)
    requires k < |row| && SortedByValue(row, sorted)
    ensures SortedByValue(row, Insert(row, sorted, k))
    decreases |sorted|
  {
    var r := Insert(row, sorted, k);
    forall j | 0 <= j < |r|
      ensures r[j] < |row|
    {
      InsertMember(row, sorted, k, j);
    }
    if |sorted| > 0 {
      var top := sorted[0];
      if row[top] >= row[k] {
        var tail := sorted[1..];
        var rest := Insert(row, tail, k);
        InsertSorted(row, tail, k);
        assert r == [top] + rest;
        forall j | 0 <= j < |rest|
          ensures row[top] >= row[rest[j]]
        {
          InsertMember(row, tail, k, j);
          if rest[j] != k {
            var q :| 0 <= q < |tail| && tail[q] == rest[j];
            assert tail[q] == sorted[q + 1];
          }
        }
        forall i, j | 0 <= i < j < |r|
          ensures row[r[i]] >= row[r[j]]
        {
          if i > 0 {
            assert r[i] == rest[i - 1] && r[j] == rest[j - 1];
          } else {
            assert r[j] == rest[j - 1];
          }
        }
      } else {
        assert r == [k] + sorted;
        forall i, j | 0 <= i < j < |r|
          ensures row[r[i]] >= row[r[j]]
        {
          if i > 0 {
            assert r[i] == sorted[i - 1] && r[j] == sorted[j - 1];
          } else {
            assert r[j] == sorted[j - 1];
          }
        }
      }
    }
  }

  function Range(n: nat): (r: seq<nat>)
    ensures |r| == n && forall i :: 0 <= i < n ==> r[i] == i
  {
    seq(n, i => i)
  }

  /** The indices 0 .. n-1 of `row`, sorted by value: a stable insertion
      sort standing in for `std::partial_sort` over `std::iota` indices. */
  function SortIndices(row: seq<real>, n: nat): (r: seq<nat>)
    requires n <= |row|
    ensures |r| == n
    ensures multiset(r) == multiset(Range(n))
    ensures forall i :: 0 <= i < |r| ==> r[i] < n
  {
    if n == 0 then []
    else
      assert Range(n) == Range(n - 1) + [n - 1];
      var r := Insert(row, SortIndices(row, n - 1), n - 1);
      assert forall i :: 0 <= i < |r| ==> r[i] in multiset(Range(n));
      r
  }

  lemma {:induction false} SortIndicesSorted(row: seq<real>, n: nat)
    requires n <= |row|
    ensures SortedByValue(row, SortIndices(row, n))
  {
    if n > 0 {
      var prev := SortIndices(row, n - 1);
      SortIndicesSorted(row, n - 1);
      InsertSorted(row, prev, n - 1);
      assert SortIndices(row, n) == Insert(row, prev, n - 1);
    }
  }

  lemma {:induction false} RangeCounts(n: nat, x: nat)
    ensures multiset(Range(n))[x] == if x < n then 1 else 0
  {
    if n > 0 {
      assert Range(n) == Range(n - 1) + [n - 1];
      RangeCounts(n - 1, x);
    }
  }

  /** A list in which nothing occurs twice has no repeated position. */
  lemma {:induction false} CountsDistinct(s: seq<nat>)
    requires forall x :: multiset(s)[x] <= 1
    ensures Distinct(s)
  {
    forall i, j | 0 <= i < j < |s|
      ensures s[i] != s[j]
    {
      var pre := s[..j];
      assert s == pre + [s[j]] + s[j + 1..];
      assert multiset(s)[s[j]] == multiset(pre)[s[j]] + 1 + multiset(s[j + 1..])[s[j]];
      assert pre[i] == s[i];
      assert multiset(pre)[s[i]] >= 1;
    }
  }

  /** Every index of the row occurs in its sorted index list exactly once. */
  lemma {:induction false} SortedIndicesOnce(row: seq<real>, x: nat)
    ensures multiset(SortIndices(row, |row|))[x] == if x < |row| then 1 else 0
  {
    RangeCounts(|row|, x);
  }

  /** A prefix repeats nothing that the whole list does not. */
  lemma {:induction false} PrefixCounts(s: seq<nat>, n: nat, x: nat)
    requires n <= |s|
    ensures multiset(s[..n])[x] <= multiset(s)[x]
  {
    assert s == s[..n] + s[n..];
  }

  /** An index of the row that is not among the first `n` sorted ones
      comes later in the sorted list. */
  lemma {:induction false} LaterInSorted(row: seq<real>, n: nat, k: nat) returns (p: nat)
    requires n <= |row| && k < |row| && k !in SortIndices(row, |row|)[..n]
    ensures n <= p < |row| && SortIndices(row, |row|)[p] == k
  {
    var sorted := SortIndices(row, |row|);
    SortedIndicesOnce(row, k);
    assert k in multiset(sorted);
    p :| 0 <= p < |sorted| && sorted[p] == k;
  }

  /** The top `n` indices of one row. */
  function TopOfRow(row: seq<real>, n: nat): (sel: seq<nat>)
    requires n <= |row|
    ensures IsTopSelection(row, sel, n)
  {
    var sorted := SortIndices(row, |row|);
    SortIndicesSorted(row, |row|);
    var sel := sorted[..n];
    PrefixSorted(row, sorted, n);
    PrefixDistinct(row, n);
    PrefixDominates(row, n);
    sel
  }

  lemma {:induction false} PrefixSorted(row: seq<real>, idx: seq<nat>, n: nat)
    requires SortedByValue(row, idx) && n <= |idx|
    ensures SortedByValue(row, idx[..n])
  {
    forall i, j | 0 <= i < j < n
      ensures row[idx[..n][i]] >= row[idx[..n][j]]
    {
      assert idx[..n][i] == idx[i] && idx[..n][j] == idx[j];
    }
  }

  /** The first `n` sorted indices are distinct. */
  lemma {:induction false} PrefixDistinct(row: seq<real>, n: nat)
    requires n <= |row|
    ensures Distinct(SortIndices(row, |row|)[..n])
  {
    var sorted := SortIndices(row, |row|);
    forall x ensures multiset(sorted[..n])[x] <= 1 {
      SortedIndicesOnce(row, x);
      PrefixCounts(sorted, n, x);
    }
    CountsDistinct(sorted[..n]);
  }

  /** No index left out of the first `n` sorted ones has a larger value
      than one kept. */
  lemma {:induction false} PrefixDominates(row: seq<real>, n: nat)
    requires n <= |row|
    ensures SortedByValue(row, SortIndices(row, |row|)[..n])
    ensures Dominates(row, SortIndices(row, |row|)[..n])
  {
    var sorted := SortIndices(row, |row|);
    SortIndicesSorted(row, |row|);
    var sel := sorted[..n];
    PrefixSorted(row, sorted, n);
    forall k, j | 0 <= k < |row| && k !in sel && 0 <= j < |sel|
      ensures row[sel[j]] >= row[k]
    {
      var p := LaterInSorted(row, n, k);
      assert sel[j] == sorted[j];
    }
  }

  /** `s` cut into `count` consecutive pieces of `size` elements. */
  function Chunks<T>(s: seq<T>, size: nat, count: nat): (cs: seq<seq<T>>)
    requires |s| == count * size
    ensures |cs| == count
    ensures forall i :: 0 <= i < count ==> |cs[i]| == size
  {
    if count == 0 then []
    else
      PeelFactor(count, size);
      [s[..size]] + Chunks(s[size..], size, count - 1)
  }

  lemma {:induction false} PeelFactor(count: nat, size: nat)
    requires count > 0
    ensures count * size == size + (count - 1) * size
  {
  }

  /** Chunk i is the slice [i * size, (i + 1) * size). */
  lemma {:induction false} ChunkAt<T>(s: seq<T>, size: nat, count: nat, i: nat)
    requires |s| == count * size && i < count
    ensures (i + 1) * size <= |s| && Chunks(s, size, count)[i] == s[i * size .. (i + 1) * size]
  {
    if i > 0 {
      PeelFactor(count, size);
      ChunkAt(s[size..], size, count - 1, i - 1);
      PeelFactor(i, size);
      PeelFactor(i + 1, size);
    }
  }

  /** One more piece at the end is one more chunk at the end. */
  lemma {:induction false} ChunksSnoc<T>(s: seq<T>, t: seq<T>, size: nat, count: nat)
    requires |s| == count * size && |t| == size
    ensures |s + t| == (count + 1) * size
    ensures Chunks(s + t, size, count + 1) == Chunks(s, size, count) + [t]
  {
    if count > 0 {
      assert (s + t)[..size] == s[..size];
      assert (s + t)[size..] == s[size..] + t;
      ChunksSnoc(s[size..], t, size, count - 1);
    } else {
      assert s + t == t && t[..size] == t;
    }
  }

  /** The selections of the `b` rows of `data`, one after the other. */
  function TopRows(data: seq<real>, len: nat, m: nat, b: nat): (out: seq<nat>)
    requires |data| == b * len && m <= len
    ensures |out| == b * m
    ensures forall i :: 0 <= i < b ==> IsTopSelection(Chunks(data, len, b)[i], Chunks(out, m, b)[i], m)
  {
    if b == 0 then []
    else
      ChunksCons(data, len, b, 0);
      var head := TopOfRow(data[..len], m);
      var rest := TopRows(data[len..], len, m, b - 1);
      var out := head + rest;
      assert out[..m] == head && out[m..] == rest;
      assert forall i :: 0 <= i < b ==> IsTopSelection(Chunks(data, len, b)[i], Chunks(out, m, b)[i], m) by {
        forall i | 0 <= i < b
          ensures IsTopSelection(Chunks(data, len, b)[i], Chunks(out, m, b)[i], m)
        {
          ChunksCons(data, len, b, i);
          ChunksCons(out, m, b, i);
        }
      }
      out
  }

  /** The first chunk is the first piece; the others are the chunks of the rest. */
  lemma {:induction false} ChunksCons<T>(s: seq<T>, size: nat, count: nat, i: nat)
    requires |s| == count * size && i < count
    ensures size <= |s| && |s[size..]| == (count - 1) * size
    ensures Chunks(s, size, count)[i] == if i == 0 then s[..size] else Chunks(s[size..], size, count - 1)[i - 1]
  {
    PeelFactor(count, size);
  }

  /** `TopResults(n, input, output)`: asserts a non-empty shape with a
      non-zero batch; caps `n` at the tensor's total size; then selects the
      top `n` of every row. A row holds `size / batch` elements, which is
      exactly the product of the remaining dimensions. Asking for more than
      a row holds makes `partial_sort` run past the row, which the source
      does not check. */
  function TopResults(n: nat, shape: seq<nat>, data: seq<real>): (r: Result<seq<nat>>)
    requires |data| == Product(shape)
    ensures r == Err(AssertionFailed) <==> |shape| == 0 || shape[0] == 0
    ensures |shape| > 0 && shape[0] > 0 ==>
      var len := Product(shape[1..]);
      var m := Min(n, |data|);
      && (r == Err(Unchecked) <==> m > len)
      && (r.Ok? ==>
        && |r.value| == shape[0] * m
        && forall i :: 0 <= i < shape[0] ==>
          IsTopSelection(Chunks(data, len, shape[0])[i], Chunks(r.value, m, shape[0])[i], m))
  {
    if |shape| == 0 || shape[0] == 0 then Err(AssertionFailed)
    else
      var len := Product(shape[1..]);
      var m := Min(n, |data|);
      if m > len then Err(Unchecked)
      else Ok(TopRows(data, len, m, shape[0]))
  }

  /** Element j of chunk i is element i * size + j of the whole. */
  lemma {:induction false} ChunkElem<T>(s: seq<T>, size: nat, count: nat, i: nat, j: nat)
    requires |s| == count * size && i < count && j < size
    ensures i * size + j < |s| && Chunks(s, size, count)[i][j] == s[i * size + j]
  {
    ChunkAt(s, size, count, i);
    assert (i + 1) * size == i * size + size;
  }

  /** Asking for the top 1 of a tensor with non-empty rows never fails. */
  lemma {:induction false} TopOneSucceeds(shape: seq<nat>, data: seq<real>)
    requires |data| == Product(shape) && |shape| > 0 && shape[0] > 0 && Product(shape[1..]) > 0
    ensures TopResults(1, shape, data) == Ok(TopRows(data, Product(shape[1..]), 1, shape[0]))
  {
    var len := Product(shape[1..]);
    var b := shape[0];
    assert |data| == b * len;
    assert b * len == len + (b - 1) * len;
  }

  /** The post-processors ask for the top 1, which never exceeds a row: the
      result is one index per row, that of a largest element. */
  lemma {:induction false} TopOneIsArgMax(shape: seq<nat>, data: seq<real>, i: nat, k: nat)
    requires |data| == Product(shape) && |shape| > 0 && 0 <= i < shape[0]
    requires k < Product(shape[1..])
    ensures var r := TopResults(1, shape, data);
      var len := Product(shape[1..]);
      var row := Chunks(data, len, shape[0])[i];
      && r.Ok? && |r.value| == shape[0]
      && r.value[i] < len
      && row[r.value[i]] >= row[k]
  {
    TopOneSucceeds(shape, data);
    TopRowsArgMax(data, Product(shape[1..]), shape[0], i, k);
  }

  /** Entry `i` of the top-1 selections of `b` rows is the position of a
      largest element of row `i`. */
  lemma {:induction false} TopRowsArgMax(data: seq<real>, len: nat, b: nat, i: nat, k: nat)
    requires |data| == b * len && i < b && k < len
    ensures var out := TopRows(data, len, 1, b);
      var row := Chunks(data, len, b)[i];
      && |out| == b && out[i] < len
      && row[out[i]] >= row[k]
  {
    var out := TopRows(data, len, 1, b);
    var row := Chunks(data, len, b)[i];
    var sel := Chunks(out, 1, b)[i];
    TopOfOne(row, sel, k);
    ChunkElem(out, 1, b, i, 0);
  }

  /** The one index a top-1 selection holds is that of a largest value. */
  lemma {:induction false} TopOfOne(row: seq<real>, sel: seq<nat>, k: nat)
    requires IsTopSelection(row, sel, 1) && k < |row|
    ensures sel[0] < |row| && row[sel[0]] >= row[k]
  {
    if k != sel[0] {
      assert k !in sel;
    }
  }
}
