/** Byte shuffling of transferred frames: the four bytes of every 32-bit sample are regrouped into four
    contiguous planes; a remainder of fewer than four bytes stays at the end. */
module ByteShuffle {
  import opened Wrappers

  const ELEM := 4

  /** Length of the prefix made of whole samples. */
  function Whole(n: nat): (m: nat)
    ensures m <= n < m + ELEM
    ensures m == ELEM * (n / ELEM)
  {
    n - n % ELEM
  }

  // ---- the index map ----

  /** Start of plane `p` when there are `cnt` samples. */
  function PlaneStart(cnt: nat, p: nat): (start: nat)
    requires p < ELEM
    ensures start == p * cnt
  {
    if p == 0 then 0 else if p == 1 then cnt else if p == 2 then 2 * cnt else 3 * cnt
  }

  function PlaneOf(cnt: nat, k: nat): (p: nat)
    requires k < ELEM * cnt
    ensures p < ELEM && PlaneStart(cnt, p) <= k < PlaneStart(cnt, p) + cnt
  {
    if k < cnt then 0 else if k < 2 * cnt then 1 else if k < 3 * cnt then 2 else 3
  }

  /** Where sample byte `j` (byte j % 4 of sample j / 4) goes. */
  function ToPlane(cnt: nat, j: nat): (k: nat)
    requires j < ELEM * cnt
    ensures k < ELEM * cnt
  {
    PlaneStart(cnt, j % ELEM) + j / ELEM
  }

  /** Which sample byte sits at plane position `k`. */
  function FromPlane(cnt: nat, k: nat): (j: nat)
    requires k < ELEM * cnt
    ensures j < ELEM * cnt
  {
    var p := PlaneOf(cnt, k);
    ELEM * (k - PlaneStart(cnt, p)) + p
  }

  /** The index map p * cnt + i is a bijection of the whole-sample prefix. */
  lemma PlanesAreABijection(cnt: nat, j: nat)
    requires j < ELEM * cnt
    ensures FromPlane(cnt, ToPlane(cnt, j)) == j
    ensures ToPlane(cnt, FromPlane(cnt, j)) == j
    ensures ToPlane(cnt, j) == (j % ELEM) * cnt + j / ELEM
  {
    var p := PlaneOf(cnt, j);
    var s := FromPlane(cnt, j);
    assert s / ELEM == j - PlaneStart(cnt, p) && s % ELEM == p;
  }

  // ---- the transformation ----

  function Shuffled<T>(data: seq<T>): (r: seq<T>)
    ensures |r| == |data|
  {
    var m := Whole(|data|);
    seq(|data|, k requires 0 <= k < |data| => if k < m then data[FromPlane(m / ELEM, k)] else data[k])
  }

  function Unshuffled<T>(data: seq<T>): (r: seq<T>)
    ensures |r| == |data|
  {
    var m := Whole(|data|);
    seq(|data|, j requires 0 <= j < |data| => if j < m then data[ToPlane(m / ELEM, j)] else data[j])
  }

  /** Unshuffling undoes shuffling, for every length. */
  lemma UnshuffleUndoesShuffle<T>(data: seq<T>)
    ensures Unshuffled(Shuffled(data)) == data
  {
    var m := Whole(|data|);
    forall j | 0 <= j < |data| ensures Unshuffled(Shuffled(data))[j] == data[j] {
      if j < m {
        PlanesAreABijection(m / ELEM, j);
      }
    }
  }

  /** Shuffling undoes unshuffling, for every length. */
  lemma ShuffleUndoesUnshuffle<T>(data: seq<T>)
    ensures Shuffled(Unshuffled(data)) == data
  {
    var m := Whole(|data|);
    forall k | 0 <= k < |data| ensures Shuffled(Unshuffled(data))[k] == data[k] {
      if k < m {
        PlanesAreABijection(m / ELEM, k);
      }
    }
  }

  // ---- planes are contiguous, and no byte is lost ----

  /** Occurrences of `v` in s[lo..hi]. */
  ghost function Occ<T>(s: seq<T>, lo: nat, hi: nat, v: T): nat
    requires lo <= hi <= |s|
    decreases hi
  {
    if lo == hi then 0 else Occ(s, lo, hi - 1, v) + if s[hi - 1] == v then 1 else 0
  }

  lemma {:induction false} OccSplit<T>(s: seq<T>, lo: nat, mid: nat, hi: nat, v: T)
    requires lo <= mid <= hi <= |s|
    ensures Occ(s, lo, hi, v) == Occ(s, lo, mid, v) + Occ(s, mid, hi, v)
    decreases hi
  {
    if mid < hi {
      OccSplit(s, lo, mid, hi - 1, v);
    }
  }

  lemma {:induction false} OccSame<T>(a: seq<T>, b: seq<T>, lo: nat, hi: nat, v: T)
    requires lo <= hi <= |a| == |b| && forall k | lo <= k < hi :: a[k] == b[k]
    ensures Occ(a, lo, hi, v) == Occ(b, lo, hi, v)
    decreases hi
  {
    if lo < hi {
      OccSame(a, b, lo, hi - 1, v);
    }
  }

  lemma {:induction false} OccIsMultiplicity<T>(s: seq<T>, k: nat, v: T)
    requires k <= |s|
    ensures multiset(s[..k])[v] == Occ(s, 0, k, v)
  {
    if k > 0 {
      OccIsMultiplicity(s, k - 1, v);
      assert s[..k] == s[..k - 1] + [s[k - 1]];
    }
  }

  lemma FourMore<T>(s: seq<T>, b: nat, v: T)
    requires b + 4 <= |s|
    ensures Occ(s, 0, b + 4, v) == Occ(s, 0, b, v) + (if s[b] == v then 1 else 0) + (if s[b + 1] == v then 1 else 0) +
                                   (if s[b + 2] == v then 1 else 0) + (if s[b + 3] == v then 1 else 0)
  {
    assert Occ(s, 0, b + 2, v) == Occ(s, 0, b, v) + (if s[b] == v then 1 else 0) + (if s[b + 1] == v then 1 else 0);
  }

  /** The first `p` bytes of sample `i` are in their planes. */
  ghost predicate SampleSpread<T>(data: seq<T>, out: seq<T>, cnt: nat, i: nat, p: nat)
    requires |out| == |data| && i < cnt && ELEM * cnt <= |data|
  {
    && (p > 0 ==> out[i] == data[ELEM * i])
    && (p > 1 ==> out[cnt + i] == data[ELEM * i + 1])
    && (p > 2 ==> out[2 * cnt + i] == data[ELEM * i + 2])
    && (p > 3 ==> out[3 * cnt + i] == data[ELEM * i + 3])
  }

  /** Every sample before `i` has been spread over the planes. */
  ghost predicate Spread<T>(data: seq<T>, out: seq<T>, cnt: nat, i: nat)
    requires |out| == |data| && i <= cnt && ELEM * cnt <= |data|
  {
    forall x | 0 <= x < i :: SampleSpread(data, out, cnt, x, ELEM)
  }

  /** Shuffling puts byte p of every sample into plane p, in sample order. */
  lemma ShuffledIsSpread<T>(data: seq<T>)
    ensures Spread(data, Shuffled(data), |data| / ELEM, |data| / ELEM)
  {
    var s, cnt := Shuffled(data), |data| / ELEM;
    forall x | 0 <= x < cnt ensures SampleSpread(data, s, cnt, x, ELEM) {
      assert s[x] == data[FromPlane(cnt, x)];
      assert s[cnt + x] == data[FromPlane(cnt, cnt + x)];
      assert s[2 * cnt + x] == data[FromPlane(cnt, 2 * cnt + x)];
      assert s[3 * cnt + x] == data[FromPlane(cnt, 3 * cnt + x)];
    }
  }

  /** The first `i` entries of the four planes hold exactly the bytes of the first `i` samples. */
  lemma {:induction false} PlanesKeepBytes<T>(data: seq<T>, s: seq<T>, cnt: nat, i: nat, v: T)
    requires |s| == |data| && i <= cnt && ELEM * cnt <= |data| && Spread(data, s, cnt, cnt)
    ensures Occ(data, 0, ELEM * i, v) ==
            Occ(s, 0, i, v) + Occ(s, cnt, cnt + i, v) + Occ(s, 2 * cnt, 2 * cnt + i, v) + Occ(s, 3 * cnt, 3 * cnt + i, v)
  {
    if i > 0 {
      PlanesKeepBytes(data, s, cnt, i - 1, v);
      FourMore(data, ELEM * (i - 1), v);
      assert SampleSpread(data, s, cnt, i - 1, ELEM);
    }
  }

  lemma PlanesTogether<T>(s: seq<T>, cnt: nat, v: T)
    requires ELEM * cnt <= |s|
    ensures Occ(s, 0, ELEM * cnt, v) ==
            Occ(s, 0, cnt, v) + Occ(s, cnt, cnt + cnt, v) + Occ(s, 2 * cnt, 2 * cnt + cnt, v) + Occ(s, 3 * cnt, 3 * cnt + cnt, v)
  {
    OccSplit(s, 0, cnt, 4 * cnt, v);
    OccSplit(s, cnt, 2 * cnt, 4 * cnt, v);
    OccSplit(s, 2 * cnt, 3 * cnt, 4 * cnt, v);
  }

  lemma TailStays<T>(data: seq<T>)
    ensures forall k | Whole(|data|) <= k < |data| :: Shuffled(data)[k] == data[k]
  {
  }

  lemma OccKept<T>(data: seq<T>, v: T)
    ensures Occ(Shuffled(data), 0, |data|, v) == Occ(data, 0, |data|, v)
  {
    var cnt := |data| / ELEM;
    var m := ELEM * cnt;
    ShuffledIsSpread(data);
    TailStays(data);
    var s := Shuffled(data);
    PlanesKeepBytes(data, s, cnt, cnt, v);
    PlanesTogether(s, cnt, v);
    OccSame(s, data, m, |data|, v);
    OccSplit(s, 0, m, |data|, v);
    OccSplit(data, 0, m, |data|, v);
  }

  /** Shuffling only moves bytes, and leaves the last n mod 4 of them in place. */
  lemma ShuffleKeepsBytes<T>(data: seq<T>)
    ensures multiset(Shuffled(data)) == multiset(data)
    ensures Shuffled(data)[Whole(|data|)..] == data[Whole(|data|)..]
  {
    var s := Shuffled(data);
    assert s[..|s|] == s && data[..|data|] == data;
    forall v ensures multiset(s)[v] == multiset(data)[v] {
      OccKept(data, v);
      OccIsMultiplicity(s, |s|, v);
      OccIsMultiplicity(data, |data|, v);
    }
  }

  // ---- the loops ----

  lemma SpreadAll<T>(data: seq<T>, out: seq<T>)
    requires |out| == |data|
    requires var m := Whole(|data|); Spread(data, out, m / ELEM, m / ELEM) && out[m..] == data[m..]
    ensures out == Shuffled(data)
  {
    var m := Whole(|data|);
    var cnt := m / ELEM;
    forall k | 0 <= k < |data| ensures out[k] == Shuffled(data)[k] {
      if k < m {
        assert SampleSpread(data, out, cnt, k - PlaneStart(cnt, PlaneOf(cnt, k)), ELEM);
      } else {
        assert out[k] == out[m..][k - m];
      }
    }
  }

  lemma SpreadKept<T>(data: seq<T>, before: seq<T>, out: seq<T>, cnt: nat)
    requires |before| == |out| == |data| && ELEM * cnt <= |data|
    requires Spread(data, before, cnt, cnt) && before[..ELEM * cnt] == out[..ELEM * cnt]
    ensures Spread(data, out, cnt, cnt)
  {
    assert forall k | 0 <= k < ELEM * cnt :: out[k] == before[..ELEM * cnt][k] == before[k];
    forall x | 0 <= x < cnt ensures SampleSpread(data, out, cnt, x, ELEM) {
      assert SampleSpread(data, before, cnt, x, ELEM);
    }
  }

  lemma SpreadStep<T>(data: seq<T>, out: seq<T>, cnt: nat, i: nat, p: nat)
    requires |out| == |data| && i < cnt && ELEM * cnt <= |data| && p < ELEM
    requires Spread(data, out, cnt, i) && SampleSpread(data, out, cnt, i, p)
    ensures p * cnt + i == PlaneStart(cnt, p) + i < |data|
    ensures var now := out[PlaneStart(cnt, p) + i := data[ELEM * i + p]];
            Spread(data, now, cnt, i) && SampleSpread(data, now, cnt, i, p + 1)
  {
    var now := out[PlaneStart(cnt, p) + i := data[ELEM * i + p]];
    forall x | 0 <= x < i ensures SampleSpread(data, now, cnt, x, ELEM) {
      assert SampleSpread(data, out, cnt, x, ELEM);
    }
  }

  /** The inner loop over the four bytes of sample `i`. */
  method SpreadSample(data: array<bv8>, out: array<bv8>, cnt: nat, i: nat)
    requires data != out && out.Length == data.Length && i < cnt && ELEM * cnt <= data.Length
    requires Spread(data[..], out[..], cnt, i)
    modifies out
    ensures Spread(data[..], out[..], cnt, i + 1)
  {
    var base := i * ELEM;
    for p := 0 to ELEM
      invariant Spread(data[..], out[..], cnt, i) && SampleSpread(data[..], out[..], cnt, i, p)
    {
      SpreadStep(data[..], out[..], cnt, i, p);
      ghost var now := out[..][p * cnt + i := data[base + p]];
      out[p * cnt + i] := data[base + p];
      assert out[..] == now;
    }
  }

  /** The deinterleaving loop. Data shorter than one sample is returned as it is. */
  method ShuffleBytes(data: array<bv8>) returns (out: array<bv8>)
    ensures out[..] == Shuffled(data[..])
    ensures data.Length < ELEM ==> out == data
    ensures data.Length >= ELEM ==> fresh(out)
  {
    var n := data.Length;
    var m := n - n % ELEM;
    if m == 0 {
      assert Shuffled(data[..]) == data[..];
      return data;
    }
    out := new bv8[n];
    var cnt := m / ELEM;
    for i := 0 to cnt
      invariant Spread(data[..], out[..], cnt, i)
    {
      SpreadSample(data, out, cnt, i);
    }
    ghost var before := out[..];
    CopyTail(data, out, m);
    SpreadKept(data[..], before, out[..], cnt);
    SpreadAll(data[..], out[..]);
  }

  /** Copies the bytes from `m` on, leaving the earlier ones alone. */
  method CopyTail(data: array<bv8>, out: array<bv8>, m: nat)
    requires data != out && out.Length == data.Length && m <= data.Length
    modifies out
    ensures out[..m] == old(out[..m]) && out[m..] == data[m..]
  {
    for k := m to data.Length
      invariant out[..m] == old(out[..m]) && out[m..k] == data[m..k]
    {
      out[k] := data[k];
    }
  }

  /** The first `p` bytes of sample `i` are back in place. */
  ghost predicate SampleGathered<T>(data: seq<T>, out: seq<T>, cnt: nat, i: nat, p: nat)
    requires |out| == |data| && i < cnt && ELEM * cnt <= |data|
  {
    && (p > 0 ==> out[ELEM * i] == data[i])
    && (p > 1 ==> out[ELEM * i + 1] == data[cnt + i])
    && (p > 2 ==> out[ELEM * i + 2] == data[2 * cnt + i])
    && (p > 3 ==> out[ELEM * i + 3] == data[3 * cnt + i])
  }

  /** Every sample before `i` has been gathered from the planes. */
  ghost predicate Gathered<T>(data: seq<T>, out: seq<T>, cnt: nat, i: nat)
    requires |out| == |data| && i <= cnt && ELEM * cnt <= |data|
  {
    forall x | 0 <= x < i :: SampleGathered(data, out, cnt, x, ELEM)
  }

  lemma ByteGathered<T>(data: seq<T>, out: seq<T>, cnt: nat, x: nat, p: nat)
    requires |out| == |data| && ELEM * cnt <= |data| && x < cnt && p < ELEM
    requires Gathered(data, out, cnt, cnt)
    ensures ELEM * x + p < |out| && PlaneStart(cnt, p) + x < |data|
    ensures out[ELEM * x + p] == data[PlaneStart(cnt, p) + x]
  {
    assert SampleGathered(data, out, cnt, x, ELEM);
  }

  lemma GatheredAll<T>(data: seq<T>, out: seq<T>)
    requires |out| == |data|
    requires var m := Whole(|data|); Gathered(data, out, m / ELEM, m / ELEM) && out[m..] == data[m..]
    ensures out == Unshuffled(data)
  {
    var m := Whole(|data|);
    forall j | 0 <= j < |data| ensures out[j] == Unshuffled(data)[j] {
      if j < m {
        ByteGathered(data, out, m / ELEM, j / ELEM, j % ELEM);
      } else {
        assert out[j] == out[m..][j - m];
      }
    }
  }

  lemma GatheredKept<T>(data: seq<T>, before: seq<T>, out: seq<T>, cnt: nat)
    requires |before| == |out| == |data| && ELEM * cnt <= |data|
    requires Gathered(data, before, cnt, cnt) && before[..ELEM * cnt] == out[..ELEM * cnt]
    ensures Gathered(data, out, cnt, cnt)
  {
    assert forall k | 0 <= k < ELEM * cnt :: out[k] == before[..ELEM * cnt][k] == before[k];
    forall x | 0 <= x < cnt ensures SampleGathered(data, out, cnt, x, ELEM) {
      assert SampleGathered(data, before, cnt, x, ELEM);
    }
  }

  lemma GatherStep<T>(data: seq<T>, out: seq<T>, cnt: nat, i: nat, p: nat)
    requires |out| == |data| && i < cnt && ELEM * cnt <= |data| && p < ELEM
    requires Gathered(data, out, cnt, i) && SampleGathered(data, out, cnt, i, p)
    ensures p * cnt + i == PlaneStart(cnt, p) + i < |data|
    ensures var now := out[ELEM * i + p := data[PlaneStart(cnt, p) + i]];
            Gathered(data, now, cnt, i) && SampleGathered(data, now, cnt, i, p + 1)
  {
    var now := out[ELEM * i + p := data[PlaneStart(cnt, p) + i]];
    forall x | 0 <= x < i ensures SampleGathered(data, now, cnt, x, ELEM) {
      assert SampleGathered(data, out, cnt, x, ELEM);
    }
  }

  method GatherSample(data: array<bv8>, out: array<bv8>, cnt: nat, i: nat)
    requires data != out && out.Length == data.Length && i < cnt && ELEM * cnt <= data.Length
    requires Gathered(data[..], out[..], cnt, i)
    modifies out
    ensures Gathered(data[..], out[..], cnt, i + 1)
  {
    var base := i * ELEM;
    for p := 0 to ELEM
      invariant Gathered(data[..], out[..], cnt, i) && SampleGathered(data[..], out[..], cnt, i, p)
    {
      GatherStep(data[..], out[..], cnt, i, p);
      ghost var now := out[..][base + p := data[p * cnt + i]];
      out[base + p] := data[p * cnt + i];
      assert out[..] == now;
    }
  }

  method UnshuffleBytes(data: array<bv8>) returns (out: array<bv8>)
    ensures out[..] == Unshuffled(data[..])
    ensures data.Length < ELEM ==> out == data
    ensures data.Length >= ELEM ==> fresh(out)
  {
    var n := data.Length;
    var m := n - n % ELEM;
    if m == 0 {
      assert Unshuffled(data[..]) == data[..];
      return data;
    }
    out := new bv8[n];
    var cnt := m / ELEM;
    for i := 0 to cnt
      invariant Gathered(data[..], out[..], cnt, i)
    {
      GatherSample(data, out, cnt, i);
    }
    ghost var before := out[..];
    CopyTail(data, out, m);
    GatheredKept(data[..], before, out[..], cnt);
    GatheredAll(data[..], out[..]);
  }

  // ---- packed frames ----

  /** A compressor and its decompressor; the decompressor rejects what it did not produce. */
  datatype Codec<!T> = Codec(encode: seq<T> -> seq<T>, decode: seq<T> -> Option<seq<T>>)

  function PackFrame<T>(c: Codec<T>, data: seq<T>): seq<T> {
    c.encode(Shuffled(data))
  }

  function UnpackFrame<T>(c: Codec<T>, packed: seq<T>): Option<seq<T>> {
    match c.decode(packed)
    case None => None
    case Some(raw) => Some(Unshuffled(raw))
  }

  /** With a lossless compressor, unpacking a packed frame gives the frame back, and what is compressed is
      the frame's planes. */
  lemma PackedFrameRoundTrip<T>(c: Codec<T>, data: seq<T>)
    requires c.decode(c.encode(Shuffled(data))) == Some(Shuffled(data))
    ensures UnpackFrame(c, PackFrame(c, data)) == Some(data)
    ensures c.decode(PackFrame(c, data)) == Some(Shuffled(data))
  {
    UnshuffleUndoesShuffle(data);
  }
}
