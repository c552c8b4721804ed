/** Small sequence helpers shared by the other modules: the Option type,
    index ranges, std::vector::resize, splitting a list into warps and
    integer-width subset types. */
module Util {

  datatype Option<T> = None | Some(value: T)

  /** The words the emulator stores: 32- and 64-bit unsigned, 32-bit signed. */
  const TwoTo32: int := 0x1_0000_0000
  const TwoTo64: int := 0x1_0000_0000_0000_0000
  type u32 = x: int | 0 <= x < 0x1_0000_0000
  type u64 = x: int | 0 <= x < 0x1_0000_0000_0000_0000
  type s32 = x: int | -0x8000_0000 <= x < 0x8000_0000

  /** [0, 1, ..., n-1] */
  function Range(n: nat): (r: seq<nat>)
    ensures |r| == n
    ensures forall i :: 0 <= i < n ==> r[i] == i
  {
    seq(n, i => i)
  }

  /** std::vector::resize: keeps the first min(|s|, n) elements and pads with `fill`. */
  function Resize<T>(s: seq<T>, n: nat, fill: T): (r: seq<T>)
    ensures |r| == n
    ensures forall i :: 0 <= i < n && i < |s| ==> r[i] == s[i]
    ensures forall i :: |s| <= i < n ==> r[i] == fill
  {
    if n <= |s| then s[..n] else s + seq(n - |s|, _ => fill)
  }

  function Flatten<T>(ss: seq<seq<T>>): seq<T>
  {
    if ss == [] then [] else ss[0] + Flatten(ss[1..])
  }

  lemma {:induction false} FlattenAppend<T>(ss: seq<seq<T>>, s: seq<T>)
    ensures Flatten(ss + [s]) == Flatten(ss) + s
  {
    if ss == [] {
      assert [] + [s] == [s];
    } else {
      assert (ss + [s])[1..] == ss[1..] + [s];
      FlattenAppend(ss[1..], s);
    }
  }

  /** The issue discipline of the scheduler: |s| / w full groups of w
      elements followed by ONE remainder group of |s| % w elements, which
      is empty when w divides |s|. */
  function Chunks<T>(s: seq<T>, w: nat): (r: seq<seq<T>>)
    requires w > 0
    decreases |s|
  {
    if |s| < w then [s] else [s[..w]] + Chunks(s[w..], w)
  }

  lemma {:induction false} FlattenChunks<T>(s: seq<T>, w: nat)
    requires w > 0
    ensures Flatten(Chunks(s, w)) == s
    decreases |s|
  {
    if |s| < w {
      assert Flatten([s]) == s + Flatten([s][1..]);
    } else {
      var c := Chunks(s, w);
      assert c[0] == s[..w] && c[1..] == Chunks(s[w..], w);
      FlattenChunks(s[w..], w);
      assert s == s[..w] + s[w..];
    }
  }

  lemma MulAtLeast(k: int, w: int)
    requires k >= 1 && w > 0
    ensures k * w >= w
  {
    MulSucc(k, k - 1, w);
    MulNat(k - 1, w);
  }

  /** `q` is passed in so that callers need not rediscover `q == x + y`
      under the product. */
  lemma MulDistributes(a: int, q: int, x: int, y: int)
    requires q == x + y
    ensures a * q == a * x + a * y
  {
  }

  lemma AppendAssociates<T>(a: seq<T>, b: seq<T>, c: seq<T>)
    ensures (a + b) + c == a + (b + c)
  {
  }

  lemma MulAssociates(a: int, b: int, c: int)
    ensures a * (b * c) == a * b * c
  {
  }

  lemma MulNat(a: nat, b: nat)
    ensures a * b >= 0
  {
  }

  lemma MulSucc(k: int, j: int, w: int)
    requires k == j + 1
    ensures k * w == j * w + w
  {
  }

  lemma MulMonotone(a: nat, b: nat, c: nat)
    requires b <= c
    ensures a * b <= a * c
  {
  }

  /** Euclidean division is determined by its quotient and remainder. */
  lemma DivModUnique(n: int, w: int, q: int, r: int)
    requires w > 0 && 0 <= r < w && n == q * w + r
    ensures n / w == q && n % w == r
  {
    var q0, r0 := n / w, n % w;
    assert n == q0 * w + r0;
    if q0 < q {
      var d := q - q0;
      MulDistributes(w, q, d, q0);
      assert q * w == d * w + q0 * w;
      MulAtLeast(d, w);
    } else if q < q0 {
      var d := q0 - q;
      MulDistributes(w, q0, d, q);
      assert q0 * w == d * w + q * w;
      MulAtLeast(d, w);
    }
  }

  lemma DivStep(n: nat, w: nat)
    requires w > 0 && n >= w
    ensures (n - w) / w + 1 == n / w
    ensures (n - w) % w == n % w
  {
    var q, r := (n - w) / w, (n - w) % w;
    assert n - w == q * w + r;
    var k := q + 1;
    MulSucc(k, q, w);
    assert n == k * w + r;
    DivModUnique(n, w, k, r);
  }

  lemma DivSmall(n: nat, w: nat)
    requires w > 0 && n < w
    ensures n / w == 0 && n % w == n
  {
  }

  /** The shape of the groups: |s| / w + 1 of them, all full but the last,
      which holds the |s| % w remaining elements. */
  lemma {:induction false} ChunksShape<T>(s: seq<T>, w: nat)
    requires w > 0
    ensures |Chunks(s, w)| == |s| / w + 1
    ensures forall k :: 0 <= k < |s| / w ==> |Chunks(s, w)[k]| == w
    ensures |Chunks(s, w)[|s| / w]| == |s| % w
    decreases |s|
  {
    if |s| < w {
      DivSmall(|s|, w);
    } else {
      ChunksShape(s[w..], w);
      DivStep(|s|, w);
      var c := Chunks(s, w);
      assert c[1..] == Chunks(s[w..], w);
      forall k | 0 <= k < |s| / w
        ensures |c[k]| == w
      {
        if k > 0 {
          assert c[k] == Chunks(s[w..], w)[k - 1];
        }
      }
    }
  }

  /** Group `k` of `Chunks(s, w)` starts at element `lo` = k * w: it is
      the next w elements when that many are left, else the rest. */
  lemma {:induction false} ChunkSlice<T>(s: seq<T>, w: nat, k: nat, lo: nat)
    requires w > 0 && lo == k * w && lo <= |s|
    ensures k < |Chunks(s, w)|
    ensures lo + w <= |s| ==> Chunks(s, w)[k] == s[lo .. lo + w]
    ensures |s| < lo + w ==> Chunks(s, w)[k] == s[lo ..]
    decreases k
  {
    if k > 0 {
      var j := k - 1;
      assert lo == j * w + w by { MulSucc(k, j, w); }
      var t := s[w..];
      var c := Chunks(s, w);
      assert c[1..] == Chunks(t, w);
      ChunkSlice(t, w, j, lo - w);
      assert c[k] == Chunks(t, w)[j];
    }
  }

  /** Where group `k` of n elements in groups of w starts and ends. */
  lemma GroupBounds(n: nat, w: nat, k: nat, lo: nat)
    requires w > 0 && k <= n / w && lo == k * w
    ensures lo <= n
    ensures k < n / w ==> lo + w <= n
    ensures k == n / w ==> n < lo + w
  {
    var q, r := n / w, n % w;
    assert n == q * w + r;
    assert lo <= q * w by { MulMonotone(w, k, q); }
    if k < q {
      assert lo + w <= q * w by { MulMonotone(w, k + 1, q); MulSucc(k + 1, k, w); }
    }
  }

  /** Group `k` of `Chunks(s, w)` is the slice of `s` it stands for. */
  lemma ChunkAt<T>(s: seq<T>, w: nat, k: nat)
    requires w > 0 && k <= |s| / w
    ensures |Chunks(s, w)| == |s| / w + 1
    ensures k < |s| / w ==> k * w + w <= |s| && Chunks(s, w)[k] == s[k * w .. k * w + w]
    ensures k == |s| / w ==> k * w <= |s| && Chunks(s, w)[k] == s[k * w ..]
  {
    ChunksShape(s, w);
    MulNat(k, w);
    var lo: nat := k * w;
    GroupBounds(|s|, w, k, lo);
    ChunkSlice(s, w, k, lo);
  }

  /** No element occurs twice. */
  predicate Distinct<T(==)>(s: seq<T>)
  {
    forall i, j :: 0 <= i < j < |s| ==> s[i] != s[j]
  }

  /** Every element of the multiset occurs exactly once. */
  predicate NoDuplicates<T>(m: multiset<T>)
  {
    forall x :: x in m ==> m[x] == 1
  }
}
