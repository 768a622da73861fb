/** Shared vocabulary: Go strings as byte sequences, and sums over the values of a map. */
module Base {

  datatype Option<+T> = None | Some(value: T)

  /** A Go string is a sequence of bytes. */
  newtype byte = x: int | 0 <= x < 256
  type Bytes = seq<byte>

  function Ascii(s: string): (b: Bytes)
    ensures |b| == |s|
  {
    seq(|s|, i requires 0 <= i < |s| => (s[i] as int % 256) as byte)
  }

  /** Go's strings.Join with a one-byte separator. */
  function Join(parts: seq<Bytes>, separator: byte): Bytes {
    if |parts| == 0 then []
    else if |parts| == 1 then parts[0]
    else parts[0] + [separator] + Join(parts[1..], separator)
  }

  lemma ConcatAssociative<T>(a: seq<T>, b: seq<T>, c: seq<T>)
    ensures a + (b + c) == (a + b) + c
  {
  }

  lemma TakeNext<T>(s: seq<T>, i: nat)
    requires i < |s|
    ensures s[..i + 1] == s[..i] + [s[i]] && s[..i + 1][..i] == s[..i]
  {
  }

  lemma TakeBounds<T>(s: seq<T>)
    ensures s[..0] == [] && s[..|s|] == s
  {
  }

  lemma ConcatNothing<T>(s: seq<T>)
    ensures s + [] == s && [] + s == s
  {
  }

  /** The lists f makes of the items, one after the other. */
  function FlatMap<T, U>(f: T -> seq<U>, items: seq<T>): seq<U> {
    if |items| == 0 then [] else f(items[0]) + FlatMap(f, items[1..])
  }

  /** Reading a missing key of a Go map of integers gives zero. */
  function CountAt<K>(m: map<K, int>, k: K): int {
    if k in m then m[k] else 0
  }

  /** Reading a missing key of a Go map of slices gives the empty slice. */
  function ListAt<K, V>(m: map<K, seq<V>>, k: K): seq<V> {
    if k in m then m[k] else []
  }

  /** The sum of f over a list. */
  function Total<T>(f: T -> nat, items: seq<T>): nat {
    if |items| == 0 then 0 else Total(f, items[..|items| - 1]) + f(items[|items| - 1])
  }

  lemma {:induction false} TotalUpdate<T>(f: T -> nat, ts: seq<T>, i: nat, t: T)
    requires i < |ts|
    ensures Total(f, ts[i := t]) == Total(f, ts) - f(ts[i]) + f(t)
  {
    var n := |ts| - 1;
    if i < n {
      TotalUpdate(f, ts[..n], i, t);
      assert ts[i := t][..n] == ts[..n][i := t];
    } else {
      assert ts[i := t][..n] == ts[..n];
    }
  }

  lemma {:induction false} TotalFirst<T>(f: T -> nat, ts: seq<T>)
    requires |ts| > 0
    ensures Total(f, ts) == f(ts[0]) + Total(f, ts[1..])
  {
    var n := |ts| - 1;
    if n == 0 {
    } else {
      TotalFirst(f, ts[..n]);
      assert ts[..n][1..] == ts[1..][..n - 1];
    }
  }

  lemma {:induction false} TotalConcat<T>(f: T -> nat, a: seq<T>, b: seq<T>)
    ensures Total(f, a + b) == Total(f, a) + Total(f, b)
  {
    if |b| == 0 {
      assert a + b == a;
    } else {
      TotalConcat(f, a, b[..|b| - 1]);
      assert (a + b)[..|a + b| - 1] == a + b[..|b| - 1];
    }
  }

  /** Records every count on a gauge, one series at a time and in any order. */
  method Publish<K(==)>(counts: map<K, int>, gauge: map<K, int>) returns (g: map<K, int>)
    ensures g == gauge + counts
  {
    g := gauge;
    var left := counts.Keys;
    while left != {}
      invariant left <= counts.Keys
      invariant forall k :: k in g <==> k in gauge || (k in counts && k !in left)
      invariant forall k :: k in g ==> g[k] == if k in counts && k !in left then counts[k] else gauge[k]
      decreases |left|
    {
      var k :| k in left;
      g := g[k := counts[k]];
      left := left - {k};
    }
  }

  /** `under` with the entries of m over it, as far as f has a value for them. */
  function Overlay<K, V, W>(under: map<K, W>, m: map<K, V>, f: V -> Option<W>): map<K, W> {
    under + map k | k in m && f(m[k]).Some? :: f(m[k]).value
  }

  lemma OverlayStep<K, V, W>(under: map<K, W>, m: map<K, V>, left: set<K>, k: K, f: V -> Option<W>)
    requires k in left && k in m
    ensures Overlay(under, m - (left - {k}), f) ==
            var before, x := Overlay(under, m - left, f), f(m[k]);
            if x.Some? then before[k := x.value] else before
  {
  }

  lemma OverlayBounds<K, V, W>(under: map<K, W>, m: map<K, V>, f: V -> Option<W>)
    ensures Overlay(under, m - m.Keys, f) == under && m - {} == m
  {
  }

  // ---------------------------------------------------------------- sums over a map

  ghost function Pick<K, V>(m: map<K, V>): (k: K)
    requires m != map[]
    ensures k in m
  {
    var k :| k in m; k
  }

  /** The sum of f over the values of m. */
  ghost function SumBy<K, V>(m: map<K, V>, f: V -> int): int
    decreases |m|
  {
    if m == map[] then 0
    else var k := Pick(m); f(m[k]) + SumBy(m - {k}, f)
  }

  /** The order in which a map is walked does not matter to a sum. */
  lemma {:induction false} SumByRemove<K, V>(m: map<K, V>, k: K, f: V -> int)
    requires k in m
    ensures SumBy(m, f) == f(m[k]) + SumBy(m - {k}, f)
    decreases |m|
  {
    var c := Pick(m);
    if c != k {
      SumByRemove(m - {c}, k, f);
      SumByRemove(m - {k}, c, f);
      assert m - {c} - {k} == m - {k} - {c};
    }
  }

  lemma SumByUpdate<K, V>(m: map<K, V>, k: K, v: V, f: V -> int)
    ensures SumBy(m[k := v], f) == SumBy(m, f) - (if k in m then f(m[k]) else 0) + f(v)
  {
    var m' := m[k := v];
    SumByRemove(m', k, f);
    assert m' - {k} == m - {k};
    if k in m {
      SumByRemove(m, k, f);
    } else {
      assert m - {k} == m;
    }
  }

  lemma {:induction false} SumByMonotone<K, V>(m: map<K, V>, f: V -> int, g: V -> int)
    requires forall k :: k in m ==> f(m[k]) <= g(m[k])
    ensures SumBy(m, f) <= SumBy(m, g)
    decreases |m|
  {
    if m == map[] {
    } else {
      var k := Pick(m);
      SumByMonotone(m - {k}, f, g);
    }
  }

  /** A sum of non-negative terms is at least each of them. */
  lemma SumByAtLeast<K, V>(m: map<K, V>, k: K, f: V -> int)
    requires k in m
    requires forall k' :: k' in m ==> 0 <= f(m[k'])
    ensures f(m[k]) <= SumBy(m, f)
  {
    SumByRemove(m, k, f);
    SumByNonNegative(m - {k}, f);
  }

  lemma {:induction false} SumByNonNegative<K, V>(m: map<K, V>, f: V -> int)
    requires forall k :: k in m ==> 0 <= f(m[k])
    ensures 0 <= SumBy(m, f)
    decreases |m|
  {
    if m == map[] {
    } else {
      var k := Pick(m);
      SumByNonNegative(m - {k}, f);
    }
  }

  lemma {:induction false} SumByZero<K, V>(m: map<K, V>, f: V -> int)
    requires forall k :: k in m ==> f(m[k]) == 0
    ensures SumBy(m, f) == 0
    decreases |m|
  {
    if m == map[] {
    } else {
      var k := Pick(m);
      SumByZero(m - {k}, f);
    }
  }
}
