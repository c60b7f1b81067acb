/** Byte strings in their natural order, and what sorting a list of them means. */
module ByteOrder {

  type Byte = b: int | 0 <= b < 256

  type Bytes = seq<Byte>

  predicate Leq(a: Bytes, b: Bytes) {
    a == [] || (b != [] && (a[0] < b[0] || (a[0] == b[0] && Leq(a[1..], b[1..]))))
  }

  lemma {:induction false} LeqTotal(a: Bytes, b: Bytes)
    ensures Leq(a, b) || Leq(b, a)
  {
    if a != [] && b != [] { LeqTotal(a[1..], b[1..]); }
  }

  lemma {:induction false} LeqAntisymmetric(a: Bytes, b: Bytes)
    requires Leq(a, b) && Leq(b, a)
    ensures a == b
  {
    if a != [] {
      LeqAntisymmetric(a[1..], b[1..]);
      assert a == [a[0]] + a[1..] && b == [b[0]] + b[1..];
    }
  }

  lemma {:induction false} LeqTransitive(a: Bytes, b: Bytes, c: Bytes)
    requires Leq(a, b) && Leq(b, c)
    ensures Leq(a, c)
  {
    if a != [] && a[0] == b[0] && b[0] == c[0] { LeqTransitive(a[1..], b[1..], c[1..]); }
  }

  /** The order of dictionaries: a prefix comes first, otherwise the first difference decides. */
  lemma {:induction false} LeqMeaning(a: Bytes, b: Bytes)
    ensures Leq(a, b) <==>
            a <= b || exists k :: 0 <= k < |a| && k < |b| && a[..k] == b[..k] && a[k] < b[k]
  {
    if a != [] && b != [] {
      if a[0] == b[0] {
        LeqMeaning(a[1..], b[1..]);
        assert a == [a[0]] + a[1..] && b == [b[0]] + b[1..];
        if k :| 0 <= k < |a[1..]| && k < |b[1..]| && a[1..][..k] == b[1..][..k] && a[1..][k] < b[1..][k] {
          assert a[..k + 1] == [a[0]] + a[1..][..k] && b[..k + 1] == [b[0]] + b[1..][..k];
        }
        if k :| 0 <= k < |a| && k < |b| && a[..k] == b[..k] && a[k] < b[k] {
          assert a[1..][..k - 1] == a[..k][1..] && b[1..][..k - 1] == b[..k][1..];
        }
      } else if a[0] < b[0] {
        assert a[..0] == b[..0];
      }
    }
  }

  ghost predicate Ordered(xs: seq<Bytes>) {
    forall i, j | 0 <= i < j < |xs| :: Leq(xs[i], xs[j])
  }

  function Insert(x: Bytes, xs: seq<Bytes>): seq<Bytes> {
    if xs == [] || Leq(x, xs[0]) then [x] + xs else [xs[0]] + Insert(x, xs[1..])
  }

  function Sort(xs: seq<Bytes>): seq<Bytes> {
    if xs == [] then [] else Insert(xs[0], Sort(xs[1..]))
  }

  lemma {:induction false} InsertSound(x: Bytes, xs: seq<Bytes>)
    requires Ordered(xs)
    ensures Ordered(Insert(x, xs)) && multiset(Insert(x, xs)) == multiset(xs) + multiset{x}
  {
    if xs == [] {
    } else if Leq(x, xs[0]) {
      forall i | 0 <= i < |xs| ensures Leq(x, xs[i]) {
        if i > 0 { LeqTransitive(x, xs[0], xs[i]); }
      }
    } else {
      assert xs == [xs[0]] + xs[1..];
      var rest := Insert(x, xs[1..]);
      InsertSound(x, xs[1..]);
      LeqTotal(x, xs[0]);
      forall i | 0 <= i < |rest| ensures Leq(xs[0], rest[i]) {
        assert rest[i] in multiset(rest);
        assert rest[i] == x || rest[i] in xs[1..];
      }
    }
  }

  /** Sorting yields an ordered rearrangement. */
  lemma {:induction false} SortSound(xs: seq<Bytes>)
    ensures Ordered(Sort(xs)) && multiset(Sort(xs)) == multiset(xs) && |Sort(xs)| == |xs|
  {
    if xs != [] {
      assert xs == [xs[0]] + xs[1..];
      SortSound(xs[1..]);
      InsertSound(xs[0], Sort(xs[1..]));
      assert |multiset(Sort(xs))| == |Sort(xs)| && |multiset(xs)| == |xs|;
    } else {
      assert Sort(xs) == [];
    }
  }

  lemma {:induction false} OrderedUnique(xs: seq<Bytes>, ys: seq<Bytes>)
    requires Ordered(xs) && Ordered(ys) && multiset(xs) == multiset(ys)
    ensures xs == ys
  {
    if xs == [] {
      assert |multiset(ys)| == |ys|;
    } else {
      assert |multiset(xs)| == |xs| && |multiset(ys)| == |ys|;
      assert xs[0] in multiset(ys) && ys[0] in multiset(xs);
      var i :| 0 <= i < |ys| && ys[i] == xs[0];
      var j :| 0 <= j < |xs| && xs[j] == ys[0];
      if xs[0] != ys[0] { LeqAntisymmetric(xs[0], ys[0]); }
      assert xs == [xs[0]] + xs[1..] && ys == [ys[0]] + ys[1..];
      assert multiset(xs[1..]) == multiset(xs) - multiset{xs[0]};
      OrderedUnique(xs[1..], ys[1..]);
    }
  }

  /** Two lists sort alike exactly when they are rearrangements of each other. */
  lemma SortUnique(xs: seq<Bytes>, ys: seq<Bytes>)
    ensures Sort(xs) == Sort(ys) <==> multiset(xs) == multiset(ys)
  {
    SortSound(xs);
    SortSound(ys);
    if multiset(xs) == multiset(ys) { OrderedUnique(Sort(xs), Sort(ys)); }
  }

  function Concat(xs: seq<Bytes>): Bytes {
    if xs == [] then [] else xs[0] + Concat(xs[1..])
  }

  lemma {:induction false} ConcatAppend(xs: seq<Bytes>, ys: seq<Bytes>)
    ensures Concat(xs + ys) == Concat(xs) + Concat(ys)
  {
    if xs == [] {
      assert xs + ys == ys;
    } else {
      assert (xs + ys)[1..] == xs[1..] + ys;
      ConcatAppend(xs[1..], ys);
    }
  }

  ghost predicate Width(xs: seq<Bytes>, width: nat) {
    forall i | 0 <= i < |xs| :: |xs[i]| == width
  }

  /** Blocks of one width can be cut apart again. */
  lemma {:induction false} ConcatInjective(xs: seq<Bytes>, ys: seq<Bytes>, width: nat)
    requires |xs| == |ys| && Width(xs, width) && Width(ys, width) && Concat(xs) == Concat(ys)
    ensures xs == ys
  {
    if xs != [] {
      assert Concat(xs)[..width] == xs[0] && Concat(ys)[..width] == ys[0];
      assert Concat(xs)[width..] == Concat(xs[1..]) && Concat(ys)[width..] == Concat(ys[1..]);
      ConcatInjective(xs[1..], ys[1..], width);
      assert xs == [xs[0]] + xs[1..] && ys == [ys[0]] + ys[1..];
    }
  }

  // ----- lists of images

  function Mapped<T>(f: T -> Bytes, xs: seq<T>): (r: seq<Bytes>)
    ensures |r| == |xs| && forall i | 0 <= i < |xs| :: r[i] == f(xs[i])
  {
    seq(|xs|, i requires 0 <= i < |xs| => f(xs[i]))
  }

  function Without<T>(xs: seq<T>, i: nat): (r: seq<T>)
    requires i < |xs|
    ensures |r| == |xs| - 1
    ensures forall k | 0 <= k < |r| :: r[k] == if k < i then xs[k] else xs[k + 1]
  {
    xs[..i] + xs[i + 1..]
  }

  lemma Around<T>(xs: seq<T>, i: nat)
    requires i < |xs|
    ensures multiset(xs) == multiset{xs[i]} + multiset(Without(xs, i))
  {
    assert xs == xs[..i] + [xs[i]] + xs[i + 1..];
    assert Without(xs, i) == xs[..i] + xs[i + 1..];
  }

  lemma MappedAround<T>(f: T -> Bytes, xs: seq<T>, i: nat)
    requires i < |xs|
    ensures multiset(Mapped(f, xs)) == multiset{f(xs[i])} + multiset(Mapped(f, Without(xs, i)))
    ensures multiset(xs) == multiset{xs[i]} + multiset(Without(xs, i))
  {
    Around(Mapped(f, xs), i);
    Around(xs, i);
    assert Mapped(f, Without(xs, i)) == Without(Mapped(f, xs), i);
  }

  lemma Cancelled<T>(a: multiset<T>, b: multiset<T>, x: T)
    requires multiset{x} + a == multiset{x} + b
    ensures a == b
  {
    assert a == (multiset{x} + a) - multiset{x};
    assert b == (multiset{x} + b) - multiset{x};
  }

  lemma FirstOfBoth<T>(a: seq<T>, b: seq<T>) returns (i: nat)
    requires multiset(a) == multiset(b) && a != []
    ensures i < |b| && b[i] == a[0] && multiset(Without(a, 0)) == multiset(Without(b, i))
  {
    assert a[0] in multiset(b);
    i :| 0 <= i < |b| && b[i] == a[0];
    hide Without;
    Around(a, 0);
    Around(b, i);
    Cancelled(multiset(Without(a, 0)), multiset(Without(b, i)), a[0]);
  }

  /** Rearranging a list rearranges its images. */
  lemma {:induction false} MappedRearranged<T>(f: T -> Bytes, a: seq<T>, b: seq<T>)
    requires multiset(a) == multiset(b)
    ensures multiset(Mapped(f, a)) == multiset(Mapped(f, b)) && |a| == |b|
    decreases |a|
  {
    if a == [] {
      assert |multiset(b)| == |b|;
    } else {
      var i := FirstOfBoth(a, b);
      MappedAround(f, a, 0);
      MappedAround(f, b, i);
      MappedRearranged(f, Without(a, 0), Without(b, i));
    }
  }

  /** No two different elements of the two lists have one image. */
  ghost predicate Distinguishes<T>(f: T -> Bytes, a: seq<T>, b: seq<T>) {
    forall v, w | v in a + b && w in a + b :: f(v) == f(w) ==> v == w
  }

  /** Then images that are rearrangements of each other come from rearranged lists. */
  lemma {:induction false} MappedBack<T>(f: T -> Bytes, a: seq<T>, b: seq<T>)
    requires Distinguishes(f, a, b) && multiset(Mapped(f, a)) == multiset(Mapped(f, b))
    ensures multiset(a) == multiset(b)
    decreases |a|
  {
    assert |multiset(Mapped(f, a))| == |a| && |multiset(Mapped(f, b))| == |b|;
    if a != [] {
      var i := FirstOfBoth(Mapped(f, a), Mapped(f, b));
      assert b[i] in a + b && a[0] in a + b;
      assert forall v | v in Without(a, 0) + Without(b, i) :: v in a + b;
      assert Mapped(f, Without(a, 0)) == Without(Mapped(f, a), 0);
      assert Mapped(f, Without(b, i)) == Without(Mapped(f, b), i);
      MappedBack(f, Without(a, 0), Without(b, i));
      Around(a, 0);
      Around(b, i);
    }
  }

  // ----- pairing two lists off

  /** The numbers below n, in some order. */
  ghost predicate Permutes(p: seq<nat>, n: nat) {
    && |p| == n && (forall i | 0 <= i < n :: p[i] < n)
    && (forall i, j | 0 <= i < j < n :: p[i] != p[j])
  }

  ghost predicate PairsOff<T>(p: seq<nat>, a: seq<T>, b: seq<T>) {
    |a| == |b| && Permutes(p, |a|) && forall i | 0 <= i < |a| :: a[i] == b[p[i]]
  }

  /** The pairing of the rest when the first pair is taken out. */
  function Shrunk(p: seq<nat>): (q: seq<nat>)
    requires p != []
    ensures |q| == |p| - 1
    ensures forall k | 0 <= k < |q| :: q[k] == if p[k + 1] > p[0] then p[k + 1] - 1 else p[k + 1]
  {
    seq(|p| - 1, k requires 0 <= k < |p| - 1 => if p[k + 1] > p[0] then p[k + 1] - 1 else p[k + 1])
  }

  /** And the other way round, with the first paired off to i. */
  function Grown(i: nat, q: seq<nat>): (p: seq<nat>)
    ensures |p| == |q| + 1 && p[0] == i
    ensures forall k | 0 < k < |p| :: p[k] == if q[k - 1] >= i then q[k - 1] + 1 else q[k - 1]
  {
    [i] + seq(|q|, k requires 0 <= k < |q| => if q[k] >= i then q[k] + 1 else q[k])
  }

  lemma ShrunkPairsOff<T>(p: seq<nat>, a: seq<T>, b: seq<T>)
    requires PairsOff(p, a, b) && a != []
    ensures PairsOff(Shrunk(p), Without(a, 0), Without(b, p[0]))
  {
  }

  lemma GrownPairsOff<T>(i: nat, q: seq<nat>, a: seq<T>, b: seq<T>)
    requires a != [] && i < |b| && a[0] == b[i] && PairsOff(q, Without(a, 0), Without(b, i))
    ensures PairsOff(Grown(i, q), a, b)
  {
    forall k | 0 < k < |a| ensures a[k] == b[Grown(i, q)[k]] {
      assert Without(a, 0)[k - 1] == Without(b, i)[q[k - 1]];
    }
  }

  lemma {:induction false} PairedOffBack<T>(p: seq<nat>, a: seq<T>, b: seq<T>)
    requires PairsOff(p, a, b)
    ensures multiset(a) == multiset(b)
    decreases |a|
  {
    if a != [] {
      ShrunkPairsOff(p, a, b);
      PairedOffBack(Shrunk(p), Without(a, 0), Without(b, p[0]));
      Around(a, 0);
      Around(b, p[0]);
    }
  }

  lemma {:induction false} PairedOff<T>(a: seq<T>, b: seq<T>) returns (p: seq<nat>)
    requires multiset(a) == multiset(b)
    ensures PairsOff(p, a, b)
    decreases |a|
  {
    if a == [] {
      assert |multiset(b)| == |b|;
      p := [];
    } else {
      var i := FirstOfBoth(a, b);
      var q := PairedOff(Without(a, 0), Without(b, i));
      GrownPairsOff(i, q, a, b);
      p := Grown(i, q);
    }
  }
}
