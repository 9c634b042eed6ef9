/** The secret that the ring exchange computes, for any commuting scalar action. */
module GroupSecret {
  import opened MachineInt

  // Keys, scalars and points are all byte strings.
  type Key = seq<uint8>

  /** What the exchange takes from elsewhere: the scalar action (X25519), the base point, the hash
      that turns the last point into a key, and the value of a key that was never set. */
  datatype Suite = Suite(kx: (Key, Key) -> Key, base: Key, digest: Key -> Key, zero: Key)

  // The one hypothesis on the scalar action.
  ghost predicate Commutes(s: Suite) {
    forall a, b, p :: s.kx(a, s.kx(b, p)) == s.kx(b, s.kx(a, p))
  }

  // The secrets applied to a point one after the other, first one first.
  ghost function Chain(s: Suite, secrets: seq<Key>, p: Key): Key {
    if secrets == [] then p else Chain(s, secrets[1..], s.kx(secrets[0], p))
  }

  lemma {:induction false} ChainConcat(s: Suite, a: seq<Key>, b: seq<Key>, p: Key)
    ensures Chain(s, a + b, p) == Chain(s, b, Chain(s, a, p))
  {
    if a == [] {
      assert a + b == b;
    } else {
      assert (a + b)[1..] == a[1..] + b;
      ChainConcat(s, a[1..], b, s.kx(a[0], p));
    }
  }

  lemma {:induction false} ChainInside(s: Suite, a: Key, xs: seq<Key>, p: Key)
    requires Commutes(s)
    ensures Chain(s, xs, s.kx(a, p)) == s.kx(a, Chain(s, xs, p))
  {
    if xs != [] {
      ChainInside(s, a, xs[1..], s.kx(xs[0], p));
      assert s.kx(xs[0], s.kx(a, p)) == s.kx(a, s.kx(xs[0], p));
    }
  }

  // Where the ring is cut does not matter.
  lemma {:induction false} ChainRotate(s: Suite, a: seq<Key>, b: seq<Key>, p: Key)
    requires Commutes(s)
    ensures Chain(s, a + b, p) == Chain(s, b + a, p)
  {
    if a == [] {
      assert a + b == b && b + a == b;
    } else {
      var x, rest := a[0], a[1..];
      assert (a + b)[1..] == rest + b;
      ChainRotate(s, rest, b, s.kx(x, p));
      ChainInside(s, x, b + rest, p);
      assert b + a == (b + [x]) + rest;
      ChainConcat(s, b + [x], rest, p);
      ChainConcat(s, b, [x], p);
      ChainConcat(s, b, rest, p);
      ChainInside(s, x, rest, Chain(s, b, p));
      ChainOne(s, x, Chain(s, b, p));
    }
  }

  // The client to the left of client i in a ring of n.
  function Left(i: nat, n: nat): (j: nat)
    requires i < n
    ensures j < n
  {
    if i == 0 then n - 1 else i - 1
  }

  function Right(i: nat, n: nat): (j: nat)
    requires i < n
    ensures j < n && Left(j, n) == i
  {
    if i == n - 1 then 0 else i + 1
  }

  // The r-th intermediate of client i: its secret applied to the (r-1)-th of its left neighbour.
  ghost function Intermediate(s: Suite, d: seq<Key>, i: nat, r: nat): Key
    requires i < |d|
    decreases r
  {
    s.kx(d[i], if r == 0 then s.base else Intermediate(s, d, Left(i, |d|), r - 1))
  }

  // The r + 1 consecutive ring secrets that end at client i.
  ghost function Arc(d: seq<Key>, i: nat, r: nat): seq<Key>
    requires i < |d| && r < |d|
  {
    if r <= i then d[i - r..i + 1] else d[|d| + i - r..] + d[..i + 1]
  }

  lemma SliceSnoc(front: seq<Key>, d: seq<Key>, i: nat)
    requires i < |d|
    ensures front + d[..i + 1] == front + d[..i] + [d[i]]
  {}

  lemma ArcStep(d: seq<Key>, i: nat, r: nat)
    requires i < |d| && 0 < r < |d|
    ensures Arc(d, i, r) == Arc(d, Left(i, |d|), r - 1) + [d[i]]
  {
    if r <= i {
      assert d[i - r..i + 1] == d[i - r..i] + [d[i]];
    } else {
      ArcAcross(d, i, r);
      hide Arc;
      SliceSnoc(d[|d| + i - r..], d, i);
    }
  }

  // An arc that goes over the end of the list.
  lemma ArcAcross(d: seq<Key>, i: nat, r: nat)
    requires i < r < |d|
    ensures Arc(d, i, r) == d[|d| + i - r..] + d[..i + 1]
    ensures Arc(d, Left(i, |d|), r - 1) == d[|d| + i - r..] + d[..i]
  {
    if i == 0 {
      assert d[..0] == [];
      assert d[|d| - r..|d|] == d[|d| - r..];
    }
  }

  lemma ChainOne(s: Suite, a: Key, p: Key)
    ensures Chain(s, [a], p) == s.kx(a, p)
  {
    assert [a][1..] == [];
  }

  // After r rounds a client holds the fold of the r + 1 consecutive secrets ending at its own.
  lemma {:induction false} IntermediateIsArc(s: Suite, d: seq<Key>, i: nat, r: nat)
    requires i < |d| && r < |d|
    ensures Intermediate(s, d, i, r) == Chain(s, Arc(d, i, r), s.base)
    decreases r
  {
    if r == 0 {
      assert Arc(d, i, 0) == [d[i]];
      ChainOne(s, d[i], s.base);
    } else {
      var j := Left(i, |d|);
      IntermediateIsArc(s, d, j, r - 1);
      ArcStep(d, i, r);
      hide Arc;
      ChainConcat(s, Arc(d, j, r - 1), [d[i]], s.base);
      ChainOne(s, d[i], Chain(s, Arc(d, j, r - 1), s.base));
    }
  }

  // All secrets together, in slot order.
  ghost function RingKey(s: Suite, d: seq<Key>): Key {
    s.digest(Chain(s, d, s.base))
  }

  /** After n - 1 rounds every client of the ring derives the same key. */
  lemma Agreement(s: Suite, d: seq<Key>, i: nat)
    requires Commutes(s) && i < |d|
    ensures s.digest(Intermediate(s, d, i, |d| - 1)) == RingKey(s, d)
  {
    IntermediateIsArc(s, d, i, |d| - 1);
    assert Arc(d, i, |d| - 1) == d[i + 1..] + d[..i + 1];
    ChainRotate(s, d[i + 1..], d[..i + 1], s.base);
    assert d == d[..i + 1] + d[i + 1..];
  }
}
