/** Flat arrays made of consecutive items, and positions inside them. */
module Layout {

  /** The items of `xs`, each written by `f`, one behind the other. */
  function Flat<T, U>(f: T -> seq<U>, xs: seq<T>): (r: seq<U>) {
    if xs == [] then [] else f(xs[0]) + Flat(f, xs[1..])
  }

  /** Where item `k` starts, counted from the start of the first. */
  function Pos<T, U>(f: T -> seq<U>, xs: seq<T>, k: nat): nat
    requires k <= |xs|
  {
    |Flat(f, xs[..k])|
  }

  /** `s` stands in `data` from position `i` on. */
  predicate At<U(==)>(data: seq<U>, i: int, s: seq<U>) {
    0 <= i && i + |s| <= |data| && data[i..i + |s|] == s
  }

  lemma {:induction false} FlatAppend<T, U>(f: T -> seq<U>, a: seq<T>, b: seq<T>)
    ensures Flat(f, a + b) == Flat(f, a) + Flat(f, b)
  {
    if a == [] {
      assert a + b == b;
    } else {
      assert (a + b)[0] == a[0] && (a + b)[1..] == a[1..] + b;
      FlatAppend(f, a[1..], b);
    }
  }

  lemma {:induction false} FlatOne<T, U>(f: T -> seq<U>, x: T)
    ensures Flat(f, [x]) == f(x)
  {
    assert [x][1..] == [];
    assert f(x) + [] == f(x);
  }

  lemma {:induction false} FlatSnoc<T, U>(f: T -> seq<U>, a: seq<T>, x: T)
    ensures Flat(f, a + [x]) == Flat(f, a) + f(x)
  {
    FlatAppend(f, a, [x]);
    FlatOne(f, x);
  }

  /** Item `k` splits the whole in what stands before it, itself and what stands behind it. */
  lemma {:induction false} FlatSplit<T, U>(f: T -> seq<U>, xs: seq<T>, k: nat)
    requires k < |xs|
    ensures Flat(f, xs) == Flat(f, xs[..k]) + f(xs[k]) + Flat(f, xs[k + 1..])
    ensures Pos(f, xs, k + 1) == Pos(f, xs, k) + |f(xs[k])|
  {
    assert xs == xs[..k + 1] + xs[k + 1..];
    FlatAppend(f, xs[..k + 1], xs[k + 1..]);
    assert xs[..k + 1] == xs[..k] + [xs[k]];
    FlatSnoc(f, xs[..k], xs[k]);
  }

  lemma {:induction false} AtConcat<U>(data: seq<U>, i: int, a: seq<U>, b: seq<U>)
    ensures At(data, i, a + b) <==> At(data, i, a) && At(data, i + |a|, b)
  {
    if 0 <= i && i + |a| + |b| <= |data| {
      assert data[i..i + |a| + |b|] == data[i..i + |a|] + data[i + |a|..i + |a| + |b|];
      if data[i..i + |a| + |b|] == a + b {
        assert data[i..i + |a|] == (a + b)[..|a|] == a;
        assert data[i + |a|..i + |a| + |b|] == (a + b)[|a|..] == b;
      }
    }
  }

  lemma {:induction false} AtIndex<U>(data: seq<U>, i: int, s: seq<U>)
    requires At(data, i, s)
    ensures forall k | 0 <= k < |s| :: data[i + k] == s[k]
  {
    forall k | 0 <= k < |s| ensures data[i + k] == s[k] {
      assert data[i..i + |s|][k] == s[k];
    }
  }

  /** An item of a block stands where the index arithmetic puts it. */
  lemma {:induction false} AtItem<T, U>(data: seq<U>, i: int, f: T -> seq<U>, xs: seq<T>, k: nat)
    requires k < |xs| && At(data, i, Flat(f, xs))
    ensures At(data, i + Pos(f, xs, k), f(xs[k]))
    ensures Pos(f, xs, k + 1) == Pos(f, xs, k) + |f(xs[k])| <= |Flat(f, xs)|
  {
    FlatSplit(f, xs, k);
    AtConcat(data, i, Flat(f, xs[..k]) + f(xs[k]), Flat(f, xs[k + 1..]));
    AtConcat(data, i, Flat(f, xs[..k]), f(xs[k]));
  }

  lemma {:induction false} PosEnd<T, U>(f: T -> seq<U>, xs: seq<T>)
    ensures Pos(f, xs, |xs|) == |Flat(f, xs)|
    ensures Pos(f, xs, 0) == 0
  {
    assert xs[..|xs|] == xs;
  }
}
