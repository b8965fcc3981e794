/** Concatenating the lists held by the nodes of one level. */
module Concatenation {

  function Flat<T>(xs: seq<seq<T>>): seq<T> {
    if |xs| == 0 then [] else Flat(xs[..|xs| - 1]) + xs[|xs| - 1]
  }

  /** Where list i begins in the concatenation. */
  function Offset<T>(xs: seq<seq<T>>, i: nat): nat
    requires i <= |xs|
  {
    |Flat(xs[..i])|
  }

  lemma {:induction false} FlatConcat<T>(a: seq<seq<T>>, b: seq<seq<T>>)
    ensures Flat(a + b) == Flat(a) + Flat(b)
  {
    if |b| == 0 {
      assert a + b == a;
    } else {
      var init := b[..|b| - 1];
      assert (a + b)[..|a + b| - 1] == a + init;
      FlatConcat(a, init);
    }
  }

  lemma FlatSingle<T>(x: seq<T>)
    ensures Flat([x]) == x
  {
    assert [x][..0] == [];
  }

  /** The concatenation around list i. */
  lemma FlatAround<T>(xs: seq<seq<T>>, i: nat)
    requires i < |xs|
    ensures Flat(xs) == Flat(xs[..i]) + xs[i] + Flat(xs[i + 1..])
    ensures Offset(xs, i + 1) == Offset(xs, i) + |xs[i]| <= |Flat(xs)|
    ensures forall j :: 0 <= j < |xs[i]| ==> Flat(xs)[Offset(xs, i) + j] == xs[i][j]
  {
    hide Flat;
    FlatConcat(xs[..i + 1], xs[i + 1..]);
    FlatConcat(xs[..i], [xs[i]]);
    FlatSingle(xs[i]);
    assert xs == xs[..i + 1] + xs[i + 1..] && xs[..i + 1] == xs[..i] + [xs[i]];
  }

  /** Putting other lists in the place of list i. */
  lemma FlatReplace<T>(xs: seq<seq<T>>, i: nat, ys: seq<seq<T>>)
    requires i < |xs|
    ensures Flat(xs[..i] + ys + xs[i + 1..]) == Flat(xs[..i]) + Flat(ys) + Flat(xs[i + 1..])
  {
    hide Flat;
    FlatConcat(xs[..i] + ys, xs[i + 1..]);
    FlatConcat(xs[..i], ys);
  }

  /** Putting two lists in the place of one they make up changes nothing. */
  lemma FlatSplit<T>(xs: seq<seq<T>>, i: nat, a: seq<T>, b: seq<T>)
    requires i < |xs| && xs[i] == a + b
    ensures Flat(xs[..i] + [a, b] + xs[i + 1..]) == Flat(xs)
  {
    hide Flat;
    FlatReplace(xs, i, [a, b]);
    FlatAround(xs, i);
    FlatConcat([a], [b]);
    FlatSingle(a);
    FlatSingle(b);
    assert [a, b] == [a] + [b];
  }

  /** Changing list i. */
  lemma FlatUpdate<T>(xs: seq<seq<T>>, i: nat, y: seq<T>)
    requires i < |xs|
    ensures Offset(xs, i) + |xs[i]| <= |Flat(xs)|
    ensures Flat(xs[i := y]) == Flat(xs)[..Offset(xs, i)] + y + Flat(xs)[Offset(xs, i) + |xs[i]|..]
  {
    hide Flat;
    FlatReplace(xs, i, [y]);
    FlatSingle(y);
    FlatAround(xs, i);
    assert xs[i := y] == xs[..i] + [y] + xs[i + 1..];
  }

  /** Inserting one element into list i. */
  lemma FlatInsert<T>(xs: seq<seq<T>>, i: nat, j: nat, v: T)
    requires i < |xs| && j <= |xs[i]|
    ensures Offset(xs, i) + j <= |Flat(xs)|
    ensures Flat(xs[i := xs[i][..j] + [v] + xs[i][j..]])
         == Flat(xs)[..Offset(xs, i) + j] + [v] + Flat(xs)[Offset(xs, i) + j..]
  {
    hide Flat;
    FlatUpdate(xs, i, xs[i][..j] + [v] + xs[i][j..]);
    FlatAround(xs, i);
    var all, o := Flat(xs), Offset(xs, i);
    assert all[o..o + |xs[i]|] == xs[i];
    InsertInSlice(all, o, xs[i], j, v);
  }

  lemma InsertInSlice<T>(all: seq<T>, o: nat, x: seq<T>, j: nat, v: T)
    requires o + |x| <= |all| && all[o..o + |x|] == x && j <= |x|
    ensures all[..o] + (x[..j] + [v] + x[j..]) + all[o + |x|..] == all[..o + j] + [v] + all[o + j..]
  {
    assert all[o..o + j] == x[..j];
    assert all[o + j..o + |x|] == x[j..];
    assert all[..o + j] == all[..o] + x[..j];
    assert all[o + j..] == x[j..] + all[o + |x|..];
  }

  /** Every element of the concatenation belongs to some list. */
  lemma {:induction false} FlatSource<T>(xs: seq<seq<T>>, k: nat) returns (i: nat, j: nat)
    requires k < |Flat(xs)|
    ensures i < |xs| && j < |xs[i]| && k == Offset(xs, i) + j && Flat(xs)[k] == xs[i][j]
  {
    var n := |xs| - 1;
    FlatAround(xs, n);
    assert xs[n + 1..] == [];
    if k < Offset(xs, n) {
      i, j := FlatSource(xs[..n], k);
      assert xs[..n][..i] == xs[..i];
    } else {
      i, j := n, k - Offset(xs, n);
    }
  }

  lemma {:induction false} OffsetMonotone<T>(xs: seq<seq<T>>, i: nat, k: nat)
    requires i <= k <= |xs|
    ensures Offset(xs, i) <= Offset(xs, k) <= |Flat(xs)|
    decreases k - i
  {
    if i < k {
      OffsetMonotone(xs, i, k - 1);
      FlatAround(xs, k - 1);
    } else if k < |xs| {
      FlatAround(xs, k);
    } else {
      assert xs[..k] == xs;
    }
  }
}
