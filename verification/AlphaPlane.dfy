/** The alpha plane of a WebP image: prediction filters and their in-place inverse
    (section 2.7.1.2 of RFC 9649). */
module AlphaPlane {

  type Byte = x: int | 0 <= x < 256

  /** Addition and subtraction of bytes wrap around. */
  function Plus(a: Byte, b: Byte): Byte { if a + b < 256 then a + b else a + b - 256 }
  function Minus(a: Byte, b: Byte): Byte { if a >= b then a - b else a - b + 256 }

  function Clamp(x: int): Byte {
    if x < 0 then 0 else if x > 255 then 255 else x
  }

  /** i is a multiple of stride: the index of a first column. */
  predicate Aligned(i: nat, stride: nat)
    requires stride > 0
  {
    i == 0 || (i >= stride && Aligned(i - stride, stride))
  }

  /** The predicted value of pixel i from the pixels before it in scan order: A is to its left, B above it and C
      above A. The top row predicts from the left and the left column from above, whatever the method. */
  function Predict(p: seq<Byte>, stride: nat, filter: nat, i: nat): Byte
    requires stride > 0 && i <= |p|
  {
    if i == 0 then 0
    else if i < stride then p[i - 1]
    else if Aligned(i - stride, stride) then p[i - stride]
    else
      assert i > stride by { assert Aligned(0, stride); }
      var a: int := p[i - 1];
      var b: int := p[i - stride];
      var c: int := p[i - stride - 1];
      if filter == 1 then a else if filter == 2 then b else if filter == 3 then Clamp(a + b - c) else 0
  }

  /** The first n pixels of the plane whose differences are s. */
  function Restored(s: seq<Byte>, stride: nat, filter: nat, n: nat): (p: seq<Byte>)
    requires stride > 0 && n <= |s|
    ensures |p| == n
  {
    if n == 0 then []
    else
      var before := Restored(s, stride, filter, n - 1);
      before + [Plus(s[n - 1], Predict(before, stride, filter, n - 1))]
  }

  /** The plane after unfiltering: methods 1 to 3 predict, anything else leaves the plane alone. */
  function Unfilter(s: seq<Byte>, stride: nat, filter: nat): seq<Byte> {
    if s == [] || stride == 0 || !(1 <= filter <= 3) then s else Restored(s, stride, filter, |s|)
  }

  /** The forward filter an encoder applies: every pixel minus its prediction. */
  function Filter(p: seq<Byte>, stride: nat, filter: nat): (s: seq<Byte>)
    ensures |s| == |p|
  {
    if p == [] || stride == 0 || !(1 <= filter <= 3) then p
    else seq(|p|, i requires 0 <= i < |p| => Minus(p[i], Predict(p, stride, filter, i)))
  }

  lemma PredictPrefix(p: seq<Byte>, q: seq<Byte>, stride: nat, filter: nat, i: nat)
    requires stride > 0 && i <= |p| && i <= |q| && p[..i] == q[..i]
    ensures Predict(p, stride, filter, i) == Predict(q, stride, filter, i)
  {
    forall k | 0 <= k < i ensures p[k] == q[k] { assert p[k] == p[..i][k] && q[k] == q[..i][k]; }
  }

  lemma FilteredAt(p: seq<Byte>, stride: nat, filter: nat, i: nat)
    requires stride > 0 && 1 <= filter <= 3 && i < |p|
    ensures Plus(Filter(p, stride, filter)[i], Predict(p, stride, filter, i)) == p[i]
  {
    var predicted := Predict(p, stride, filter, i);
    assert Filter(p, stride, filter)[i] == Minus(p[i], predicted);
  }

  lemma RestoredNext(s: seq<Byte>, p: seq<Byte>, stride: nat, filter: nat, n: nat)
    requires stride > 0 && 0 < n <= |p| == |s|
    requires Restored(s, stride, filter, n - 1) == p[..n - 1]
    requires Plus(s[n - 1], Predict(p[..n - 1], stride, filter, n - 1)) == p[n - 1]
    ensures Restored(s, stride, filter, n) == p[..n]
  {
    assert p[..n] == p[..n - 1] + [p[n - 1]];
  }

  lemma RestoredStep(p: seq<Byte>, s: seq<Byte>, stride: nat, filter: nat, n: nat)
    requires stride > 0 && 1 <= filter <= 3 && 0 < n <= |p| && s == Filter(p, stride, filter)
    requires Restored(s, stride, filter, n - 1) == p[..n - 1]
    ensures Restored(s, stride, filter, n) == p[..n]
  {
    var before := p[..n - 1];
    assert before[..n - 1] == before;
    PredictPrefix(p, before, stride, filter, n - 1);
    FilteredAt(p, stride, filter, n - 1);
    RestoredNext(s, p, stride, filter, n);
  }

  lemma {:induction false} RestoredOfFiltered(p: seq<Byte>, stride: nat, filter: nat, n: nat)
    requires stride > 0 && 1 <= filter <= 3 && n <= |p|
    ensures Restored(Filter(p, stride, filter), stride, filter, n) == p[..n]
  {
    if n > 0 {
      RestoredOfFiltered(p, stride, filter, n - 1);
      RestoredStep(p, Filter(p, stride, filter), stride, filter, n);
    }
  }

  lemma {:induction false} RestoredPrefix(s: seq<Byte>, stride: nat, filter: nat, n: nat, m: nat)
    requires stride > 0 && n <= m <= |s|
    ensures Restored(s, stride, filter, m)[..n] == Restored(s, stride, filter, n)
    decreases m
  {
    if n < m {
      RestoredPrefix(s, stride, filter, n, m - 1);
    }
  }

  lemma FilteredOfRestored(s: seq<Byte>, stride: nat, filter: nat, i: nat)
    requires stride > 0 && i < |s|
    ensures var u := Restored(s, stride, filter, |s|); Minus(u[i], Predict(u, stride, filter, i)) == s[i]
  {
    var u, before := Restored(s, stride, filter, |s|), Restored(s, stride, filter, i);
    RestoredPrefix(s, stride, filter, i, |s|);
    RestoredPrefix(s, stride, filter, i + 1, |s|);
    assert before[..i] == before;
    PredictPrefix(u, before, stride, filter, i);
    assert u[i] == u[..i + 1][i];
  }

  /** Unfiltering is a two-sided inverse of filtering, for every plane, stride and method. */
  lemma UnfilterInvertsFilter(p: seq<Byte>, stride: nat, filter: nat)
    ensures Unfilter(Filter(p, stride, filter), stride, filter) == p
    ensures Filter(Unfilter(p, stride, filter), stride, filter) == p
  {
    if p != [] && stride > 0 && 1 <= filter <= 3 {
      RestoredOfFiltered(p, stride, filter, |p|);
      assert p[..|p|] == p;
      forall i | 0 <= i < |p| ensures Filter(Unfilter(p, stride, filter), stride, filter)[i] == p[i] {
        FilteredOfRestored(p, stride, filter, i);
      }
    }
  }

  // ---- whole rows ----

  lemma {:induction false} WholeRows(rows: nat, stride: nat)
    requires stride > 0
    ensures Aligned(rows * stride, stride)
  {
    if rows > 0 {
      WholeRows(rows - 1, stride);
      assert rows * stride == (rows - 1) * stride + stride;
    }
  }

  /** A row that starts inside a plane of whole rows ends inside it, and only its first column is aligned. */
  lemma {:induction false} RowFits(i: nat, n: nat, stride: nat)
    requires stride > 0 && Aligned(i, stride) && Aligned(n, stride) && i < n
    ensures i + stride <= n && Aligned(i + stride, stride)
    decreases i
  {
    if i > 0 { RowFits(i - stride, n - stride, stride); }
  }

  lemma {:induction false} Inside(i: nat, j: nat, stride: nat)
    requires 0 < j < stride && Aligned(i, stride)
    ensures !Aligned(i + j, stride)
    ensures i >= stride ==> !Aligned(i - stride + j, stride)
    decreases i
  {
    if i > 0 { Inside(i - stride, j, stride); }
  }

  // ---- what the plane is, pixel by pixel ----

  /** With differences d the plane q has the value at column x and row y that section 2.7.1.2 of RFC 9649 gives it: the
      difference is added, modulo 256, to the left neighbour in the top row, to the upper one in the left column, and
      elsewhere to the left one by method 1, the upper one by method 2 and the clamped gradient by method 3. */
  predicate PixelOk(d: seq<Byte>, q: seq<Byte>, stride: nat, filter: nat, x: nat, y: nat)
    requires x < stride && stride * y + x < |d| == |q|
    requires y > 0 ==> stride <= stride * y
  {
    var i := stride * y + x;
    var now: int, change: int := q[i], d[i];
    if x == 0 && y == 0 then now == change
    else if y == 0 then now == (change + q[i - 1]) % 256
    else if x == 0 then now == (change + q[i - stride]) % 256
    else
      var left: int, above: int, corner: int := q[i - 1], q[i - stride], q[i - stride - 1];
      && (filter == 1 ==> now == (change + left) % 256)
      && (filter == 2 ==> now == (change + above) % 256)
      && (filter == 3 ==> now == (change + Least(255, Greatest(0, left + above - corner))) % 256)
  }

  function Least(a: int, b: int): int { if a < b then a else b }
  function Greatest(a: int, b: int): int { if a > b then a else b }

  lemma RowStart(stride: nat, y: nat)
    ensures y > 0 ==> stride <= stride * y
  {
    if y > 0 { assert stride * y == stride + stride * (y - 1); }
  }

  ghost predicate PixelHolds(d: seq<Byte>, q: seq<Byte>, stride: nat, filter: nat, x: nat, y: nat) {
    x < stride && stride * y + x < |d| == |q| ==> (RowStart(stride, y); PixelOk(d, q, stride, filter, x, y))
  }

  /** Every pixel is as it should be; a method beyond 3 or 0, or no stride, leaves the plane alone. */
  ghost predicate PlaneOk(d: seq<Byte>, q: seq<Byte>, stride: nat, filter: nat) {
    && |q| == |d|
    && if stride == 0 || !(1 <= filter <= 3) then q == d else forall x: nat, y: nat :: PixelHolds(d, q, stride, filter, x, y)
  }

  lemma RestoredAt(s: seq<Byte>, stride: nat, filter: nat, i: nat)
    requires stride > 0 && i < |s|
    ensures var q := Restored(s, stride, filter, |s|); q[i] == (s[i] as int + Predict(q, stride, filter, i)) % 256
  {
    var q, before := Restored(s, stride, filter, |s|), Restored(s, stride, filter, i);
    RestoredPrefix(s, stride, filter, i, |s|);
    RestoredPrefix(s, stride, filter, i + 1, |s|);
    assert before[..i] == before;
    PredictPrefix(q, before, stride, filter, i);
    assert q[i] == q[..i + 1][i];
  }

  /** The first column is where indices are aligned. */
  lemma ColumnOf(stride: nat, x: nat, y: nat)
    requires x < stride
    ensures Aligned(stride * y + x, stride) <==> x == 0
    ensures y > 0 ==> stride * y >= stride && (Aligned(stride * y + x - stride, stride) <==> x == 0)
  {
    WholeRows(y, stride);
    assert stride * y == y * stride;
    RowStart(stride, y);
    if x > 0 { Inside(stride * y, x, stride); }
    if y > 0 && x == 0 {
      WholeRows(y - 1, stride);
      assert (y - 1) * stride == stride * y - stride;
    }
  }

  lemma PixelRestored(s: seq<Byte>, stride: nat, filter: nat, x: nat, y: nat)
    requires 1 <= filter <= 3 && x < stride && stride * y + x < |s|
    ensures PixelHolds(s, Restored(s, stride, filter, |s|), stride, filter, x, y)
  {
    RestoredAt(s, stride, filter, stride * y + x);
    ColumnOf(stride, x, y);
  }

  /** The restored plane is the one that the differences describe. */
  lemma UnfilterOk(s: seq<Byte>, stride: nat, filter: nat)
    ensures PlaneOk(s, Unfilter(s, stride, filter), stride, filter)
  {
    if s != [] && stride > 0 && 1 <= filter <= 3 {
      var q := Unfilter(s, stride, filter);
      forall x: nat, y: nat ensures PixelHolds(s, q, stride, filter, x, y) {
        if x < stride && stride * y + x < |s| { PixelRestored(s, stride, filter, x, y); }
      }
    }
  }

  /** Column and row of an index. */
  lemma {:induction false} CellOf(i: nat, stride: nat) returns (x: nat, y: nat)
    requires stride > 0
    ensures x < stride && i == stride * y + x
  {
    if i < stride {
      x, y := i, 0;
    } else {
      x, y := CellOf(i - stride, stride);
      assert stride * (y + 1) == stride * y + stride;
      y := y + 1;
    }
  }

  /** The differences determine the plane. */
  lemma {:induction false} PlaneDetermined(d: seq<Byte>, p: seq<Byte>, q: seq<Byte>, stride: nat, filter: nat, n: nat)
    requires PlaneOk(d, p, stride, filter) && PlaneOk(d, q, stride, filter) && n <= |d|
    ensures p[..n] == q[..n]
  {
    if n > 0 && stride > 0 && 1 <= filter <= 3 {
      PlaneDetermined(d, p, q, stride, filter, n - 1);
      var x, y := CellOf(n - 1, stride);
      assert PixelHolds(d, p, stride, filter, x, y) && PixelHolds(d, q, stride, filter, x, y);
      RowStart(stride, y);
      SameBefore(p, q, n - 1);
      assert p[n - 1] == q[n - 1];
      assert p[..n] == p[..n - 1] + [p[n - 1]] && q[..n] == q[..n - 1] + [q[n - 1]];
    }
  }

  lemma SameBefore(p: seq<Byte>, q: seq<Byte>, n: nat)
    requires n <= |p| && n <= |q| && p[..n] == q[..n]
    ensures forall k :: 0 <= k < n ==> p[k] == q[k]
  {
    forall k | 0 <= k < n ensures p[k] == q[k] { assert p[k] == p[..n][k] && q[k] == q[..n][k]; }
  }

  /** Off the top row and the left column a difference is zero exactly if the pixel is its prediction: by method 1 the left
      neighbour, by method 2 the upper one. */
  lemma ZeroDifference(d: seq<Byte>, q: seq<Byte>, stride: nat, filter: nat, x: nat, y: nat)
    requires PlaneOk(d, q, stride, filter) && 0 < x < stride && y > 0 && stride * y + x < |d|
    ensures stride <= stride * y
    ensures filter == 1 ==> (d[stride * y + x] == 0 <==> q[stride * y + x] == q[stride * y + x - 1])
    ensures filter == 2 ==> (d[stride * y + x] == 0 <==> q[stride * y + x] == q[stride * y + x - stride])
  {
    RowStart(stride, y);
    assert PixelHolds(d, q, stride, filter, x, y);
  }

  /** A plane that rises evenly in both directions. */
  ghost predicate Even(q: seq<Byte>, stride: nat, right: int, down: int, start: int) {
    forall x: nat, y: nat :: x < stride && stride * y + x < |q| ==> EvenAt(q, stride, right, down, start, x, y)
  }

  predicate EvenAt(q: seq<Byte>, stride: nat, right: int, down: int, start: int, x: nat, y: nat)
    requires stride * y + x < |q|
  {
    q[stride * y + x] == right * x + down * y + start
  }

  lemma EvenNeighbours(right: int, down: int, start: int, x: nat, y: nat)
    requires x > 0 && y > 0
    ensures (right * (x - 1) + down * y + start) + (right * x + down * (y - 1) + start) - (right * (x - 1) + down * (y - 1) + start)
            == right * x + down * y + start
  {
  }

  lemma UpperCell(stride: nat, x: nat, y: nat)
    requires y > 0
    ensures stride * (y - 1) + x == stride * y + x - stride
  {
  }

  /** By method 3 its differences are zero off the top row and the left column. */
  lemma EvenPlane(d: seq<Byte>, q: seq<Byte>, stride: nat, right: int, down: int, start: int, x: nat, y: nat)
    requires PlaneOk(d, q, stride, 3) && Even(q, stride, right, down, start)
    requires 0 < x < stride && y > 0 && stride * y + x < |d|
    ensures d[stride * y + x] == 0
  {
    RowStart(stride, y);
    UpperCell(stride, x, y);
    UpperCell(stride, x - 1, y);
    assert PixelHolds(d, q, stride, 3, x, y);
    assert EvenAt(q, stride, right, down, start, x, y) && EvenAt(q, stride, right, down, start, x - 1, y);
    assert EvenAt(q, stride, right, down, start, x, y - 1) && EvenAt(q, stride, right, down, start, x - 1, y - 1);
    EvenNeighbours(right, down, start, x, y);
  }

  // ---- in place ----

  /** The first n bytes have been restored, the rest are still differences. */
  ghost predicate Halfway(alpha: array<Byte>, s: seq<Byte>, stride: nat, filter: nat, n: nat)
    reads alpha
  {
    && stride > 0 && n <= alpha.Length == |s|
    && alpha[..n] == Restored(s, stride, filter, n)
    && alpha[n..] == s[n..]
  }

  /** Adding its prediction to byte n. */
  method RestoreByte(alpha: array<Byte>, ghost s: seq<Byte>, ghost stride: nat, ghost filter: nat, n: nat, predicted: Byte)
    requires n < alpha.Length && Halfway(alpha, s, stride, filter, n)
    requires predicted == Predict(alpha[..n], stride, filter, n)
    modifies alpha
    ensures Halfway(alpha, s, stride, filter, n + 1)
  {
    assert alpha[n] == alpha[n..][0] == s[n..][0] == s[n];
    alpha[n] := Plus(alpha[n], predicted);
    assert alpha[..n + 1] == old(alpha[..n]) + [alpha[n]];
    assert alpha[n + 1..] == old(alpha[n..])[1..] == s[n..][1..] == s[n + 1..];
  }

  /** The top row, which every method predicts from the left. */
  method RestoreTopRow(alpha: array<Byte>, ghost s: seq<Byte>, stride: nat, ghost filter: nat)
    requires 0 < stride <= alpha.Length && s == alpha[..]
    modifies alpha
    ensures Halfway(alpha, s, stride, filter, stride)
  {
    assert Restored(s, stride, filter, 1) == [s[0]] by {
      assert Restored(s, stride, filter, 0) == [];
    }
    for i := 1 to stride
      invariant Halfway(alpha, s, stride, filter, i)
    {
      RestoreByte(alpha, s, stride, filter, i, alpha[i - 1]);
    }
  }

  /** What an interior pixel is predicted from, in terms of the array. */
  method PredictInterior(alpha: array<Byte>, stride: nat, filter: nat, i: nat, j: nat) returns (r: Byte)
    requires filter == 1 || filter == 3
    requires 0 < j < stride <= i && Aligned(i, stride) && i + j < alpha.Length
    ensures r == Predict(alpha[..i + j], stride, filter, i + j)
  {
    Inside(i, j, stride);
    var a: int := alpha[i + j - 1];
    if filter == 1 {
      r := a;
    } else {
      var b: int := alpha[i + j - stride];
      var c: int := alpha[i + j - stride - 1];
      r := Clamp(a + b - c);
    }
  }

  /** One row below the top row, for methods 1 and 3. */
  method RestoreRow(alpha: array<Byte>, ghost s: seq<Byte>, stride: nat, filter: nat, i: nat)
    requires filter == 1 || filter == 3
    requires Halfway(alpha, s, stride, filter, i) && 0 < stride <= i && Aligned(i, stride) && i + stride <= alpha.Length
    modifies alpha
    ensures Halfway(alpha, s, stride, filter, i + stride)
  {
    RestoreByte(alpha, s, stride, filter, i, alpha[i - stride]);
    for j := 1 to stride
      invariant Halfway(alpha, s, stride, filter, i + j)
    {
      RestoreInterior(alpha, s, stride, filter, i, j);
    }
  }

  method RestoreInterior(alpha: array<Byte>, ghost s: seq<Byte>, stride: nat, filter: nat, i: nat, j: nat)
    requires filter == 1 || filter == 3
    requires 0 < j < stride <= i && Aligned(i, stride) && i + j < alpha.Length && Halfway(alpha, s, stride, filter, i + j)
    modifies alpha
    ensures Halfway(alpha, s, stride, filter, i + j + 1)
  {
    var predicted := PredictInterior(alpha, stride, filter, i, j);
    RestoreByte(alpha, s, stride, filter, i + j, predicted);
  }

  /** Unfilters the plane in place. Methods 1 and 3 walk row by row, so the plane must consist of whole rows;
      method 2 needs one whole row. */
  method UnfilterAlpha(alpha: array<Byte>, stride: nat, filter: nat)
    requires alpha.Length > 0 && stride > 0 && (filter == 1 || filter == 3) ==> Aligned(alpha.Length, stride)
    requires alpha.Length > 0 && filter == 2 ==> stride <= alpha.Length
    modifies alpha
    ensures alpha[..] == Unfilter(old(alpha[..]), stride, filter)
    ensures PlaneOk(old(alpha[..]), alpha[..], stride, filter)
  {
    UnfilterOk(alpha[..], stride, filter);
    if alpha.Length == 0 || stride == 0 || !(1 <= filter <= 3) { return; }
    ghost var s := alpha[..];
    RestoreTopRow(alpha, s, stride, filter);
    if filter == 2 {
      RestoreColumns(alpha, s, stride, filter);
    } else {
      RestoreRows(alpha, s, stride, filter);
    }
    assert alpha[..alpha.Length] == alpha[..];
  }

  /** Everything below the top row, for method 2. */
  method RestoreColumns(alpha: array<Byte>, ghost s: seq<Byte>, stride: nat, ghost filter: nat)
    requires filter == 2 && 0 < stride <= alpha.Length && Halfway(alpha, s, stride, filter, stride)
    modifies alpha
    ensures Halfway(alpha, s, stride, filter, alpha.Length)
  {
    for i := stride to alpha.Length
      invariant Halfway(alpha, s, stride, filter, i)
    {
      RestoreByte(alpha, s, stride, filter, i, alpha[i - stride]);
    }
  }

  /** Everything below the top row, row by row, for methods 1 and 3. */
  method RestoreRows(alpha: array<Byte>, ghost s: seq<Byte>, stride: nat, filter: nat)
    requires filter == 1 || filter == 3
    requires 0 < stride <= alpha.Length && Aligned(alpha.Length, stride) && Halfway(alpha, s, stride, filter, stride)
    modifies alpha
    ensures Halfway(alpha, s, stride, filter, alpha.Length)
  {
    var i := stride;
    while i < alpha.Length
      invariant stride <= i <= alpha.Length && Aligned(i, stride)
      invariant Halfway(alpha, s, stride, filter, i)
    {
      RowFits(i, alpha.Length, stride);
      RestoreRow(alpha, s, stride, filter, i);
      i := i + stride;
    }
  }
}
