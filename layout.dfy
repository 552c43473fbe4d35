/** Row-major storage of a table: the flat vector the Dataset keeps and the
    flat `x_values` the models' IModel entry points receive, with the
    reshape `out[i][j] = data[i * c + j]` they all use. */
module Layout {

  /** The rows laid end to end. */
  function Flatten(rows: seq<seq<real>>): seq<real>
  {
    if |rows| == 0 then [] else rows[0] + Flatten(rows[1..])
  }

  /** Every row has exactly c entries. */
  predicate Rect(rows: seq<seq<real>>, c: int)
  {
    forall i :: 0 <= i < |rows| ==> |rows[i]| == c
  }

  /** Consecutive chunks of c values, as many whole rows as fit; a trailing
      partial row is dropped. */
  function Reshape(data: seq<real>, c: nat): (r: seq<seq<real>>)
    requires c > 0
    ensures Rect(r, c)
    decreases |data|
  {
    if |data| < c then [] else [data[..c]] + Reshape(data[c..], c)
  }

  lemma MulAtLeast(a: int, c: int)
    requires a >= 1 && c > 0
    ensures a * c >= c
  {
  }

  /** Quotient and remainder are determined by n == q * c + r, 0 <= r < c. */
  lemma DivUnique(n: int, c: int, q: int, r: int)
    requires c > 0 && 0 <= r < c && n == q * c + r
    ensures n / c == q
  {
    var q', r' := n / c, n % c;
    assert n == q' * c + r';
    assert (q - q') * c == r' - r;
    if q > q' {
      MulAtLeast(q - q', c);
      assert false;
    }
    if q < q' {
      MulAtLeast(q' - q, c);
      assert false;
    }
  }

  lemma DivStep(n: nat, c: nat)
    requires c > 0 && n >= c
    ensures (n - c) / c + 1 == n / c
    ensures c + ((n - c) / c) * c == (n / c) * c
  {
    var q := (n - c) / c;
    var r := (n - c) % c;
    assert n - c == q * c + r;
    assert n == (q + 1) * c + r;
    DivUnique(n, c, q + 1, r);
  }

  /** The reshaped table has floor(|data| / c) rows. */
  lemma {:induction false} ReshapeLength(data: seq<real>, c: nat)
    requires c > 0
    ensures |Reshape(data, c)| == |data| / c
    decreases |data|
  {
    if |data| >= c {
      ReshapeLength(data[c..], c);
      DivStep(|data|, c);
    }
  }

  lemma ShiftIndex(i: int, c: int, j: int)
    ensures c + ((i - 1) * c + j) == i * c + j
  {
  }

  /** Entry (i, j) of the reshaped table is data[i * c + j]. */
  lemma {:induction false} ReshapeIndex(data: seq<real>, c: nat, i: int, j: int)
    requires c > 0 && 0 <= i < |data| / c && 0 <= j < c
    ensures i * c + j < |data|
    ensures |Reshape(data, c)| == |data| / c
    ensures Reshape(data, c)[i][j] == data[i * c + j]
    decreases i
  {
    ReshapeLength(data, c);
    DivStep(|data|, c);
    if i > 0 {
      ReshapeIndex(data[c..], c, i - 1, j);
      ShiftIndex(i, c, j);
    }
  }

  /** Row i of the reshaped table is the slice data[i * c .. i * c + c]. */
  lemma ReshapeRow(data: seq<real>, c: nat, i: int)
    requires c > 0 && 0 <= i < |data| / c
    ensures i * c + c <= |data|
    ensures |Reshape(data, c)| == |data| / c
    ensures Reshape(data, c)[i] == data[i * c..i * c + c]
  {
    ReshapeIndex(data, c, i, c - 1);
    forall j | 0 <= j < c ensures Reshape(data, c)[i][j] == data[i * c + j] {
      ReshapeIndex(data, c, i, j);
    }
  }

  /** A table of width c laid flat has |rows| * c values. */
  lemma {:induction false} FlattenLength(rows: seq<seq<real>>, c: nat)
    requires Rect(rows, c)
    ensures |Flatten(rows)| == |rows| * c
  {
    if |rows| > 0 {
      FlattenLength(rows[1..], c);
    }
  }

  /** Appending one more row appends its values. */
  lemma {:induction false} FlattenSnoc(rows: seq<seq<real>>, r: seq<real>)
    ensures Flatten(rows + [r]) == Flatten(rows) + r
  {
    if |rows| > 0 {
      assert (rows + [r])[1..] == rows[1..] + [r];
      FlattenSnoc(rows[1..], r);
    } else {
      assert rows + [r] == [r];
    }
  }

  /** Reshaping a flattened rectangular table gives back its rows. */
  lemma {:induction false} ReshapeFlatten(rows: seq<seq<real>>, c: nat)
    requires c > 0 && Rect(rows, c)
    ensures Reshape(Flatten(rows), c) == rows
  {
    if |rows| > 0 {
      FlattenLength(rows[1..], c);
      var d := Flatten(rows);
      assert d == rows[0] + Flatten(rows[1..]);
      assert d[..c] == rows[0];
      assert d[c..] == Flatten(rows[1..]);
      ReshapeFlatten(rows[1..], c);
      assert rows == [rows[0]] + rows[1..];
    }
  }

  /** Flattening the reshaped table gives the data up to the last whole row. */
  lemma {:induction false} FlattenReshape(data: seq<real>, c: nat)
    requires c > 0
    ensures (|data| / c) * c <= |data|
    ensures Flatten(Reshape(data, c)) == data[..(|data| / c) * c]
    decreases |data|
  {
    if |data| < c {
      DivUnique(|data|, c, 0, |data|);
    } else {
      var rest := data[c..];
      FlattenReshape(rest, c);
      var k := (|rest| / c) * c;
      DivStep(|data|, c);
      assert |rest| == |data| - c;
      assert c + k == (|data| / c) * c;
      assert Flatten(Reshape(data, c)) == data[..c] + Flatten(Reshape(rest, c));
      PrefixJoin(data, c, k);
    }
  }

  lemma PrefixJoin(data: seq<real>, c: nat, k: nat)
    requires c + k <= |data|
    ensures data[..c] + data[c..][..k] == data[..c + k]
  {
  }

  /** The nested fill loop of the flat entry points: row i, column j is
      data[i * c + j], for every whole row. */
  method ReshapeRows(data: seq<real>, c: nat) returns (out: seq<seq<real>>)
    requires c > 0
    ensures out == Reshape(data, c)
  {
    var nRows := |data| / c;
    ReshapeLength(data, c);
    out := [];
    for i := 0 to nRows
      invariant |out| == i
      invariant forall k :: 0 <= k < i ==> out[k] == Reshape(data, c)[k]
    {
      var row: seq<real> := [];
      for j := 0 to c
        invariant |row| == j
        invariant forall m :: 0 <= m < j ==> row[m] == Reshape(data, c)[i][m]
      {
        ReshapeIndex(data, c, i, j);
        row := row + [data[i * c + j]];
      }
      out := out + [row];
    }
  }

  /** A non-empty vector holding whole rows holds at least one row. */
  lemma WholeRowsPositive(n: nat, c: nat)
    requires c > 0 && n > 0 && n % c == 0
    ensures n / c > 0
  {
    assert n == (n / c) * c + n % c;
  }

  /** Row i of the flat input, copied out entry by entry: x[i * c + j] for
      every column j. */
  method RowOf(x: seq<real>, c: nat, i: nat) returns (row: seq<real>)
    requires c > 0 && i < |x| / c
    ensures |Reshape(x, c)| == |x| / c && row == Reshape(x, c)[i] && |row| == c
  {
    ReshapeRow(x, c, i);
    row := [];
    for j := 0 to c
      invariant row == x[i * c..i * c + j]
    {
      row := row + [x[i * c + j]];
    }
  }
}
