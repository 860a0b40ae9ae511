/** Shared vocabulary of the model: the rectangular numeric table that every
    reader produces (a numpy 2-D array, with cells left opaque), the column
    selections numpy performs on it, and the one exception that the modelled
    code lets escape. */
module Tables {

  datatype Option<T> = None | Some(value: T)

  /** The result of a computation that may raise numpy's IndexError, which
      none of the modelled callers catches. */
  datatype Outcome<R> = Normal(value: R) | IndexError

  /** The kind of message box a widget shows. */
  datatype Notice = Warning | Information | Critical

  datatype RawTable<T> = Table(rows: seq<seq<T>>, width: nat)

  predicate Rectangular<T>(t: RawTable<T>)
  {
    forall i :: 0 <= i < |t.rows| ==> |t.rows[i]| == t.width
  }

  /** A `rows x width` array; like a numpy shape, the width is kept when
      there are no rows. */
  type Table<T> = t: RawTable<T> | Rectangular(t) witness Table([], 0)

  /** Every index of `cols` names a column of a `width`-wide table. */
  predicate AllBelow(cols: seq<nat>, width: nat)
  {
    forall k :: 0 <= k < |cols| ==> cols[k] < width
  }

  /** `data[:, c]`: one column as a vector, top to bottom. */
  function Column<T>(t: Table<T>, c: nat): (v: seq<T>)
    requires c < t.width
    ensures |v| == |t.rows|
    ensures forall i :: 0 <= i < |v| ==> v[i] == t.rows[i][c]
  {
    seq(|t.rows|, i requires 0 <= i < |t.rows| => t.rows[i][c])
  }

  /** `data[:, cols]`: the listed columns, in list order (repeats allowed),
      every row kept. */
  function SelectColumns<T>(t: Table<T>, cols: seq<nat>): (s: Table<T>)
    requires AllBelow(cols, t.width)
    ensures s.width == |cols| && |s.rows| == |t.rows|
    ensures forall i, k :: 0 <= i < |s.rows| && 0 <= k < |cols| ==> s.rows[i][k] == t.rows[i][cols[k]]
  {
    Table(seq(|t.rows|, i requires 0 <= i < |t.rows| =>
                seq(|cols|, k requires 0 <= k < |cols| => t.rows[i][cols[k]])),
          |cols|)
  }

  /** `a.T`: row j of the result is column j of `t`. */
  function Transpose<T>(t: Table<T>): (u: Table<T>)
    ensures |u.rows| == t.width && u.width == |t.rows|
    ensures forall j, i :: 0 <= j < t.width && 0 <= i < |t.rows| ==> u.rows[j][i] == t.rows[i][j]
  {
    Table(seq(t.width, j requires 0 <= j < t.width => Column(t, j)), |t.rows|)
  }

  /** Two tables are equal when they agree on shape and on every cell. */
  lemma {:induction false} TableExtensionality<T>(t: Table<T>, u: Table<T>)
    requires |t.rows| == |u.rows| && t.width == u.width
    requires forall i, j :: 0 <= i < |t.rows| && 0 <= j < t.width ==> t.rows[i][j] == u.rows[i][j]
    ensures t == u
  {
    forall i | 0 <= i < |t.rows|
      ensures t.rows[i] == u.rows[i]
    {
      assert |t.rows[i]| == t.width == |u.rows[i]|;
    }
  }

  /** Transposing twice gives the table back, whatever its shape. */
  lemma {:induction false} TransposeTwice<T>(t: Table<T>)
    ensures Transpose(Transpose(t)) == t
  {
    var u := Transpose(Transpose(t));
    TableExtensionality(u, t);
  }
}
