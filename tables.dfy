/** Tables as the anonymise route sees them after `pd.read_csv(..., dtype=str)`, the header
    normalisation, and the column-selective rewrite loop. */
module Tables {
  import opened Base
  import opened Text
  import opened Cells

  /** Column names in file order and rows of optional text cells. */
  datatype Frame = Frame(columns: seq<string>, rows: seq<seq<Cell>>)

  /** Every row has one cell per column, as in a DataFrame. */
  predicate Rectangular(f: Frame) {
    forall i | 0 <= i < |f.rows| :: |f.rows[i]| == |f.columns|
  }

  type Table = f: Frame | Rectangular(f) witness Frame([], [])

  /** pandas' `DataFrame.empty`: true when either axis has length zero. */
  predicate IsEmptyFrame(t: Table): (b: bool)
    ensures b <==> forall i | 0 <= i < |t.rows| :: t.rows[i] == []
  {
    if |t.rows| == 0 then true
    else if |t.columns| == 0 then
      assert forall i | 0 <= i < |t.rows| :: |t.rows[i]| == 0;
      true
    else
      assert |t.rows[0]| > 0;
      false
  }

  /** The header rewrite after each read: every column name is normalised in place, and
      the cells are left alone. */
  function NormalizeHeaders(t: Table): (r: Table)
    ensures r.rows == t.rows && |r.columns| == |t.columns|
    ensures forall j | 0 <= j < |t.columns| :: r.columns[j] == NormalizeHeader(t.columns[j])
    ensures forall j | 0 <= j < |r.columns| :: Trimmed(r.columns[j])
  {
    Frame(seq(|t.columns|, j requires 0 <= j < |t.columns| => NormalizeHeader(t.columns[j])), t.rows)
  }

  /** How often `x` occurs in `xs`; positive exactly when `x in xs`. */
  function CountOf(xs: seq<string>, x: string): (n: nat)
    ensures n > 0 <==> x in xs
    ensures n <= |xs|
  {
    if xs == [] then 0
    else
      assert xs == [xs[0]] + xs[1..];
      (if xs[0] == x then 1 else 0) + CountOf(xs[1..], x)
  }

  /** The position of `x` in `xs`. */
  function IndexOf(xs: seq<string>, x: string): (k: nat)
    requires x in xs
    ensures k < |xs| && xs[k] == x
  {
    if xs[0] == x then 0 else 1 + IndexOf(xs[1..], x)
  }

  /** A name that occurs once occurs at one position only. */
  lemma {:induction false} CountOfOnce(xs: seq<string>, x: string, a: nat, b: nat)
    requires CountOf(xs, x) == 1
    requires a < |xs| && b < |xs| && xs[a] == x && xs[b] == x
    ensures a == b
  {
    if a != 0 && b != 0 {
      CountOfOnce(xs[1..], x, a - 1, b - 1);
    }
  }

  /** `df[col] = df[col].apply(lambda x: anonymize_value(x, secret_key))` for the column at
      position `j`: that column's cells are anonymised, every other cell, the header and the
      row order stay as they are. */
  function AnonymizeColumn(t: Table, j: nat, key: string, hmac: Hmac): (r: Table)
    requires j < |t.columns|
    ensures r.columns == t.columns && |r.rows| == |t.rows|
    ensures forall i, k | 0 <= i < |t.rows| && 0 <= k < |t.columns| ::
      r.rows[i][k] == if k == j then AnonymizeValue(t.rows[i][k], key, hmac) else t.rows[i][k]
  {
    Frame(t.columns, seq(|t.rows|, i requires 0 <= i < |t.rows| =>
      t.rows[i][j := AnonymizeValue(t.rows[i][j], key, hmac)]))
  }

  /** Why the rewrite loop can fail. */
  datatype ColumnError =
    /** The requested name labels several columns after normalisation, so `df[col]` is a
        DataFrame and `anonymize_value` receives a whole column, whose truth value pandas
        refuses to decide. */
    AmbiguousColumn(name: string)

  /** One pass of the loop body: `if col in df.columns: df[col] = ...`. */
  function AnonymizeStep(t: Table, col: string, key: string, hmac: Hmac): (r: Result<Table, ColumnError>)
    ensures col !in t.columns ==> r == Success(t)
    ensures r.Failure? <==> CountOf(t.columns, col) > 1
    ensures r.Failure? ==> r.error == AmbiguousColumn(col)
    ensures r.Success? ==> r.value.columns == t.columns && |r.value.rows| == |t.rows|
  {
    if col !in t.columns then Success(t)
    else if CountOf(t.columns, col) > 1 then Failure(AmbiguousColumn(col))
    else Success(AnonymizeColumn(t, IndexOf(t.columns, col), key, hmac))
  }

  /** A step on a name that labels exactly one column anonymises every cell under that
      name and no other cell. */
  lemma AnonymizeStepCells(t: Table, col: string, key: string, hmac: Hmac)
    requires CountOf(t.columns, col) == 1
    ensures AnonymizeStep(t, col, key, hmac).Success?
    ensures forall i, j | 0 <= i < |t.rows| && 0 <= j < |t.columns| ::
      AnonymizeStep(t, col, key, hmac).value.rows[i][j]
        == if t.columns[j] == col then AnonymizeValue(t.rows[i][j], key, hmac) else t.rows[i][j]
  {
    var k := IndexOf(t.columns, col);
    forall j | 0 <= j < |t.columns| && t.columns[j] == col
      ensures j == k
    {
      CountOfOnce(t.columns, col, j, k);
    }
  }

  /** The whole loop `for col in columns_to_anonymize`, in request order. */
  function ColumnsAnonymized(t: Table, requested: seq<string>, key: string, hmac: Hmac): (r: Result<Table, ColumnError>)
    ensures r.Success? ==> r.value.columns == t.columns && |r.value.rows| == |t.rows|
    decreases |requested|
  {
    if requested == [] then Success(t)
    else
      match AnonymizeStep(t, requested[0], key, hmac)
      case Failure(e) => Failure(e)
      case Success(next) => ColumnsAnonymized(next, requested[1..], key, hmac)
  }

  /** The rewrite loop of the anonymise route, one requested name at a time. */
  method AnonymizeSelected(t: Table, requested: seq<string>, key: string, hmac: Hmac)
    returns (r: Result<Table, ColumnError>)
    ensures r == ColumnsAnonymized(t, requested, key, hmac)
  {
    var df := t;
    for i := 0 to |requested|
      invariant ColumnsAnonymized(df, requested[i..], key, hmac) == ColumnsAnonymized(t, requested, key, hmac)
    {
      var col := requested[i];
      assert requested[i..][0] == col && requested[i..][1..] == requested[i + 1..];
      if col in df.columns {
        if CountOf(df.columns, col) > 1 {
          return Failure(AmbiguousColumn(col));
        }
        df := AnonymizeColumn(df, IndexOf(df.columns, col), key, hmac);
      }
    }
    assert requested[|requested|..] == [];
    return Success(df);
  }

  /** The loop fails exactly when some requested name labels more than one column. */
  lemma {:induction false} ColumnsAnonymizedFails(t: Table, requested: seq<string>, key: string, hmac: Hmac)
    ensures ColumnsAnonymized(t, requested, key, hmac).Failure?
        <==> exists k | 0 <= k < |requested| :: CountOf(t.columns, requested[k]) > 1
    decreases |requested|
  {
    if requested != [] {
      var col := requested[0];
      match AnonymizeStep(t, col, key, hmac)
      case Failure(_) =>
      case Success(next) =>
        assert next.columns == t.columns;
        ColumnsAnonymizedFails(next, requested[1..], key, hmac);
        if exists k | 0 <= k < |requested| :: CountOf(t.columns, requested[k]) > 1 {
          var k :| 0 <= k < |requested| && CountOf(t.columns, requested[k]) > 1;
          assert k != 0;
          assert requested[1..][k - 1] == requested[k];
        }
        if exists k | 0 <= k < |requested[1..]| :: CountOf(t.columns, requested[1..][k]) > 1 {
          var k :| 0 <= k < |requested[1..]| && CountOf(t.columns, requested[1..][k]) > 1;
          assert requested[k + 1] == requested[1..][k];
        }
    }
  }

  /** On success every cell has been anonymised once per occurrence of its column's name
      in the request: untouched when the name is not requested, and names absent from the
      header change nothing. */
  lemma {:induction false} ColumnsAnonymizedCells(t: Table, requested: seq<string>, key: string, hmac: Hmac)
    requires ColumnsAnonymized(t, requested, key, hmac).Success?
    ensures forall i, j | 0 <= i < |t.rows| && 0 <= j < |t.columns| ::
      ColumnsAnonymized(t, requested, key, hmac).value.rows[i][j]
        == AnonymizeRepeated(t.rows[i][j], CountOf(requested, t.columns[j]), key, hmac)
    decreases |requested|
  {
    if requested != [] {
      var col := requested[0];
      assert requested == [col] + requested[1..];
      var next := AnonymizeStep(t, col, key, hmac).value;
      ColumnsAnonymizedCells(next, requested[1..], key, hmac);
      if col in t.columns {
        AnonymizeStepCells(t, col, key, hmac);
      }
      var r := ColumnsAnonymized(t, requested, key, hmac).value;
      assert r == ColumnsAnonymized(next, requested[1..], key, hmac).value;
      forall i, j | 0 <= i < |t.rows| && 0 <= j < |t.columns|
        ensures r.rows[i][j] == AnonymizeRepeated(t.rows[i][j], CountOf(requested, t.columns[j]), key, hmac)
      {
        var rest := CountOf(requested[1..], t.columns[j]);
        if t.columns[j] == col {
          assert next.rows[i][j] == AnonymizeValue(t.rows[i][j], key, hmac);
          assert CountOf(requested, t.columns[j]) == rest + 1;
        } else {
          assert next.rows[i][j] == t.rows[i][j];
          assert CountOf(requested, t.columns[j]) == rest;
        }
      }
    }
  }

  /** The two cases the route relies on: a column not requested is copied as is, and a
      column requested once has each cell replaced by `anonymize_value` of it. */
  lemma ColumnsAnonymizedOnceOrNot(t: Table, requested: seq<string>, key: string, hmac: Hmac, i: nat, j: nat)
    requires ColumnsAnonymized(t, requested, key, hmac).Success?
    requires i < |t.rows| && j < |t.columns|
    ensures t.columns[j] !in requested ==>
      ColumnsAnonymized(t, requested, key, hmac).value.rows[i][j] == t.rows[i][j]
    ensures CountOf(requested, t.columns[j]) == 1 ==>
      ColumnsAnonymized(t, requested, key, hmac).value.rows[i][j] == AnonymizeValue(t.rows[i][j], key, hmac)
  {
    ColumnsAnonymizedCells(t, requested, key, hmac);
  }
}
