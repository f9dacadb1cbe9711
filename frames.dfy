/**
 * The slice of pandas that `check_trade_signal` touches: a DataFrame as its
 * rows in index order (oldest first), each row indexed by column label, and
 * the two operations that can raise, positional `iloc[-1]` and column lookup.
 */
module Frames {
  import opened Float64

  /** One row of a DataFrame, `Series`-like: column label to value. */
  type Row = map<string, Float>

  /** A DataFrame: its rows, oldest first. */
  type Frame = seq<Row>

  /** The exceptions the two lookups raise. */
  datatype Exception = IndexError | KeyError(column: string)

  /** A Python evaluation: a value, or the exception it raised. */
  datatype Eval<+T> = Ok(value: T) | Raised(error: Exception) {
    predicate IsFailure() { Raised? }

    function PropagateFailure<U>(): Eval<U>
      requires Raised?
    {
      Raised(error)
    }

    function Extract(): T
      requires Ok?
    {
      value
    }
  }

  /** `df.iloc[-1]`: the newest row; an empty frame raises IndexError. */
  function ILocLast(df: Frame): (r: Eval<Row>)
    ensures r == Raised(IndexError) <==> |df| == 0
    ensures r.Ok? ==> r.value == df[|df| - 1]
  {
    if |df| == 0 then Raised(IndexError) else Ok(df[|df| - 1])
  }

  /** `row[column]`: a missing column raises KeyError. */
  function Get(row: Row, column: string): (r: Eval<Float>)
    ensures r == Raised(KeyError(column)) <==> column !in row
  {
    if column in row then Ok(row[column]) else Raised(KeyError(column))
  }

  /** `iloc[-1]` gives the row appended last, whatever came before it. */
  lemma ILocLastOfAppend(older: Frame, newest: Row)
    ensures ILocLast(older + [newest]) == Ok(newest)
  {
  }

  /** A lookup sees the value last assigned to its label, and no other assignment. */
  lemma GetAfterAssign(row: Row, column: string, other: string, v: Float)
    ensures Get(row[column := v], column) == Ok(v)
    ensures other != column ==> Get(row[other := v], column) == Get(row, column)
  {
  }
}
