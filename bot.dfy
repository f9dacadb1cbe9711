/**
 * The entry-signal rule of the BTCUSDT margin bot: from the newest 15-minute
 * row and the newest 1-hour row of indicator frames it answers "long",
 * "short" or nothing.
 *
 * `CheckTradeSignal` follows the Python evaluation step by step (which
 * lookups happen, in which order, where `and` stops early, and that every
 * exception ends in no signal). `Decide` over `Latest15m`/`Latest1h` is the
 * same rule stated on complete rows; the contract of `CheckTradeSignal` ties
 * the two together, and the lemmas below state the rule in terms of the
 * indicator values themselves.
 */
module Bot {
  import opened Float64
  import opened Frames

  datatype Signal = Long | Short | NoSignal

  datatype Option<+T> = None | Some(value: T)

  // Column labels written by the indicator step.
  const Close: string := "close"
  const Ema21: string := "ema21"
  const Ema50: string := "ema50"
  const Adx: string := "adx"
  const Atr1h: string := "atr_1h"
  const StochRsiK: string := "stoch_rsi_k"
  const StochRsiD: string := "stoch_rsi_d"

  // Thresholds of the rule (the literals 20, 0.006 and 20).
  const AdxFloor: real := 20.0
  // The exact real 0.006; the float64 literal in the source is the nearest
  // double, which lies slightly above it.
  const AtrRatioFloor: real := 0.006
  const OversoldCeiling: real := 20.0

  /** The labels the rule reads from the 1-hour row and from the 15-minute row. */
  const Labels1h: set<string> := {Close, Ema21, Ema50, Adx, Atr1h}
  const Labels15m: set<string> := {StochRsiK, StochRsiD}

  // ---------------------------------------------------------------------
  // The rule as the Python evaluates it
  // ---------------------------------------------------------------------

  /**
   * An operand of a comparison in the rule: a column of the row, a number
   * literal (the int literals 20 compare as the float 20.0), or the quotient
   * of two columns.
   */
  datatype Operand = Column(name: string) | Literal(x: real) | Ratio(num: string, den: string)

  /** `lhs > rhs` or `lhs < rhs`. */
  datatype Comparison = Greater(lhs: Operand, rhs: Operand) | Less(lhs: Operand, rhs: Operand)

  /** The columns an operand reads. */
  function ColumnsOf(o: Operand): set<string>
  {
    match o
    case Column(n) => {n}
    case Literal(_) => {}
    case Ratio(n, d) => {n, d}
  }

  /** A comparison can be evaluated on `row` without a KeyError. */
  predicate Defined(c: Comparison, row: Row)
  {
    ColumnsOf(c.lhs) + ColumnsOf(c.rhs) <= row.Keys
  }

  /** The value of an operand on a row that has its columns. */
  function ValueOf(o: Operand, row: Row): Float
    requires ColumnsOf(o) <= row.Keys
  {
    match o
    case Column(n) => row[n]
    case Literal(x) => Num(x)
    case Ratio(n, d) => Div(row[n], row[d])
  }

  /** What a defined comparison yields under IEEE 754. */
  predicate Holds(c: Comparison, row: Row)
    requires Defined(c, row)
  {
    match c
    case Greater(l, r) => Gt(ValueOf(l, row), ValueOf(r, row))
    case Less(l, r) => Lt(ValueOf(l, row), ValueOf(r, row))
  }

  predicate Passes(c: Comparison, row: Row)
  {
    Defined(c, row) && Holds(c, row)
  }

  /** Every comparison before position `i` passes. */
  predicate PrefixPasses(cs: seq<Comparison>, row: Row, i: nat)
    requires i <= |cs|
  {
    forall j :: 0 <= j < i ==> Passes(cs[j], row)
  }

  /** Evaluation stops first at comparison `i`, which is defined and false. */
  predicate FailsAt(cs: seq<Comparison>, row: Row, i: nat)
    requires i < |cs|
  {
    PrefixPasses(cs, row, i) && Defined(cs[i], row) && !Holds(cs[i], row)
  }

  /** Evaluation stops first at comparison `i`, which reads a missing column. */
  predicate RaisesAt(cs: seq<Comparison>, row: Row, i: nat)
    requires i < |cs|
  {
    PrefixPasses(cs, row, i) && !Defined(cs[i], row)
  }

  /**
   * Python's evaluation of one operand: it raises exactly when a column it
   * reads is missing, and otherwise gives the operand's value. Columns are
   * read left to right, so a quotient with both columns missing raises on
   * the numerator (`atr_1h` before `close`).
   */
  function EvalOperand(o: Operand, row: Row): (r: Eval<Float>)
    ensures r.Ok? <==> ColumnsOf(o) <= row.Keys
    ensures r.Ok? ==> r.value == ValueOf(o, row)
    ensures o.Ratio? && o.num !in row ==> r == Raised(KeyError(o.num))
    ensures o.Ratio? && o.num in row && o.den !in row ==> r == Raised(KeyError(o.den))
  {
    match o
    case Column(n) => Get(row, n)
    case Literal(x) => Ok(Num(x))
    case Ratio(n, d) =>
      var x :- Get(row, n);
      var y :- Get(row, d);
      Ok(Div(x, y))
  }

  /**
   * Python's evaluation of one comparison, left operand first: it raises
   * exactly when a column it reads is missing, and otherwise gives what the
   * comparison yields under IEEE 754.
   */
  function EvalComparison(c: Comparison, row: Row): (r: Eval<bool>)
    ensures r.Ok? <==> Defined(c, row)
    ensures r.Ok? ==> r.value == Holds(c, row)
  {
    var l :- EvalOperand(c.lhs, row);
    var r :- EvalOperand(c.rhs, row);
    match c
    case Greater(_, _) => Ok(Gt(l, r))
    case Less(_, _) => Ok(Lt(l, r))
  }

  /**
   * Python's `cs[0] and cs[1] and ...`: comparisons are evaluated left to
   * right and evaluation stops at the first one that is false. The result is
   * true exactly when every comparison passes, false exactly when evaluation
   * stops at a defined comparison that is false, and raises exactly when it
   * stops at one that reads a missing column.
   */
  function EvalConjunction(cs: seq<Comparison>, row: Row): (r: Eval<bool>)
    ensures r == Ok(true) <==> forall i :: 0 <= i < |cs| ==> Passes(cs[i], row)
    ensures r == Ok(false) <==> exists i :: 0 <= i < |cs| && FailsAt(cs, row, i)
    ensures r.Raised? <==> exists i :: 0 <= i < |cs| && RaisesAt(cs, row, i)
  {
    if |cs| == 0 then Ok(true)
    else
      match EvalComparison(cs[0], row)
      case Raised(e) =>
        assert RaisesAt(cs, row, 0);
        Raised(e)
      case Ok(first) =>
        if !first then
          assert FailsAt(cs, row, 0);
          Ok(false)
        else
          ConjunctionStep(cs, row);
          EvalConjunction(cs[1..], row)
  }

  /** Once the first comparison passes, the rest decide, one position later. */
  lemma ConjunctionStep(cs: seq<Comparison>, row: Row)
    requires |cs| > 0 && Passes(cs[0], row)
    ensures (forall i :: 0 <= i < |cs| ==> Passes(cs[i], row)) <==>
            (forall i :: 0 <= i < |cs[1..]| ==> Passes(cs[1..][i], row))
    ensures (exists i :: 0 <= i < |cs| && FailsAt(cs, row, i)) <==>
            (exists i :: 0 <= i < |cs[1..]| && FailsAt(cs[1..], row, i))
    ensures (exists i :: 0 <= i < |cs| && RaisesAt(cs, row, i)) <==>
            (exists i :: 0 <= i < |cs[1..]| && RaisesAt(cs[1..], row, i))
  {
    var t := cs[1..];
    forall i | 0 <= i < |t|
      ensures PrefixPasses(t, row, i) <==> PrefixPasses(cs, row, i + 1)
    {
      assert forall j :: 0 <= j < i ==> t[j] == cs[j + 1];
    }
    if exists i :: 0 <= i < |cs| && FailsAt(cs, row, i) {
      var i :| 0 <= i < |cs| && FailsAt(cs, row, i);
      assert i > 0;
      assert FailsAt(t, row, i - 1);
    }
    if exists i :: 0 <= i < |t| && FailsAt(t, row, i) {
      var i :| 0 <= i < |t| && FailsAt(t, row, i);
      assert FailsAt(cs, row, i + 1);
    }
    if exists i :: 0 <= i < |cs| && RaisesAt(cs, row, i) {
      var i :| 0 <= i < |cs| && RaisesAt(cs, row, i);
      assert i > 0;
      assert RaisesAt(t, row, i - 1);
    }
    if exists i :: 0 <= i < |t| && RaisesAt(t, row, i) {
      var i :| 0 <= i < |t| && RaisesAt(t, row, i);
      assert RaisesAt(cs, row, i + 1);
    }
  }

  // Lines 71 to 74 of the rule, each a conjunction of two comparisons.
  const TrendUpTest: seq<Comparison> :=
    [Greater(Column(Close), Column(Ema21)), Greater(Column(Close), Column(Ema50))]
  const TrendDownTest: seq<Comparison> :=
    [Less(Column(Close), Column(Ema21)), Less(Column(Close), Column(Ema50))]
  const StrongTrendTest: seq<Comparison> :=
    [Greater(Column(Adx), Literal(AdxFloor)), Greater(Ratio(Atr1h, Close), Literal(AtrRatioFloor))]
  const StochTriggerTest: seq<Comparison> :=
    [Less(Column(StochRsiK), Literal(OversoldCeiling)), Less(Column(StochRsiD), Literal(OversoldCeiling))]

  /** The body of the `try`: the row lookups, the four flags, then if/elif/else. */
  function EvalSignal(df15m: Frame, df1h: Frame): (r: Eval<Signal>)
    ensures |df15m| == 0 || |df1h| == 0 ==> r == Raised(IndexError)
    ensures |df15m| > 0 && |df1h| > 0 && Close !in df1h[|df1h| - 1] ==> r == Raised(KeyError(Close))
    ensures |df15m| > 0 && |df1h| > 0 && Close in df1h[|df1h| - 1] && Ema21 !in df1h[|df1h| - 1] ==>
              r == Raised(KeyError(Ema21))
  {
    var latest15m :- ILocLast(df15m);
    var latest1h :- ILocLast(df1h);
    var up :- EvalConjunction(TrendUpTest, latest1h);
    var down :- EvalConjunction(TrendDownTest, latest1h);
    var strong :- EvalConjunction(StrongTrendTest, latest1h);
    var stoch :- EvalConjunction(StochTriggerTest, latest15m);
    if up && strong && stoch then Ok(Long)
    else if down && strong && stoch then Ok(Short)
    else Ok(NoSignal)
  }

  /**
   * `check_trade_signal`, with every `print` taken to succeed: any exception
   * of the evaluation is caught and becomes no signal. Its result is the
   * reference decision on the newest rows, and no signal whenever a frame is
   * empty or a column the rule needs is missing.
   */
  function CheckTradeSignal(df15m: Frame, df1h: Frame): (s: Signal)
    ensures s == match (Latest15mOf(df15m), Latest1hOf(df1h))
                 case (Some(m), Some(h)) => Decide(m, h)
                 case _ => NoSignal
  {
    EvalSignalAgrees(df15m, df1h);
    match EvalSignal(df15m, df1h)
    case Ok(s) => s
    case Raised(_) => NoSignal
  }

  /** A two-comparison `a and b`: true when both pass, and their IEEE 754 outcome when both are defined. */
  lemma PairConjunction(cs: seq<Comparison>, row: Row)
    requires |cs| == 2
    ensures EvalConjunction(cs, row) == Ok(true) <==> Passes(cs[0], row) && Passes(cs[1], row)
    ensures Defined(cs[0], row) && Defined(cs[1], row) ==>
              EvalConjunction(cs, row) == Ok(Holds(cs[0], row) && Holds(cs[1], row))
  {
    if Defined(cs[0], row) && Defined(cs[1], row) {
      if !Holds(cs[0], row) {
        assert FailsAt(cs, row, 0);
      } else if !Holds(cs[1], row) {
        assert FailsAt(cs, row, 1);
      }
    }
  }

  /** On complete newest rows the evaluation inside the `try` gives the reference decision. */
  lemma CompleteRowsAgree(df15m: Frame, df1h: Frame, m: Latest15m, h: Latest1h)
    requires Latest15mOf(df15m) == Some(m) && Latest1hOf(df1h) == Some(h)
    ensures EvalSignal(df15m, df1h) == Ok(Decide(m, h))
  {
    var rm := df15m[|df15m| - 1];
    var rh := df1h[|df1h| - 1];
    PairConjunction(TrendUpTest, rh);
    assert EvalConjunction(TrendUpTest, rh) == Ok(IsTrendUp(h));
    PairConjunction(TrendDownTest, rh);
    assert EvalConjunction(TrendDownTest, rh) == Ok(IsTrendDown(h));
    PairConjunction(StrongTrendTest, rh);
    assert EvalConjunction(StrongTrendTest, rh) == Ok(IsStrongTrend(h));
    PairConjunction(StochTriggerTest, rm);
    assert EvalConjunction(StochTriggerTest, rm) == Ok(IsOversold(m));
  }

  /**
   * A signal from the evaluation inside the `try` needs complete newest rows:
   * a long or a short needs every one of the four conjunctions to be true,
   * and a true conjunction has read all its columns.
   */
  lemma SignalNeedsCompleteRows(df15m: Frame, df1h: Frame)
    requires EvalSignal(df15m, df1h) == Ok(Long) || EvalSignal(df15m, df1h) == Ok(Short)
    ensures Latest15mOf(df15m).Some? && Latest1hOf(df1h).Some?
  {
    var rm := df15m[|df15m| - 1];
    var rh := df1h[|df1h| - 1];
    PairConjunction(TrendUpTest, rh);
    PairConjunction(TrendDownTest, rh);
    PairConjunction(StrongTrendTest, rh);
    PairConjunction(StochTriggerTest, rm);
    assert Passes(StochTriggerTest[0], rm) && Passes(StochTriggerTest[1], rm);
    assert Labels15m <= rm.Keys;
    assert Passes(StrongTrendTest[0], rh) && Passes(StrongTrendTest[1], rh);
    if EvalConjunction(TrendUpTest, rh) == Ok(true) {
      assert Passes(TrendUpTest[0], rh) && Passes(TrendUpTest[1], rh);
    } else {
      assert Passes(TrendDownTest[0], rh) && Passes(TrendDownTest[1], rh);
    }
    assert Labels1h <= rh.Keys;
  }

  /**
   * The evaluation inside the `try` agrees with the reference: the reference
   * decision on complete rows, otherwise an exception or no signal.
   */
  lemma EvalSignalAgrees(df15m: Frame, df1h: Frame)
    ensures match (Latest15mOf(df15m), Latest1hOf(df1h))
            case (Some(m), Some(h)) => EvalSignal(df15m, df1h) == Ok(Decide(m, h))
            case _ => EvalSignal(df15m, df1h) != Ok(Long) && EvalSignal(df15m, df1h) != Ok(Short)
  {
    if Latest15mOf(df15m).Some? && Latest1hOf(df1h).Some? {
      CompleteRowsAgree(df15m, df1h, Latest15mOf(df15m).value, Latest1hOf(df1h).value);
    } else if EvalSignal(df15m, df1h) == Ok(Long) || EvalSignal(df15m, df1h) == Ok(Short) {
      SignalNeedsCompleteRows(df15m, df1h);
    }
  }

  // ---------------------------------------------------------------------
  // The same rule on complete rows
  // ---------------------------------------------------------------------

  datatype Latest1h = Latest1h(close: Float, ema21: Float, ema50: Float, adx: Float, atr1h: Float)

  datatype Latest15m = Latest15m(stochRsiK: Float, stochRsiD: Float)

  /** The values the rule reads from the newest 1-hour row, if it has them all. */
  function Latest1hOf(df1h: Frame): Option<Latest1h>
  {
    if |df1h| == 0 then None
    else
      var h := df1h[|df1h| - 1];
      if Labels1h <= h.Keys then Some(Latest1h(h[Close], h[Ema21], h[Ema50], h[Adx], h[Atr1h]))
      else None
  }

  /** The values the rule reads from the newest 15-minute row, if it has them all. */
  function Latest15mOf(df15m: Frame): Option<Latest15m>
  {
    if |df15m| == 0 then None
    else
      var m := df15m[|df15m| - 1];
      if Labels15m <= m.Keys then Some(Latest15m(m[StochRsiK], m[StochRsiD]))
      else None
  }

  predicate IsTrendUp(h: Latest1h)
  {
    Gt(h.close, h.ema21) && Gt(h.close, h.ema50)
  }

  predicate IsTrendDown(h: Latest1h)
  {
    Lt(h.close, h.ema21) && Lt(h.close, h.ema50)
  }

  predicate IsStrongTrend(h: Latest1h)
  {
    Gt(h.adx, Num(AdxFloor)) && Gt(Div(h.atr1h, h.close), Num(AtrRatioFloor))
  }

  /** The one oversold trigger, used by both directions. */
  predicate IsOversold(m: Latest15m)
  {
    Lt(m.stochRsiK, Num(OversoldCeiling)) && Lt(m.stochRsiD, Num(OversoldCeiling))
  }

  /**
   * The if/elif/else on complete rows: a signal exactly when the trend is
   * strong, the 15-minute row is oversold and there is a trend; "long" for an
   * up trend, "short" for a down trend, the `elif` never hiding a short.
   */
  function Decide(m: Latest15m, h: Latest1h): (s: Signal)
    ensures s != NoSignal <==> IsStrongTrend(h) && IsOversold(m) && (IsTrendUp(h) || IsTrendDown(h))
    ensures s == Long <==> IsTrendUp(h) && IsStrongTrend(h) && IsOversold(m)
    ensures s == Short <==> IsTrendDown(h) && IsStrongTrend(h) && IsOversold(m)
  {
    TrendsExclusive(h);
    if IsTrendUp(h) && IsStrongTrend(h) && IsOversold(m) then Long
    else if IsTrendDown(h) && IsStrongTrend(h) && IsOversold(m) then Short
    else NoSignal
  }

  // ---------------------------------------------------------------------
  // Properties
  // ---------------------------------------------------------------------

  /** The newest row of `df` holds `v` under `column`. */
  predicate LastRowHas(df: Frame, column: string, v: Float)
  {
    |df| > 0 && column in df[|df| - 1] && df[|df| - 1][column] == v
  }

  /** An up trend and a down trend never hold together. */
  lemma TrendsExclusive(h: Latest1h)
    ensures !(IsTrendUp(h) && IsTrendDown(h))
  {
    LtAsymmetric(h.close, h.ema21);
  }

  /**
   * With finite values and a positive close, "long" is returned exactly when
   * close is strictly above both EMAs, adx is strictly above 20, atr_1h is
   * strictly above 0.006 * close, and both stochastic RSI lines are strictly
   * below 20.
   */
  lemma LongIffOnValues(df15m: Frame, df1h: Frame,
                        close: real, ema21: real, ema50: real, adx: real, atr: real, k: real, d: real)
    requires LastRowHas(df1h, Close, Num(close)) && LastRowHas(df1h, Ema21, Num(ema21))
    requires LastRowHas(df1h, Ema50, Num(ema50)) && LastRowHas(df1h, Adx, Num(adx))
    requires LastRowHas(df1h, Atr1h, Num(atr))
    requires LastRowHas(df15m, StochRsiK, Num(k)) && LastRowHas(df15m, StochRsiD, Num(d))
    requires close > 0.0
    ensures CheckTradeSignal(df15m, df1h) == Long <==>
              close > ema21 && close > ema50 && adx > 20.0 && atr > 0.006 * close && k < 20.0 && d < 20.0
  {
    assert Latest1hOf(df1h) == Some(Latest1h(Num(close), Num(ema21), Num(ema50), Num(adx), Num(atr)));
    assert Latest15mOf(df15m) == Some(Latest15m(Num(k), Num(d)));
    DivAboveIff(atr, close, AtrRatioFloor);
  }

  /**
   * With finite values and a positive close, "short" is returned exactly when
   * close is strictly below both EMAs, the trend is strong as for "long", and
   * both stochastic RSI lines are strictly below 20: the same oversold
   * trigger as "long", not an overbought one.
   */
  lemma ShortIffOnValues(df15m: Frame, df1h: Frame,
                         close: real, ema21: real, ema50: real, adx: real, atr: real, k: real, d: real)
    requires LastRowHas(df1h, Close, Num(close)) && LastRowHas(df1h, Ema21, Num(ema21))
    requires LastRowHas(df1h, Ema50, Num(ema50)) && LastRowHas(df1h, Adx, Num(adx))
    requires LastRowHas(df1h, Atr1h, Num(atr))
    requires LastRowHas(df15m, StochRsiK, Num(k)) && LastRowHas(df15m, StochRsiD, Num(d))
    requires close > 0.0
    ensures CheckTradeSignal(df15m, df1h) == Short <==>
              close < ema21 && close < ema50 && adx > 20.0 && atr > 0.006 * close && k < 20.0 && d < 20.0
  {
    var h := Latest1h(Num(close), Num(ema21), Num(ema50), Num(adx), Num(atr));
    assert Latest1hOf(df1h) == Some(h);
    assert Latest15mOf(df15m) == Some(Latest15m(Num(k), Num(d)));
    DivAboveIff(atr, close, AtrRatioFloor);
    TrendsExclusive(h);
  }

  /** "long" on any values: complete rows, up trend, strong trend, oversold. */
  lemma LongIff(df15m: Frame, df1h: Frame)
    ensures CheckTradeSignal(df15m, df1h) == Long <==>
              Latest15mOf(df15m).Some? && Latest1hOf(df1h).Some? &&
              IsTrendUp(Latest1hOf(df1h).value) && IsStrongTrend(Latest1hOf(df1h).value) &&
              IsOversold(Latest15mOf(df15m).value)
  {
  }

  /** "short" on any values: complete rows, down trend, strong trend, oversold. */
  lemma ShortIff(df15m: Frame, df1h: Frame)
    ensures CheckTradeSignal(df15m, df1h) == Short <==>
              Latest15mOf(df15m).Some? && Latest1hOf(df1h).Some? &&
              IsTrendDown(Latest1hOf(df1h).value) && IsStrongTrend(Latest1hOf(df1h).value) &&
              IsOversold(Latest15mOf(df15m).value)
  {
    if Latest1hOf(df1h).Some? {
      TrendsExclusive(Latest1hOf(df1h).value);
    }
  }

  /** Either signal needs adx strictly above 20 and atr_1h / close strictly above 0.006. */
  lemma SignalNeedsStrongTrend(df15m: Frame, df1h: Frame)
    ensures CheckTradeSignal(df15m, df1h) != NoSignal ==>
              Latest1hOf(df1h).Some? &&
              Gt(Latest1hOf(df1h).value.adx, Num(20.0)) &&
              Gt(Div(Latest1hOf(df1h).value.atr1h, Latest1hOf(df1h).value.close), Num(0.006))
  {
  }

  /** An adx of 20 or less, 20 itself included, gives no signal. */
  lemma AdxAtMostTwentyGivesNoSignal(df15m: Frame, df1h: Frame, adx: real)
    requires LastRowHas(df1h, Adx, Num(adx)) && adx <= 20.0
    ensures CheckTradeSignal(df15m, df1h) == NoSignal
  {
  }

  /** An atr_1h of at most 0.006 * close (close positive) gives no signal. */
  lemma LowVolatilityGivesNoSignal(df15m: Frame, df1h: Frame, close: real, atr: real)
    requires LastRowHas(df1h, Close, Num(close)) && LastRowHas(df1h, Atr1h, Num(atr))
    requires close > 0.0 && atr <= 0.006 * close
    ensures CheckTradeSignal(df15m, df1h) == NoSignal
  {
    DivAboveIff(atr, close, AtrRatioFloor);
  }

  /** Either signal, long or short, needs both stochastic RSI lines strictly below 20. */
  lemma SignalNeedsOversold(df15m: Frame, df1h: Frame)
    ensures CheckTradeSignal(df15m, df1h) != NoSignal ==>
              Latest15mOf(df15m).Some? &&
              Lt(Latest15mOf(df15m).value.stochRsiK, Num(20.0)) &&
              Lt(Latest15mOf(df15m).value.stochRsiD, Num(20.0))
  {
  }

  /**
   * A %K line of 20 or more gives no signal in either direction; in
   * particular an overbought reading never produces "short".
   */
  lemma NotOversoldGivesNoSignal(df15m: Frame, df1h: Frame, k: real)
    requires LastRowHas(df15m, StochRsiK, Num(k)) && k >= 20.0
    ensures CheckTradeSignal(df15m, df1h) == NoSignal
  {
  }

  /** A close equal to either EMA gives neither trend, hence no signal. */
  lemma CloseOnEmaGivesNoSignal(df15m: Frame, df1h: Frame, c: Float)
    requires LastRowHas(df1h, Close, c)
    requires LastRowHas(df1h, Ema21, c) || LastRowHas(df1h, Ema50, c)
    ensures CheckTradeSignal(df15m, df1h) == NoSignal
  {
    LtAsymmetric(c, c);
  }

  /** Frames with the same newest rows give the same answer, whatever came before. */
  lemma OnlyNewestRowsMatter(df15m: Frame, df1h: Frame, other15m: Frame, other1h: Frame)
    requires ILocLast(df15m) == ILocLast(other15m) && ILocLast(df1h) == ILocLast(other1h)
    ensures CheckTradeSignal(df15m, df1h) == CheckTradeSignal(other15m, other1h)
  {
  }

  /** Rows older than the newest are ignored: prepending history changes nothing. */
  lemma HistoryIgnored(df15m: Frame, df1h: Frame, older15m: Frame, older1h: Frame)
    requires |df15m| > 0 && |df1h| > 0
    ensures CheckTradeSignal(older15m + df15m, older1h + df1h) == CheckTradeSignal(df15m, df1h)
  {
    OnlyNewestRowsMatter(older15m + df15m, older1h + df1h, df15m, df1h);
  }

  /** Two labels agree in two rows: both absent, or both present with one value. */
  predicate AgreeOn(r: Row, r': Row, column: string)
  {
    (column in r <==> column in r') && (column in r ==> r[column] == r'[column])
  }

  /** Only the seven labels the rule reads matter; every other column is ignored. */
  lemma OnlyReadLabelsMatter(df15m: Frame, df1h: Frame, other15m: Frame, other1h: Frame)
    requires |df15m| > 0 && |other15m| > 0 && |df1h| > 0 && |other1h| > 0
    requires forall column :: column in Labels15m ==>
               AgreeOn(df15m[|df15m| - 1], other15m[|other15m| - 1], column)
    requires forall column :: column in Labels1h ==>
               AgreeOn(df1h[|df1h| - 1], other1h[|other1h| - 1], column)
    ensures CheckTradeSignal(df15m, df1h) == CheckTradeSignal(other15m, other1h)
  {
    assert Latest15mOf(df15m) == Latest15mOf(other15m);
    assert Latest1hOf(df1h) == Latest1hOf(other1h);
  }

  /** An empty frame (iloc[-1] raises IndexError) gives no signal. */
  lemma EmptyFrameGivesNoSignal(df15m: Frame, df1h: Frame)
    requires |df15m| == 0 || |df1h| == 0
    ensures CheckTradeSignal(df15m, df1h) == NoSignal
  {
  }

  /** A column the rule reads missing from a newest row gives no signal. */
  lemma MissingColumnGivesNoSignal(df15m: Frame, df1h: Frame, column: string)
    requires (|df1h| > 0 && column in Labels1h && column !in df1h[|df1h| - 1]) ||
             (|df15m| > 0 && column in Labels15m && column !in df15m[|df15m| - 1])
    ensures CheckTradeSignal(df15m, df1h) == NoSignal
  {
  }

  /** A NaN under any column the rule reads gives no signal. */
  lemma NaNGivesNoSignal(df15m: Frame, df1h: Frame, column: string)
    requires (column in Labels1h && LastRowHas(df1h, column, NaN)) ||
             (column in Labels15m && LastRowHas(df15m, column, NaN))
    ensures CheckTradeSignal(df15m, df1h) == NoSignal
  {
  }

  /** A down trend on an oversold 15-minute row does give "short". */
  lemma ShortOnOversoldDowntrend()
    ensures CheckTradeSignal(
              [map[StochRsiK := Num(10.0), StochRsiD := Num(15.0)]],
              [map[Close := Num(100.0), Ema21 := Num(105.0), Ema50 := Num(110.0),
                   Adx := Num(25.0), Atr1h := Num(1.0)]]) == Short
  {
  }
}
