# BTCUSDT margin bot: entry-signal rule

This project models the entry-signal rule `check_trade_signal` of the BTCUSDT
margin bot (`bot.py`). The rule looks at two indicator frames. It takes the
newest row of each: the 15-minute row and the 1-hour row. It answers `"long"`,
`"short"` or `None`:

- trend up: the 1-hour close is strictly above both ema21 and ema50;
- trend down: the 1-hour close is strictly below both;
- strong trend: adx is strictly above 20 and `atr_1h / close` is strictly above 0.006;
- stochastic trigger: `stoch_rsi_k` and `stoch_rsi_d` of the 15-minute row are both strictly below 20.

The rule is `"long"` for trend up, strong trend and trigger. It is `"short"` for
trend down, strong trend and the *same* oversold trigger. Otherwise it is
`None`. Any exception of the evaluation (an empty frame, a missing column) is
caught and becomes `None`; the model takes every `print` to succeed.

Files:

- `float64.dfy` (module `Float64`): a pandas `float64` cell as
  `Num(real) | PosInf | NegInf | NaN`. It has the IEEE 754 comparisons (every
  comparison with NaN is false) and IEEE 754 division on exact values.
  Dividing by a zero close therefore gives an infinity or NaN, as numpy does,
  rather than needing a precondition. A positive close is required only by the
  lemmas that restate the ratio test as `atr_1h > 0.006 * close`
  (`DivAboveIff`).
- `frames.dfy` (module `Frames`): a DataFrame as a sequence of rows, oldest
  first. Each row maps column labels to cells. `iloc[-1]` raises `IndexError`
  on an empty frame. A label lookup raises `KeyError`. `Eval` is a Python
  evaluation that either gives a value or raises.
- `bot.dfy` (module `Bot`): each of the lines bot.py:71-74 is a Python
  `x and y` over two comparisons. `EvalConjunction` evaluates such a
  conjunction as Python does: left to right, operands looked up in order, and
  stopping at the first false comparison, so later columns are not read.
  `CheckTradeSignal` runs it for the four flags on the two newest rows and
  maps every exception to no signal. `Decide` states the same rule on
  complete newest rows (`Latest15m`, `Latest1h`). The contract of
  `CheckTradeSignal` says that the two agree. It also says that the answer is
  `NoSignal` whenever a frame is empty or a label the rule reads is missing.
  The lemmas then state the rule in terms of the indicator values.

The result type `Signal = Long | Short | NoSignal` has exactly three
values. So "the answer is one of long, short or None" holds by construction.

## Model

| member | source | states |
|---|---|---|
| `Bot.CheckTradeSignal` | bot.py:66-89 | With every print taken to succeed: the step-by-step evaluation, with its exceptions mapped to no signal, equals the reference decision on the newest rows. It is no signal when either frame is empty or lacks a column the rule reads. |
| `Bot.EvalSignal` | bot.py:67-86 | The body of the `try`: an empty frame raises IndexError before anything else; a newest 1-hour row without `close`, or with `close` but without `ema21`, raises KeyError on that label. Its full agreement with the reference is `EvalSignalAgrees`. |
| `Bot.Decide` | bot.py:78-86 | The reference if/elif/else on complete rows: a signal exactly when the trend is strong, the 15-minute row is oversold and there is a trend; "long" exactly for an up trend and "short" exactly for a down trend, the `elif` never hiding a short. |
| `Bot.EvalOperand` | bot.py:71-74 | One operand raises exactly when a column it reads is missing, otherwise it gives that operand's value. In `atr_1h / close` the numerator is read first: with both missing it raises KeyError on `atr_1h`. |
| `Frames.ILocLast` | bot.py:68-69 | `iloc[-1]` raises IndexError exactly on an empty frame, and otherwise gives the newest row. |
| `Frames.ILocLastOfAppend` | bot.py:68-69 | `iloc[-1]` gives the row appended last, whatever rows come before it. |
| `Frames.Get` | bot.py:71-74 | A label lookup raises KeyError on that label exactly when the row does not have it. |
| `Frames.GetAfterAssign` | bot.py:71-74 | A lookup sees the value last assigned to its label and is unaffected by assignments to other labels. |
| `Bot.EvalComparison` | bot.py:71-74 | One comparison raises exactly when a column it reads is missing. Otherwise it gives the IEEE 754 outcome on the looked-up values. |
| `Bot.EvalConjunction` | bot.py:71-74 | Python's `and` chain is true exactly when every comparison passes. It is false exactly when evaluation stops at a defined, false comparison with all earlier ones passing. It raises exactly when it stops at a comparison that reads a missing column. |
| `Bot.PairConjunction` | bot.py:71-74 | A two-comparison `and` is true exactly when both pass. When both are defined it is their conjunction. |
| `Bot.CompleteRowsAgree` | bot.py:71-86 | On complete newest rows, the evaluation inside the `try` gives the reference decision. |
| `Bot.SignalNeedsCompleteRows` | bot.py:71-83 | A long or short from the evaluation inside the `try` needs complete newest rows. With a column missing, `and` may skip it, but then a flag is false. |
| `Bot.EvalSignalAgrees` | bot.py:67-86 | The evaluation inside the `try` is the reference decision on complete rows. Otherwise it is an exception or no signal. |
| `Bot.LongIffOnValues` | bot.py:71-80 | For finite values and a positive close: "long" if and only if close > ema21, close > ema50, adx > 20, atr_1h > 0.006 * close, k < 20 and d < 20, all strict. |
| `Bot.ShortIffOnValues` | bot.py:71-83 | For finite values and a positive close: "short" if and only if close < ema21, close < ema50, adx > 20, atr_1h > 0.006 * close, k < 20 and d < 20. This is the oversold trigger, not an overbought one. |
| `Bot.LongIff` | bot.py:71-80 | For any cells, NaN and infinities included: "long" if and only if both newest rows are complete, trend up holds, strong trend holds and the oversold trigger holds. |
| `Bot.ShortIff` | bot.py:71-83 | For any cells: "short" if and only if both newest rows are complete, trend down holds, strong trend holds and the oversold trigger holds. Long taking precedence never hides a short, because the two trends exclude each other. |
| `Bot.TrendsExclusive` | bot.py:71-72 | Trend up and trend down never hold together. |
| `Bot.SignalNeedsStrongTrend` | bot.py:73-83 | Any signal, long or short, needs adx > 20 and atr_1h / close > 0.006, both strict. |
| `Bot.AdxAtMostTwentyGivesNoSignal` | bot.py:73-86 | An adx of 20 or less, exactly 20 included, gives no signal, whatever the other columns hold. |
| `Bot.LowVolatilityGivesNoSignal` | bot.py:73-86 | With a positive close, an atr_1h of at most 0.006 * close gives no signal. |
| `Bot.SignalNeedsOversold` | bot.py:74-83 | Any signal, long or short, needs stoch_rsi_k < 20 and stoch_rsi_d < 20 on the newest 15-minute row. |
| `Bot.NotOversoldGivesNoSignal` | bot.py:74-86 | A %K of 20 or more gives no signal in either direction, so an overbought reading never produces "short". |
| `Bot.ShortOnOversoldDowntrend` | bot.py:72-83 | A concrete downtrend with an oversold 15-minute row (k = 10, d = 15) gives "short". |
| `Bot.CloseOnEmaGivesNoSignal` | bot.py:71-86 | A close equal to ema21 or to ema50 gives neither trend, and so no signal. |
| `Bot.OnlyNewestRowsMatter` | bot.py:68-69 | Two frame pairs with the same `iloc[-1]` outcomes give the same answer. |
| `Bot.HistoryIgnored` | bot.py:68-69 | Putting any older rows in front of non-empty frames leaves the answer unchanged. |
| `Bot.OnlyReadLabelsMatter` | bot.py:68-74 | Newest rows that agree on the seven labels the rule reads give the same answer; other columns are ignored. |
| `Bot.EmptyFrameGivesNoSignal` | bot.py:68-89 | An empty frame makes `iloc[-1]` raise, and the answer is no signal. |
| `Bot.MissingColumnGivesNoSignal` | bot.py:71-89 | A missing column the rule reads gives no signal: no exception of the evaluation is propagated. |
| `Bot.NaNGivesNoSignal` | bot.py:71-86 | A NaN in any of the seven cells the rule reads gives no signal. |
| `Float64.Lt` | bot.py:71-74 | `<` is false when either side is NaN. On finite values it is the real order. Every non-NaN value other than +inf is below +inf, -inf is below every non-NaN value other than itself, and nothing is below -inf or above +inf. |
| `Float64.Gt` | bot.py:71-73 | `>` is false when either side is NaN, is the real order on finite values, holds of +inf over every non-NaN value other than itself, and never holds of -inf or against +inf. |
| `Float64.LtAsymmetric` | bot.py:71-72 | The comparison is a strict order: irreflexive and asymmetric. |
| `Float64.NaNComparesFalse` | bot.py:71-74 | Every lesser or greater comparison with NaN is false. |
| `Float64.Div` | bot.py:73 | NaN in gives NaN out. A finite quotient times the divisor gives back the dividend. A zero divisor gives +inf or -inf by the dividend's sign, and 0 / 0 is NaN. A finite value over an infinity is 0. Infinity over infinity is NaN. Infinity over a finite value is an infinity, with the sign flipped for a negative divisor. |
| `Float64.DivAboveIff` | bot.py:73 | For a positive divisor, `x / y > t` holds exactly when `x > t * y`. |

## Left out

- `get_klines` (bot.py:25-42): a Binance REST call and DataFrame construction, which is network I/O. The frames are the model's inputs.
- `compute_indicators` (bot.py:44-64): StochRSI, EMA, ADX and ATR come from the `ta` library, which is floating-point numerics in foreign code. Its outputs are opaque cells in the rows. It assigns the indicator columns one at a time into the frames it was given, and on an exception returns those same frames. A failure therefore leaves out only the columns not yet assigned when it raised. The model covers every subset of missing columns (`MissingColumnGivesNoSignal`).
- `main_loop` (bot.py:91-107): an endless poll with a 300-second sleep. It discards the signal, so it has no state to model.
- The module-level client construction and environment loading (bot.py:13-19), and every `print`.
- The model assumes every `print` succeeds. A print can raise: on a stdout that cannot encode the emoji, or on a closed or broken stdout. A raising print at bot.py:76, 79, 82 or 85 is caught by the `except` at bot.py:87, so a computed "long" or "short" becomes `None`. A raising print at bot.py:88 is inside the `except` suite, so that exception leaves `check_trade_signal`. `CheckTradeSignal` captures neither case.
- main.py: a one-shot margin-account connectivity check. It is network I/O with no logic.
- Float64: floating-point rounding is not modelled. Finite cells are exact reals, so `atr_1h / close` is the exact quotient, and the threshold `AtrRatioFloor` is the exact real 0.006, while the float64 literal `0.006` at bot.py:73 is the nearest double, slightly above it. Near the 0.006 boundary, the rounded quotient or the rounded threshold could put a value on the other side.
- Float64.Div: signed zero is not modelled. A zero close is +0, so a positive `atr_1h` over it gives +inf. With -0.0, numpy would give -inf.
- Frames: a frame of `None`, or a cell that is not a float, is not modelled. The bot only passes frames built by `get_klines`, which are cast to float.
- The broader trade lifecycle (position sizing, quantization, risk gate, persisted state, monitoring, daily reset) has no source in `bot.py` or `main.py`, so it is not modelled.
- The short branch (bot.py:81) reuses the oversold trigger of bot.py:74. There is no overbought test for shorts and no guard on the number of bars. Too short a history shows up as NaN cells, or as missing columns if an indicator raises inside `compute_indicators` (bot.py:44-64). Both give no signal (`NaNGivesNoSignal`, `MissingColumnGivesNoSignal`).
