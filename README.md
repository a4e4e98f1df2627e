# GreenMind prediction interpreter, modelled in Dafny

The GreenMind service exposes one prediction endpoint. It takes a telemetry
reading (temperature, humidity, soil moisture), hands it to a trained
classifier as a one-row feature batch, and turns the classifier's first
result into two actuator statuses, fan and pump, each `"on"`, `"off"` or
`"unknown"`. This project models that decision logic of the `predict`
handler and proves what it promises.

- `substring.dfy`, module `Substring`: Python's `sub in s` for strings, as a
  reference predicate (`Occurs`: some offset where `sub` is a prefix) and an
  executable search (`Contains`), proved equivalent.
- `predict.dfy`, module `Predict`: the feature row (`Features`), the
  classifier's result shapes as a tagged datatype standing for the
  `isinstance` dispatch (`RawOutput = Label | Indicators | Unrecognized`),
  Python's comparison `== 1` on list elements (`Scalar`, `EqualsOne`), the
  interpretation (`Interpret`), the whole handler (`Predict`, with the
  classifier as a function parameter) and the JSON object it returns
  (`ResponseBody`).

The handler reads `prediction[0]` and `prediction[1]` of a list or tuple, and
`[0]` of the classifier's output, without checking the length. Python raises
`IndexError` there, which the handler does not catch; the model returns
`Err(IndexError(index, length))` for the first read that fails, in the order
the handler performs the reads (element 0 before element 1).

Three choices the model makes about what the code does:

- A list or tuple with fewer than two elements makes the handler raise
  `IndexError`. The model returns that error; it does not answer "unknown".
- `main.py` loads the classifier once, at import, with no error handling. It has
  no "loaded" flag, no service-unavailable answer and no health endpoint, so the
  model has none either.
- An element counts as on when Python's `==` finds it equal to 1. So `1.0` and
  `True` count as on, as well as the integer `1`, and the model does the same.

## Model

| member | source | states |
|---|---|---|
| `Substring.ContainsIffOccurs` | main.py:23-24 | the search answers `sub in s` exactly: it is true if and only if `sub` is a prefix of `s` at some offset |
| `Substring.TooShortNotContained` | main.py:23-24 | a marker longer than the label never occurs in it |
| `Substring.SkipLeadingWithoutFirstChar` | main.py:23-24 | a leading part without the marker's first character cannot hold an occurrence of the marker |
| `Substring.ContainsInfix` | main.py:23-24 | a marker occurs in every label built around it |
| `Substring.Contains` | main.py:23-24 | the search for `sub in s`: the empty string is found in every string, and nothing longer than `s` is found in it |
| `Predict.Status.Name` | main.py:23-33 | each status is reported as one of "on", "off", "unknown": On as "on", Off as "off", Unknown as "unknown" |
| `Predict.EqualsOne` | main.py:27-28 | among the modelled element kinds, exactly the integer 1, the float 1.0 and `True` equal 1 |
| `Predict.Features` | main.py:17 | the batch holds exactly one row of three values: temperature in column 0, humidity in column 1, soil moisture in column 2 |
| `Predict.FeaturesInjective` | main.py:17 | building the row loses and merges no reading: equal batches come only from equal telemetry |
| `Predict.At` | main.py:18 | an unguarded index read `xs[k]` succeeds exactly when `k < len(xs)`, returning that element; otherwise it fails with IndexError(k, len(xs)) |
| `Predict.Interpret` | main.py:20-31 | interpretation fails exactly for a list or tuple with fewer than two elements, with IndexError at index 0 for an empty one and at index 1 for a one-element one; "unknown" is given to both actuators or to neither, and only for a result that is neither a string nor a list or tuple |
| `Predict.Predict` | main.py:17-18 | the handler fails exactly when the classifier returns no result for the batch, or when its first result is a list or tuple with fewer than two elements; with no result it fails with IndexError at index 0 |
| `Predict.ResponseBody` | main.py:33 | the response has exactly the keys fanStatus and pumpStatus; fanStatus holds the name of the fan decision and pumpStatus that of the pump decision, each "on", "off" or "unknown" |
| `Predict.LabelDecision` | main.py:21-24 | a string result never fails and never gives "unknown"; fan is on if and only if "fan_on" occurs in it, and pump is on if and only if "pump_on" occurs in it, each decided on its own |
| `Predict.SingleMarkerLabels` | main.py:21-24 | "fan_on" gives (on, off) and "pump_on" gives (off, on) |
| `Predict.BothMarkersLabel` | main.py:21-24 | "fan_on_pump_on" gives (on, on) |
| `Predict.FanOnPumpOffLabel` | main.py:21-24 | "fan_on_pump_off" gives (on, off), because "pump_on" does not occur in it |
| `Predict.NoMarkerLabel` | main.py:21-24 | "idle" gives (off, off) |
| `Predict.IndicatorDecision` | main.py:25-28 | for a list or tuple of at least two elements: fan is on if and only if element 0 equals 1, pump is on if and only if element 1 equals 1, and each is off otherwise |
| `Predict.IndicatorTruthTable` | main.py:25-28 | (0,0) gives (off,off), (1,0) gives (on,off), (0,1) gives (off,on), (1,1) gives (on,on) |
| `Predict.IndicatorEquality` | main.py:27-28 | Python equality with 1: 1.0 and True count as on, the string "1" and 2 count as off |
| `Predict.ExtraItemsIgnored` | main.py:27-28 | elements after the second do not affect the decision |
| `Predict.ShortIndicatorsFail` | main.py:27-28 | an empty list fails with IndexError at index 0; a one-element list fails with IndexError at index 1 |
| `Predict.UnrecognizedDecision` | main.py:29-31 | any other shape gives (unknown, unknown) |
| `Predict.OnlyFirstResultMatters` | main.py:18 | only result [0] is interpreted: classifiers that agree on it give the same answer, which is the interpretation of that result |
| `Predict.OnlyFeatureRowMatters` | main.py:17-18 | the answer depends on the classifier only through what it returns for the request's feature row |
| `Predict.ResponseFaithful` | main.py:33 | both reported statuses are among "on", "off", "unknown", and different decisions give different response bodies |
| `Predict.LabelResponse` | main.py:21-33 | for a string result the response's fanStatus is "on" if "fan_on" occurs in it and "off" otherwise, and pumpStatus likewise for "pump_on" |
| `Predict.IndicatorResponse` | main.py:25-33 | for a list or tuple of at least two elements the response's fanStatus is "on" if element 0 equals 1 and "off" otherwise, and pumpStatus likewise for element 1 |
| `Predict.UnrecognizedResponse` | main.py:29-33 | for any other shape the response is fanStatus "unknown", pumpStatus "unknown" |

## Left out

- FastAPI application, the `/predict` route, `async` handling and the JSON encoding of the response (main.py:1, 5, 15-16): framework plumbing. `ResponseBody` gives the returned object as a map from key to text.
- Pydantic validation of `Telemetry` (main.py:10-13): done by a library. The readings are modelled as `real` values that are only passed through.
- `joblib.load` at import (main.py:8): file I/O and deserialisation. It has no error handling, so there is no "loaded" state to model.
- `model.predict` (main.py:18): an opaque library call. It is the parameter `classify`, a function from a batch to a sequence of results, so inference is taken to be deterministic. An exception raised inside it is not modelled.
- How an uncaught `IndexError` becomes an HTTP 500 answer: that is done by the framework. The model stops at the error value.
- Runtime types of numpy values, for example whether a `numpy.ndarray` row counts as a list or tuple: the tagged `RawOutput` datatype stands for the `isinstance` test, and list and tuple are merged because the handler treats them alike.
- Floating-point semantics: readings and float elements are `real`. NaN is not representable; it is never equal to 1, so it would count as off.
- EqualsOne: Python's `==` on element kinds beyond `int`, `float`, `bool` and `str` is not modelled. All other objects are `OtherValue`, which is taken to be unequal to 1. That misses two kinds of object: those that do equal 1 (`Decimal(1)`, `Fraction(1, 1)`, `1+0j`, numpy scalars), and those whose comparison raises in the `if` test (a numpy array with more than one element raises ValueError).
