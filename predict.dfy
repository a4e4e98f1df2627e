/** The prediction endpoint's decision logic: the telemetry row handed to the
    classifier, and the interpretation of the classifier's first result as a
    pair of actuator statuses (fan, pump). */
module Predict {
  import opened Substring

  /** Failure-compatible result, so that the unguarded index reads of the
      handler can be written in the order it performs them. */
  datatype Result<+T> = Ok(value: T) | Err(error: Error) {
    predicate IsFailure() { Err? }
    function PropagateFailure<U>(): Result<U>
      requires Err?
    {
      Err(error)
    }
    function Extract(): T
      requires Ok?
    {
      value
    }
  }

  /** Python's IndexError: position `index` read from a sequence of `length` elements. */
  datatype Error = IndexError(index: nat, length: nat)

  /** One actuator status as the response reports it. */
  datatype Status = On | Off | Unknown {
    /** The status as it appears in the JSON response. */
    function Name(): (r: string)
      ensures r in StatusNames
      ensures r == "on" <==> this == On
      ensures r == "off" <==> this == Off
    {
      match this
      case On => "on"
      case Off => "off"
      case Unknown => "unknown"
    }
  }

  const StatusNames: set<string> := {"on", "off", "unknown"}

  /** A decision for both actuators. */
  datatype Decision = Decision(fan: Status, pump: Status)

  /** An element of a list or tuple result, with the kinds of value whose
      comparison with the integer 1 the handler can meet. */
  datatype Scalar =
    | Int(i: int)
    | Float(x: real)
    | Bool(b: bool)
    | Str(s: string)
    | OtherValue   // None, a nested list, any other object

  /** Python's `v == 1` on the element kinds modelled here: integers and
      floats compare numerically and `True` is 1; a string, and every object
      the model groups as `OtherValue`, is taken to be unequal to 1. */
  predicate EqualsOne(v: Scalar)
    ensures EqualsOne(v) <==> v == Int(1) || v == Float(1.0) || v == Bool(true)
  {
    match v
    case Int(i) => i == 1
    case Float(x) => x == 1.0
    case Bool(b) => b
    case Str(_) => false
    case OtherValue => false
  }

  /** The shapes the handler tells apart with `isinstance`: a string, a list
      or tuple (merged: they are treated alike), or anything else. */
  datatype RawOutput =
    | Label(text: string)
    | Indicators(items: seq<Scalar>)
    | Unrecognized

  /** The three telemetry readings of one request, passed through untouched. */
  datatype Telemetry = Telemetry(temperature: real, humidity: real, soilMoisture: real)

  /** Column of each reading in the feature row; the trained classifier
      depends on this order. */
  const TemperatureColumn: nat := 0
  const HumidityColumn: nat := 1
  const SoilMoistureColumn: nat := 2

  /** The batch given to the classifier: one row of three readings. */
  function Features(t: Telemetry): (batch: seq<seq<real>>)
    ensures |batch| == 1 && |batch[0]| == 3
    ensures batch[0][TemperatureColumn] == t.temperature
    ensures batch[0][HumidityColumn] == t.humidity
    ensures batch[0][SoilMoistureColumn] == t.soilMoisture
  {
    [[t.temperature, t.humidity, t.soilMoisture]]
  }

  /** Python's `xs[k]` for a non-negative `k`. */
  function At<T>(xs: seq<T>, k: nat): (r: Result<T>)
    ensures r.Ok? <==> k < |xs|
    ensures r.Ok? ==> r.value == xs[k]
    ensures r.Err? ==> r.error == IndexError(k, |xs|)
  {
    if k < |xs| then Ok(xs[k]) else Err(IndexError(k, |xs|))
  }

  function OnIf(c: bool): Status {
    if c then On else Off
  }

  /** Turns one classifier result into a decision: marker substrings for a
      label, elements 0 and 1 for a list or tuple, "unknown" otherwise. */
  function Interpret(r: RawOutput): (res: Result<Decision>)
    // Only a list or tuple with fewer than two elements fails.
    ensures res.Err? <==> r.Indicators? && |r.items| < 2
    ensures res.Err? ==> res.error == IndexError(if |r.items| == 0 then 0 else 1, |r.items|)
    // "unknown" is reported for both actuators or for neither, and only for
    // a result of unrecognised shape.
    ensures res.Ok? ==> (res.value.fan == Unknown <==> res.value.pump == Unknown)
    ensures res.Ok? ==> (res.value.fan == Unknown <==> r.Unrecognized?)
  {
    match r
    case Label(text) =>
      Ok(Decision(OnIf(Contains(text, "fan_on")), OnIf(Contains(text, "pump_on"))))
    case Indicators(items) =>
      var first :- At(items, 0);
      var second :- At(items, 1);
      Ok(Decision(OnIf(EqualsOne(first)), OnIf(EqualsOne(second))))
    case Unrecognized =>
      Ok(Decision(Unknown, Unknown))
  }

  /** The handler: build the feature batch, classify it, interpret result [0].
      `classify` stands for the loaded model's `predict`. */
  function Predict(classify: seq<seq<real>> -> seq<RawOutput>, t: Telemetry): (res: Result<Decision>)
    ensures res.Err? <==>
      || |classify(Features(t))| == 0
      || (classify(Features(t))[0].Indicators? && |classify(Features(t))[0].items| < 2)
    ensures |classify(Features(t))| == 0 ==> res == Err(IndexError(0, 0))
  {
    var first :- At(classify(Features(t)), 0);
    Interpret(first)
  }

  /** The JSON object returned on success. */
  function ResponseBody(d: Decision): (body: map<string, string>)
    ensures body.Keys == {"fanStatus", "pumpStatus"}
    ensures forall k :: k in body ==> body[k] in StatusNames
    ensures body["fanStatus"] == d.fan.Name() && body["pumpStatus"] == d.pump.Name()
  {
    map["fanStatus" := d.fan.Name(), "pumpStatus" := d.pump.Name()]
  }

  // ---- Label results -------------------------------------------------------

  /** A label never fails and never gives "unknown"; each actuator is on
      exactly when its marker occurs in the label, independently of the other. */
  lemma LabelDecision(text: string)
    ensures Interpret(Label(text)).Ok?
    ensures Interpret(Label(text)).value.fan == (if Occurs("fan_on", text) then On else Off)
    ensures Interpret(Label(text)).value.pump == (if Occurs("pump_on", text) then On else Off)
  {
    ContainsIffOccurs(text, "fan_on");
    ContainsIffOccurs(text, "pump_on");
  }

  /** A label carrying one marker switches on that actuator only. */
  lemma SingleMarkerLabels()
    ensures Interpret(Label("fan_on")) == Ok(Decision(On, Off))
    ensures Interpret(Label("pump_on")) == Ok(Decision(Off, On))
  {
    assert Contains("fan_on", "fan_on");
    assert Contains("pump_on", "pump_on");
    TooShortNotContained("fan_on", "pump_on");
    var s := "pump_on";
    assert !Contains(s, "fan_on") by {
      ContainsIffOccurs(s, "fan_on");
      forall i | 0 <= i <= |s| ensures !("fan_on" <= s[i..]) {
        if i + 6 <= |s| {
          assert s[i..][0] == s[i] != 'f';
        }
      }
    }
  }

  /** Both markers switch on both actuators. */
  lemma BothMarkersLabel()
    ensures Interpret(Label("fan_on_pump_on")) == Ok(Decision(On, On))
  {
    ContainsInfix("", "fan_on", "_pump_on");
    assert "" + "fan_on" + "_pump_on" == "fan_on_pump_on";
    ContainsInfix("fan_on_", "pump_on", "");
    assert "fan_on_" + "pump_on" + "" == "fan_on_pump_on";
  }

  /** "fan_on_pump_off" carries the fan marker only, so it gives (on, off). */
  lemma FanOnPumpOffLabel()
    ensures Interpret(Label("fan_on_pump_off")) == Ok(Decision(On, Off))
  {
    var s := "fan_on_pump_off";
    assert Contains(s, "fan_on");
    assert !Contains(s, "pump_on") by { PumpMarkerAbsent(); }
  }

  /** "pump_on" does not occur in "fan_on_pump_off": its only candidate
      offset, at "pump_off", mismatches in the last character. */
  lemma PumpMarkerAbsent()
    ensures !Contains("fan_on_pump_off", "pump_on")
  {
    var head, tail, marker := "fan_on_", "pump_off", "pump_on";
    assert "fan_on_pump_off" == head + tail;
    SkipLeadingWithoutFirstChar(head, tail, marker);
    assert !(marker <= tail) by { assert tail[6] != marker[6]; }
    assert !(marker <= tail[1..]) by { assert tail[1] != marker[0]; }
    TooShortNotContained(tail[2..], marker);
    assert tail[1..][1..] == tail[2..];
  }

  /** A label with neither marker gives (off, off). */
  lemma NoMarkerLabel()
    ensures Interpret(Label("idle")) == Ok(Decision(Off, Off))
  {
    TooShortNotContained("idle", "fan_on");
    TooShortNotContained("idle", "pump_on");
  }

  // ---- List and tuple results ----------------------------------------------

  /** With at least two elements, fan is on exactly when element 0 equals 1
      and pump exactly when element 1 does; every other value means off. */
  lemma IndicatorDecision(items: seq<Scalar>)
    requires |items| >= 2
    ensures Interpret(Indicators(items)).Ok?
    ensures Interpret(Indicators(items)).value.fan == On <==> EqualsOne(items[0])
    ensures Interpret(Indicators(items)).value.fan == Off <==> !EqualsOne(items[0])
    ensures Interpret(Indicators(items)).value.pump == On <==> EqualsOne(items[1])
    ensures Interpret(Indicators(items)).value.pump == Off <==> !EqualsOne(items[1])
  {
  }

  /** The 0/1 truth table of a two-output classifier. */
  lemma IndicatorTruthTable()
    ensures Interpret(Indicators([Int(0), Int(0)])) == Ok(Decision(Off, Off))
    ensures Interpret(Indicators([Int(1), Int(0)])) == Ok(Decision(On, Off))
    ensures Interpret(Indicators([Int(0), Int(1)])) == Ok(Decision(Off, On))
    ensures Interpret(Indicators([Int(1), Int(1)])) == Ok(Decision(On, On))
  {
  }

  /** Python's equality with 1 accepts 1.0 and True, not the string "1". */
  lemma IndicatorEquality()
    ensures Interpret(Indicators([Float(1.0), Bool(true)])) == Ok(Decision(On, On))
    ensures Interpret(Indicators([Str("1"), Int(2)])) == Ok(Decision(Off, Off))
  {
  }

  /** Elements after the second are never read. */
  lemma ExtraItemsIgnored(items: seq<Scalar>, extra: seq<Scalar>)
    requires |items| >= 2
    ensures Interpret(Indicators(items + extra)) == Interpret(Indicators(items[..2]))
  {
  }

  /** Reading element 0 or 1 of a shorter list raises IndexError. */
  lemma ShortIndicatorsFail()
    ensures Interpret(Indicators([])) == Err(IndexError(0, 0))
    ensures forall v :: Interpret(Indicators([v])) == Err(IndexError(1, 1))
  {
  }

  // ---- Other results -------------------------------------------------------

  /** Any other shape gives "unknown" for both actuators. */
  lemma UnrecognizedDecision()
    ensures Interpret(Unrecognized) == Ok(Decision(Unknown, Unknown))
  {
  }

  // ---- The whole handler ---------------------------------------------------

  /** Only result [0] of the batch is interpreted: two classifiers that agree
      on it give the same answer, whatever else they return. */
  lemma OnlyFirstResultMatters(
    f: seq<seq<real>> -> seq<RawOutput>, g: seq<seq<real>> -> seq<RawOutput>, t: Telemetry)
    requires |f(Features(t))| > 0 && |g(Features(t))| > 0
    requires f(Features(t))[0] == g(Features(t))[0]
    ensures Predict(f, t) == Predict(g, t)
    ensures Predict(f, t) == Interpret(f(Features(t))[0])
  {
  }

  /** The classifier is consulted only on the feature row of the request. */
  lemma OnlyFeatureRowMatters(
    f: seq<seq<real>> -> seq<RawOutput>, g: seq<seq<real>> -> seq<RawOutput>, t: Telemetry)
    requires f(Features(t)) == g(Features(t))
    ensures Predict(f, t) == Predict(g, t)
  {
  }

  /** No reading is dropped or merged when the row is built: distinct
      telemetry gives distinct batches. */
  lemma FeaturesInjective(a: Telemetry, b: Telemetry)
    requires Features(a) == Features(b)
    ensures a == b
  {
  }

  /** Whenever the handler succeeds, both reported statuses are among
      "on", "off" and "unknown", and the response tells the decisions apart. */
  lemma ResponseFaithful(d: Decision, e: Decision)
    ensures ResponseBody(d)["fanStatus"] in StatusNames && ResponseBody(d)["pumpStatus"] in StatusNames
    ensures ResponseBody(d) == ResponseBody(e) ==> d == e
  {
  }

  /** End to end for a label: the response reports "on" for an actuator
      exactly when its marker occurs in the label, and "off" otherwise. */
  lemma LabelResponse(text: string)
    ensures Interpret(Label(text)).Ok?
    ensures ResponseBody(Interpret(Label(text)).value)["fanStatus"] ==
      (if Occurs("fan_on", text) then "on" else "off")
    ensures ResponseBody(Interpret(Label(text)).value)["pumpStatus"] ==
      (if Occurs("pump_on", text) then "on" else "off")
  {
    LabelDecision(text);
  }

  /** End to end for a list or tuple of at least two elements: the response
      reports "on" for fan exactly when element 0 equals 1, and for pump
      exactly when element 1 does. */
  lemma IndicatorResponse(items: seq<Scalar>)
    requires |items| >= 2
    ensures Interpret(Indicators(items)).Ok?
    ensures ResponseBody(Interpret(Indicators(items)).value)["fanStatus"] ==
      (if EqualsOne(items[0]) then "on" else "off")
    ensures ResponseBody(Interpret(Indicators(items)).value)["pumpStatus"] ==
      (if EqualsOne(items[1]) then "on" else "off")
  {
    IndicatorDecision(items);
  }

  /** End to end for any other shape: both values are "unknown". */
  lemma UnrecognizedResponse()
    ensures ResponseBody(Interpret(Unrecognized).value) ==
      map["fanStatus" := "unknown", "pumpStatus" := "unknown"]
  {
  }
}
