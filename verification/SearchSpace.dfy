/** The search space of node tuning: the parameters an optimizer may choose, the check of a
    sample, and its conversion to a tuned profile (controllers/bayesopt.go). Values are exact
    reals; `show` stands for fmt's %.2f. */
module SearchSpace {
  import opened Wrappers
  import opened Arithmetic
  import opened Text

  const SET_MAX_LENGTH: nat := 20

  type TuneType = string

  datatype Param =
    | SetParam(name: string, values: seq<string>, setLength: nat)
    | IntUniformParam(name: string, max: int, min: int, step: int)
    | UniformParam(name: string, maxValue: real, minValue: real)

  // ---------------------------------------------------------------- creation

  /** The slots of a set parameter: its values, then empty strings. */
  function Slots(values: seq<string>): (slots: seq<string>)
    requires |values| <= SET_MAX_LENGTH
    ensures |slots| == SET_MAX_LENGTH
  {
    values + seq(SET_MAX_LENGTH - |values|, _ => "")
  }

  /** What a line "name=value,value,..." of the configuration stands for. */
  function SetParamOf(line: string): Option<Param> {
    var splited := Split(line, '=');
    if |splited| != 2 then None
    else
      var values := Split(splited[1], ',');
      if |values| >= SET_MAX_LENGTH then None else Some(SetParam(splited[0], Slots(values), |values|))
  }

  method CreateSetParam(line: string) returns (param: Option<Param>)
    ensures param == SetParamOf(line)
  {
    var splited := Split(line, '=');
    if |splited| != 2 { return None; }
    var values := Split(splited[1], ',');
    if |values| >= SET_MAX_LENGTH { return None; }
    var fixedValues := new string[SET_MAX_LENGTH](_ => "");
    for index := 0 to |values|
      invariant fixedValues[..index] == values[..index]
      invariant forall k :: index <= k < SET_MAX_LENGTH ==> fixedValues[k] == ""
    {
      fixedValues[index] := values[index];
    }
    ghost var slots := Slots(values);
    forall k | 0 <= k < SET_MAX_LENGTH ensures fixedValues[k] == slots[k] {
      if k < |values| { assert fixedValues[..|values|][k] == values[k]; }
    }
    assert fixedValues[..] == slots;
    return Some(SetParam(splited[0], fixedValues[..], |values|));
  }

  /** CreateIntUniformParam: "name=min,max" or "name=min,max,step". */
  function IntParamOf(line: string): Option<Param> {
    var splited := Split(line, '=');
    if |splited| != 2 then None
    else
      var parts := Split(splited[1], ',');
      if |parts| < 2 || !IsInt64(parts[0]) || !IsInt64(parts[1]) || (|parts| >= 3 && !IsInt64(parts[2])) then None
      else Some(IntUniformParam(splited[0], ParseInt64(parts[1]), ParseInt64(parts[0]),
                                if |parts| >= 3 then ParseInt64(parts[2]) else 1))
  }

  lemma LineSplits(name: string, values: seq<string>)
    requires '=' !in name && values != [] && forall v :: v in values ==> '=' !in v && ',' !in v
    ensures Split(name + "=" + Join(values, ','), '=') == [name, Join(values, ',')]
    ensures Split(Join(values, ','), ',') == values
  {
    NotInJoin(values, '=', ',');
    SplitAppend(name, Join(values, ','), '=');
    SplitNone(name, '=');
    SplitNone(Join(values, ','), '=');
    SplitJoin(values, ',');
    SinglesFlatten(values, ',');
  }

  lemma {:induction false} NotInJoin(parts: seq<string>, c: char, sep: char)
    requires c != sep && forall p :: p in parts ==> c !in p
    ensures c !in Join(parts, sep)
  {
    if |parts| > 1 { NotInJoin(parts[1..], c, sep); }
  }

  /** A configuration line of a set is read as what it lists, and refused from 20 values on. */
  lemma SetLineReadsBack(name: string, values: seq<string>)
    requires '=' !in name && values != [] && forall v :: v in values ==> '=' !in v && ',' !in v
    ensures var param := SetParamOf(name + "=" + Join(values, ','));
      && (param.Some? <==> |values| < SET_MAX_LENGTH)
      && (param.Some? ==> param.value.name == name && param.value.setLength == |values|
                          && param.value.values[..|values|] == values)
  {
    LineSplits(name, values);
  }

  /** ... and a line of an integer as its bounds and its step. */
  lemma IntLineReadsBack(name: string, min: int, max: int, step: int)
    requires '=' !in name && MIN_INT64 <= min <= MAX_INT64 && MIN_INT64 <= max <= MAX_INT64
    requires MIN_INT64 <= step <= MAX_INT64
    ensures IntParamOf(name + "=" + Join([ShowInt(min), ShowInt(max), ShowInt(step)], ','))
      == Some(IntUniformParam(name, max, min, step))
    ensures IntParamOf(name + "=" + Join([ShowInt(min), ShowInt(max)], ',')) == Some(IntUniformParam(name, max, min, 1))
  {
    hide ShowInt, ParseInt64, IsInt64, Split, Join;
    ShownIntParses(min);
    ShownIntParses(max);
    ShownIntParses(step);
    NumbersRead(name, [ShowInt(min), ShowInt(max), ShowInt(step)]);
    NumbersRead(name, [ShowInt(min), ShowInt(max)]);
  }

  /** What a line of 64-bit numbers is read as. */
  lemma NumbersRead(name: string, parts: seq<string>)
    requires '=' !in name && 2 <= |parts| <= 3
    requires forall i :: 0 <= i < |parts| ==> IsInt64(parts[i]) && '=' !in parts[i] && ',' !in parts[i]
    ensures IntParamOf(name + "=" + Join(parts, ',')) ==
      Some(IntUniformParam(name, ParseInt64(parts[1]), ParseInt64(parts[0]),
                           if |parts| == 3 then ParseInt64(parts[2]) else 1))
  {
    hide IsInt64, ParseInt64, Split, Join;
    LineSplits(name, parts);
  }

  /** A line of an integer is refused exactly if it lists fewer than two texts, or if one of the first three
      is no 64-bit number. */
  lemma IntLineAccepted(name: string, parts: seq<string>)
    requires '=' !in name && parts != [] && forall v :: v in parts ==> '=' !in v && ',' !in v
    ensures IntParamOf(name + "=" + Join(parts, ',')).Some?
      <==> |parts| >= 2 && forall i :: 0 <= i < 3 && i < |parts| ==> IsInt64(parts[i])
  {
    hide IsInt64, ParseInt64, Split, Join;
    LineSplits(name, parts);
  }

  // ---------------------------------------------------------------- one parameter

  function GetMin(p: Param): real {
    match p
    case SetParam(_, _, _) => 0.0
    case IntUniformParam(_, _, min, _) => min as real
    case UniformParam(_, _, minValue) => minValue
  }

  function GetMax(p: Param): real {
    match p
    case SetParam(_, _, setLength) => setLength as real
    case IntUniformParam(_, max, _, _) => max as real
    case UniformParam(_, maxValue, _) => maxValue
  }

  /** Between the bounds, both included; a set counts its values from 0, and one past the last passes. */
  predicate InRange(p: Param, v: real) {
    match p
    case SetParam(_, _, setLength) => 0.0 <= v <= setLength as real
    case IntUniformParam(_, max, min, _) => min as real <= v <= max as real
    case UniformParam(_, maxValue, minValue) => minValue <= v <= maxValue
  }

  /** v / step, rounded towards zero, times step. Go divides floats by a step of zero too; whatever the
      infinite or undefined quotient converts to, its product with the step is zero. */
  function StepTo(v: real, step: int): int {
    if step == 0 then 0 else Trunc(v / (step as real)) * step
  }

  function Validate(p: Param, v: real): real {
    match p
    case SetParam(_, _, _) => Trunc(v) as real
    case IntUniformParam(_, _, _, step) => StepTo(v, step) as real
    case UniformParam(_, _, _) => v
  }

  /** The value of a set parameter is looked up inside its array. */
  predicate LooksInside(p: Param, v: real) {
    p.SetParam? ==> 0 <= Trunc(v) < |p.values|
  }

  /** getValue */
  function GetValue(p: Param, v: real, show: real -> string): string
    requires LooksInside(p, v)
  {
    match p
    case SetParam(_, values, _) => values[Trunc(v)]
    case IntUniformParam(_, _, _, _) => ShowInt(Trunc(v))
    case UniformParam(_, _, _) => show(v)
  }

  /** What the text of a value says: for an integer its decimals, which read back as the value cut off;
      for a set the listed value at that place; for a real what `show` makes of it. */
  lemma ValueReadsBack(p: Param, v: real, show: real -> string)
    requires LooksInside(p, v)
    ensures var text := GetValue(p, v, show);
      match p
      case SetParam(_, values, _) => text in values && text == values[Trunc(v)]
      case IntUniformParam(_, _, _, _) =>
        MIN_INT64 <= Trunc(v) <= MAX_INT64 ==> ParseInt64(text) == Trunc(v) && CanonicalInt64(text)
      case UniformParam(_, _, _) => text == show(v)
  {
    if p.IntUniformParam? && MIN_INT64 <= Trunc(v) <= MAX_INT64 {
      ShownIntParses(Trunc(v));
      ShownIsCanonical(Trunc(v));
    }
    hide Trunc, ShowInt, ParseInt64, CanonicalInt64;
  }

  /** Every value of a set parameter that passes the check is looked up inside the 20 slots. It
      finds one of the listed values exactly below the upper bound; at the bound itself, which
      also passes, it finds the empty string behind them. */
  lemma SetLookup(line: string, v: real, show: real -> string)
    requires SetParamOf(line).Some? && InRange(SetParamOf(line).value, v)
    ensures var p := SetParamOf(line).value;
      var w := Validate(p, v);
      && LooksInside(p, w) && Validate(p, w) == w && InRange(p, w)
      && var values := Split(Split(line, '=')[1], ',');
      && (v < GetMax(p) ==> GetValue(p, w, show) == values[Trunc(v)])
      && (v == GetMax(p) ==> GetValue(p, w, show) == "")
  {
    TruncBounds(v);
    TruncOfInt(Trunc(v));
    hide Split;
  }

  lemma StepToIsOdd(v: real, step: int)
    requires step != 0
    ensures StepTo(-v, step) == -StepTo(v, step) && StepTo(v, -step) == StepTo(v, step)
  {
    var s := step as real;
    QuotientNegates(v, s);
    assert (-step) as real == -s;
    hide Trunc;
    TruncIsOdd(v / s);
    NegateBoth(Trunc(v / s), step);
    OddProduct(Trunc(v / s), step);
  }

  lemma OddProduct(q: int, step: int)
    ensures (-q) * step == -(q * step) && (-q) * (-step) == q * step
  {
  }

  lemma StepToAbove(v: real, step: int)
    requires v >= 0.0 && step > 0
    ensures 0.0 <= StepTo(v, step) as real <= v < StepTo(v, step) as real + step as real
  {
    var s := step as real;
    TruncatedQuotient(v, s);
    hide Trunc;
    ProductAsReal(Trunc(v / s), step);
  }

  lemma TruncatedQuotient(v: real, s: real)
    requires v >= 0.0 && s > 0.0
    ensures var w := Trunc(v / s) as real * s; 0.0 <= w <= v < w + s
  {
    QuotientTimes(v, s);
    TruncatedFactor(v / s, s, v);
  }

  lemma TruncatedFactor(x: real, s: real, v: real)
    requires v >= 0.0 && s > 0.0 && x * s == v
    ensures var w := Trunc(x) as real * s; 0.0 <= w <= v < w + s
  {
    FactorNotNegative(x, s);
    TruncBounds(x);
    Scaled(Trunc(x) as real, x, s, v, Trunc(x) as real * s);
  }

  lemma StepToIsMultiple(v: real, step: int)
    ensures Divides(step, StepTo(v, step))
  {
    if step != 0 {
      MultipleIsDivided(Trunc(v / (step as real)), step);
      hide Trunc;
    }
  }

  /** It is the multiple of step next to v on the side of zero. */
  lemma StepsDown(v: real, step: int)
    requires step != 0
    ensures var w := StepTo(v, step);
      && Divides(step, w)
      && (v >= 0.0 ==> 0.0 <= w as real <= v < w as real + Abs(step) as real)
      && (v <= 0.0 ==> w as real - Abs(step) as real < v <= w as real <= 0.0)
  {
    hide StepTo;
    StepToIsMultiple(v, step);
    StepToIsOdd(v, step);
    StepToIsOdd(v, -step);
    StepToAbove(if v >= 0.0 then v else -v, Abs(step));
  }

  lemma StepToKeepsMultiples(k: int, step: int)
    ensures StepTo((k * step) as real, step) == k * step
  {
    if step != 0 {
      ProductAsReal(k, step);
      QuotientOf(k as real, (k * step) as real, step as real);
      TruncOfInt(k);
      hide Trunc;
    }
  }

  lemma StepToKeeps(n: int, step: int)
    ensures StepTo(n as real, step) == n <==> Divides(step, n)
  {
    if Divides(step, n) {
      var k := DividesExactly(step, n);
      StepToKeepsMultiples(k, step);
    }
    StepToIsMultiple(n as real, step);
  }

  /** Validating a second time changes nothing, and a validated integer is a multiple of its step. */
  lemma ValidateIdempotent(p: Param, v: real)
    ensures Validate(p, Validate(p, v)) == Validate(p, v)
    ensures p.IntUniformParam? ==>
      Validate(p, v) == Trunc(Validate(p, v)) as real && Divides(p.step, Trunc(Validate(p, v)))
  {
    match p
    case SetParam(_, _, _) => TruncOfInt(Trunc(v));
    case UniformParam(_, _, _) =>
    case IntUniformParam(_, _, _, step) =>
      hide StepTo;
      StepToIsMultiple(v, step);
      StepToKeeps(StepTo(v, step), step);
      TruncOfInt(StepTo(v, step));
  }

  /** Whether every accepted value of an integer parameter stays within its bounds: exactly when a
      bound on the far side of zero is a multiple of the step. */
  predicate BoundsFit(p: Param)
    requires p.IntUniformParam?
  {
    p.min > p.max || ((p.min <= 0 || Divides(p.step, p.min)) && (p.max >= 0 || Divides(p.step, p.max)))
  }

  lemma IntStaysInRange(p: Param, v: real)
    requires p.IntUniformParam? && BoundsFit(p) && InRange(p, v)
    ensures InRange(p, Validate(p, v))
  {
    if p.step != 0 {
      hide StepTo;
      StepsDown(v, p.step);
      var w := StepTo(v, p.step);
      if p.min > 0 {
        assert w > p.min - Abs(p.step);
        MultiplesInOrder(w, p.min, p.step);
      }
      if p.max < 0 {
        assert p.max > w - Abs(p.step);
        MultiplesInOrder(p.max, w, p.step);
      }
    }
  }

  lemma BoundsFitExactly(p: Param)
    requires p.IntUniformParam?
    ensures BoundsFit(p) <==> forall v :: InRange(p, v) ==> InRange(p, Validate(p, v))
  {
    if BoundsFit(p) {
      forall v | InRange(p, v) ensures InRange(p, Validate(p, v)) { IntStaysInRange(p, v); }
    } else {
      BoundLeaves(p, if p.min > 0 && !Divides(p.step, p.min) then p.min else p.max);
    }
  }

  /** A bound beyond zero that is no multiple of the step is itself taken out of the bounds. */
  lemma BoundLeaves(p: Param, bound: int)
    requires p.IntUniformParam? && p.min <= p.max && !Divides(p.step, bound)
    requires bound == p.min > 0 || bound == p.max < 0
    ensures InRange(p, bound as real) && !InRange(p, Validate(p, bound as real))
  {
    if p.step != 0 {
      StepsDown(bound as real, p.step);
      StepToKeeps(bound, p.step);
      hide StepTo, Divides;
    }
  }

  /** Every value that sampling an integer parameter can draw is left alone by the validation
      exactly when the step divides the lower bound. */
  lemma DrawnIsValid(p: Param, draw: int)
    requires p.IntUniformParam?
    ensures var v := (draw * p.step + p.min) as real;
      Validate(p, v) == v <==> Divides(p.step, p.min)
  {
    hide StepTo, Divides;
    StepToKeeps(draw * p.step + p.min, p.step);
    DividesSum(draw, p.step, p.min);
  }

  // ---------------------------------------------------------------- a sample

  type Sample = map<Param, real>

  method ValidateSample(params: Sample) returns (valid: bool, r: Sample)
    ensures valid <==> forall p :: p in params ==> InRange(p, params[p])
    ensures r.Keys == params.Keys
    ensures forall p :: p in params ==> r[p] == if valid then Validate(p, params[p]) else params[p]
  {
    hide StepTo, Trunc;
    var validated: Sample := map[];
    var todo := params.Keys;
    while todo != {}
      invariant todo <= params.Keys && validated.Keys == params.Keys - todo
      invariant forall p :: p in validated ==> InRange(p, params[p]) && validated[p] == Validate(p, params[p])
      decreases todo
    {
      var p :| p in todo;
      if params[p] < GetMin(p) || params[p] > GetMax(p) { return false, params; }
      match p {
        case SetParam(_, _, _) => validated := validated[p := Validate(p, params[p])];
        case IntUniformParam(_, _, _, _) => validated := validated[p := Validate(p, params[p])];
        case UniformParam(_, _, _) => validated := validated[p := params[p]];
      }
      todo := todo - {p};
    }
    return true, validated;
  }

  /** A parameter as the configuration makes it. */
  ghost predicate Built(p: Param) {
    p.UniformParam? || exists line :: SetParamOf(line) == Some(p) || IntParamOf(line) == Some(p)
  }

  /** What an accepted sample of configured parameters is good for: every set value is looked up inside
      its array, every integer is a multiple of its step, nothing changes when it is validated again,
      and everything is within its bounds if the integers' bounds fit. */
  lemma AcceptedSample(params: Sample, r: Sample)
    requires forall p :: p in params ==> Built(p) && InRange(p, params[p])
    requires r.Keys == params.Keys && forall p :: p in params ==> r[p] == Validate(p, params[p])
    ensures AllLookInside(r)
    ensures forall p :: p in r ==> Validate(p, r[p]) == r[p]
    ensures forall p :: p in r && p.IntUniformParam? ==> r[p] == Trunc(r[p]) as real && Divides(p.step, Trunc(r[p]))
    ensures forall p :: p in r && (p.IntUniformParam? ==> BoundsFit(p)) ==> InRange(p, r[p])
  {
    forall p | p in r
      ensures LooksInside(p, r[p]) && Validate(p, r[p]) == r[p]
      ensures p.IntUniformParam? ==> r[p] == Trunc(r[p]) as real && Divides(p.step, Trunc(r[p]))
      ensures (p.IntUniformParam? ==> BoundsFit(p)) ==> InRange(p, r[p])
    {
      AcceptedValue(p, params[p]);
      ValidateIdempotent(p, params[p]);
      if p.IntUniformParam? && BoundsFit(p) { IntStaysInRange(p, params[p]); }
      hide Validate, LooksInside, InRange, BoundsFit, Divides, Trunc, Built;
    }
  }

  lemma AcceptedValue(p: Param, v: real)
    requires Built(p) && InRange(p, v)
    ensures LooksInside(p, Validate(p, v)) && (!p.IntUniformParam? ==> InRange(p, Validate(p, v)))
  {
    if p.SetParam? {
      var line :| SetParamOf(line) == Some(p) || IntParamOf(line) == Some(p);
      hide Split;
      TruncBounds(v);
      TruncOfInt(Trunc(v));
    }
  }

  // ---------------------------------------------------------------- conversion

  type TunedProfile = map<TuneType, map<string, string>>

  predicate Has(profile: TunedProfile, t: TuneType, n: string) {
    t in profile && n in profile[t]
  }

  ghost predicate AllLookInside(params: Sample) {
    forall p :: p in params ==> LooksInside(p, params[p])
  }

  ghost predicate AllNamed(params: Sample, names: map<string, TuneType>) {
    forall p :: p in params ==> p.name in names
  }

  /** `value` is what a parameter of that name stands for, and `t` is the tune type of the name. */
  ghost predicate Stands(params: Sample, names: map<string, TuneType>, show: real -> string,
                         t: TuneType, n: string, value: string)
  {
    && n in names && names[n] == t
    && exists p :: p in params && p.name == n && LooksInside(p, params[p]) && value == GetValue(p, params[p], show)
  }

  /** Every entry stands for a parameter, and no type is empty. */
  ghost predicate EntriesOf(profile: TunedProfile, params: Sample, names: map<string, TuneType>, show: real -> string)
  {
    && (forall t, n :: Has(profile, t, n) ==> Stands(params, names, show, t, n, profile[t][n]))
    && (forall t :: t in profile ==> exists n :: Has(profile, t, n))
  }

  ghost predicate HasEach(profile: TunedProfile, params: set<Param>, names: map<string, TuneType>) {
    forall p :: p in params ==> p.name in names && Has(profile, names[p.name], p.name)
  }

  function Put(profile: TunedProfile, t: TuneType, n: string, value: string): TunedProfile {
    profile[t := (if t in profile then profile[t] else map[])[n := value]]
  }

  lemma PutHas(profile: TunedProfile, t: TuneType, n: string, value: string)
    ensures var more := Put(profile, t, n, value);
      && Has(more, t, n) && more[t][n] == value
      && forall t', n' :: (t', n') != (t, n) ==>
           (Has(more, t', n') <==> Has(profile, t', n')) && (Has(profile, t', n') ==> more[t'][n'] == profile[t'][n'])
  {
  }

  lemma PutKeepsEntries(profile: TunedProfile, params: Sample, names: map<string, TuneType>, show: real -> string,
                        p: Param)
    requires EntriesOf(profile, params, names, show) && p in params && p.name in names && LooksInside(p, params[p])
    ensures EntriesOf(Put(profile, names[p.name], p.name, GetValue(p, params[p], show)), params, names, show)
  {
    var t, value := names[p.name], GetValue(p, params[p], show);
    var more := Put(profile, t, p.name, value);
    PutHas(profile, t, p.name, value);
    assert Stands(params, names, show, t, p.name, value);
    hide Put, GetValue, Stands, Has;
    forall t' | t' in more ensures exists n :: Has(more, t', n) {
      if t' != t {
        assert t' in profile by { hide *; PutTypes(profile, t, p.name, value); }
        var n :| Has(profile, t', n);
        assert Has(more, t', n) by { assert (t', n) != (t, p.name); }
      }
    }
  }

  lemma PutTypes(profile: TunedProfile, t: TuneType, n: string, value: string)
    ensures Put(profile, t, n, value).Keys == profile.Keys + {t}
  {
  }

  lemma PutKeepsEach(profile: TunedProfile, params: set<Param>, names: map<string, TuneType>, p: Param, value: string)
    requires HasEach(profile, params, names) && p.name in names
    ensures HasEach(Put(profile, names[p.name], p.name, value), params + {p}, names)
  {
    PutHas(profile, names[p.name], p.name, value);
    hide Put, Has;
  }

  /** How a conversion ends: the profile is complete, a name has no tune type (the error, with the
      profile so far), or a set value lies outside its array (the panic). */
  datatype Ending = Complete | NoTuneType(name: string) | OutOfArray(p: Param)

  method ConvertToProfile(params: Sample, names: map<string, TuneType>, show: real -> string)
    returns (profile: TunedProfile, ending: Ending)
    ensures ending.Complete? <==> AllNamed(params, names) && AllLookInside(params)
    ensures ending.NoTuneType? ==> ending.name !in names && exists p :: p in params && p.name == ending.name
    ensures ending.OutOfArray? ==>
      ending.p in params && ending.p.name in names && !LooksInside(ending.p, params[ending.p])
    ensures EntriesOf(profile, params, names, show)
    ensures ending.Complete? ==> HasEach(profile, params.Keys, names)
  {
    hide EntriesOf, GetValue, Has, HasEach, LooksInside;
    profile := map[];
    var todo := params.Keys;
    NothingYet(params, names, show);
    assert params.Keys - todo == {};
    while todo != {}
      invariant todo <= params.Keys
      invariant EntriesOf(profile, params, names, show)
      invariant HasEach(profile, params.Keys - todo, names)
      invariant forall p :: p in params.Keys - todo ==> LooksInside(p, params[p])
      decreases todo
    {
      var p :| p in todo;
      if p.name !in names { return profile, NoTuneType(p.name); }
      if !LooksInside(p, params[p]) { return profile, OutOfArray(p); }
      var t := names[p.name];
      var entries := if t in profile then profile[t] else map[];
      var value := GetValue(p, params[p], show);
      PutKeepsEntries(profile, params, names, show, p);
      PutKeepsEach(profile, params.Keys - todo, names, p, value);
      assert params.Keys - todo + {p} == params.Keys - (todo - {p});
      profile := profile[t := entries[p.name := value]];
      todo := todo - {p};
    }
    assert params.Keys - todo == params.Keys;
    EachIsNamed(profile, params.Keys, names);
    return profile, Complete;
  }

  lemma NothingYet(params: Sample, names: map<string, TuneType>, show: real -> string)
    ensures EntriesOf(map[], params, names, show) && HasEach(map[], {}, names)
  {
  }

  lemma EachIsNamed(profile: TunedProfile, params: set<Param>, names: map<string, TuneType>)
    requires HasEach(profile, params, names)
    ensures forall p :: p in params ==> p.name in names
  {
  }

  ghost predicate DistinctNames(params: Sample) {
    forall p, q :: p in params && q in params && p != q ==> p.name != q.name
  }

  function Entries(profile: TunedProfile): set<(TuneType, string)> {
    set t, n | t in profile && n in profile[t] :: (t, n)
  }

  function PairsOf(names: map<string, TuneType>, keys: set<string>): set<(TuneType, string)>
    requires keys <= names.Keys
  {
    set n | n in keys :: (names[n], n)
  }

  function NamesOf(params: set<Param>): set<string> {
    set p | p in params :: p.name
  }

  lemma {:induction false} CountNames(params: set<Param>)
    ensures |NamesOf(params)| <= |params|
    ensures |NamesOf(params)| == |params| <==> forall p, q :: p in params && q in params && p != q ==> p.name != q.name
  {
    if params != {} {
      var p :| p in params;
      var rest := params - {p};
      CountNames(rest);
      assert NamesOf(params) == NamesOf(rest) + {p.name};
      if p.name in NamesOf(rest) {
        var q :| q in rest && q.name == p.name;
        assert NamesOf(params) == NamesOf(rest);
      }
    }
  }

  lemma {:induction false} CountPairs(names: map<string, TuneType>, keys: set<string>)
    requires keys <= names.Keys
    ensures |PairsOf(names, keys)| == |keys|
  {
    if keys != {} {
      var k :| k in keys;
      CountPairs(names, keys - {k});
      assert PairsOf(names, keys) == PairsOf(names, keys - {k}) + {(names[k], k)};
    }
  }

  lemma EntriesArePairs(params: Sample, names: map<string, TuneType>, show: real -> string, profile: TunedProfile)
    requires EntriesOf(profile, params, names, show) && HasEach(profile, params.Keys, names)
    ensures NamesOf(params.Keys) <= names.Keys
    ensures Entries(profile) == PairsOf(names, NamesOf(params.Keys))
  {
    hide EntriesOf;
    forall p | p in params ensures p.name in names { }
    hide HasEach;
    assert NamesOf(params.Keys) <= names.Keys;
    forall t, n ensures (t, n) in Entries(profile) <==> n in NamesOf(params.Keys) && names[n] == t {
      HasMeans(params, names, show, profile, t, n);
    }
  }

  lemma HasMeans(params: Sample, names: map<string, TuneType>, show: real -> string, profile: TunedProfile,
                 t: TuneType, n: string)
    requires EntriesOf(profile, params, names, show) && HasEach(profile, params.Keys, names)
    ensures (t, n) in Entries(profile) <==> Has(profile, t, n)
    ensures Has(profile, t, n) <==> n in NamesOf(params.Keys) && n in names && names[n] == t
  {
    if Has(profile, t, n) { assert Stands(params, names, show, t, n, profile[t][n]); }
    hide EntriesOf;
  }

  /** A converted profile has one entry per parameter exactly when their names are distinct; then
      each holds the text of its own parameter. */
  lemma OneEntryPerParameter(params: Sample, names: map<string, TuneType>, show: real -> string, profile: TunedProfile)
    requires EntriesOf(profile, params, names, show) && HasEach(profile, params.Keys, names)
    ensures |Entries(profile)| == |params| <==> DistinctNames(params)
    ensures DistinctNames(params) ==> forall p :: p in params ==>
      && Has(profile, names[p.name], p.name) && LooksInside(p, params[p])
      && profile[names[p.name]][p.name] == GetValue(p, params[p], show)
  {
    EntriesArePairs(params, names, show, profile);
    CountNames(params.Keys);
    CountPairs(names, NamesOf(params.Keys));
    assert |params| == |params.Keys|;
    hide Entries, PairsOf, NamesOf, GetValue, LooksInside;
    if DistinctNames(params) {
      forall p | p in params
        ensures Has(profile, names[p.name], p.name) && LooksInside(p, params[p])
        ensures profile[names[p.name]][p.name] == GetValue(p, params[p], show)
      {
        assert Stands(params, names, show, names[p.name], p.name, profile[names[p.name]][p.name]);
      }
    }
  }

  /** In whatever order the parameters are visited, the profile is the same. */
  lemma ProfileIsUnique(params: Sample, names: map<string, TuneType>, show: real -> string,
                        profile: TunedProfile, profile': TunedProfile)
    requires DistinctNames(params)
    requires EntriesOf(profile, params, names, show) && HasEach(profile, params.Keys, names)
    requires EntriesOf(profile', params, names, show) && HasEach(profile', params.Keys, names)
    ensures profile == profile'
  {
    EntriesAgree(params, names, show, profile, profile');
    EntriesAgree(params, names, show, profile', profile);
    hide HasEach, Stands, GetValue, LooksInside, Has;
    SameEntries(profile, profile');
  }

  lemma SameEntries(profile: TunedProfile, profile': TunedProfile)
    requires forall t, n :: Has(profile, t, n) <==> Has(profile', t, n)
    requires forall t, n :: Has(profile, t, n) && Has(profile', t, n) ==> profile'[t][n] == profile[t][n]
    requires forall t :: t in profile ==> exists n :: Has(profile, t, n)
    requires forall t :: t in profile' ==> exists n :: Has(profile', t, n)
    ensures profile == profile'
  {
    forall t | t in profile ensures t in profile' && profile[t] == profile'[t] {
      var n :| Has(profile, t, n);
      SameType(profile, profile', t);
    }
    forall t | t in profile' ensures t in profile {
      var n :| Has(profile', t, n);
    }
  }

  lemma SameType(profile: TunedProfile, profile': TunedProfile, t: TuneType)
    requires t in profile && t in profile'
    requires forall n :: Has(profile, t, n) <==> Has(profile', t, n)
    requires forall n :: Has(profile, t, n) && Has(profile', t, n) ==> profile'[t][n] == profile[t][n]
    ensures profile[t] == profile'[t]
  {
    forall n ensures n in profile[t] <==> n in profile'[t] { assert Has(profile, t, n) <==> Has(profile', t, n); }
    forall n | n in profile[t] ensures profile[t][n] == profile'[t][n] { assert Has(profile, t, n); }
  }

  lemma EntriesAgree(params: Sample, names: map<string, TuneType>, show: real -> string,
                     profile: TunedProfile, profile': TunedProfile)
    requires DistinctNames(params)
    requires EntriesOf(profile, params, names, show)
    requires EntriesOf(profile', params, names, show) && HasEach(profile', params.Keys, names)
    ensures forall t, n :: Has(profile, t, n) ==> Has(profile', t, n) && profile'[t][n] == profile[t][n]
  {
    hide GetValue, LooksInside;
    forall t, n | Has(profile, t, n) ensures Has(profile', t, n) && profile'[t][n] == profile[t][n] {
      assert Stands(params, names, show, t, n, profile[t][n]);
      var p :| p in params && p.name == n && LooksInside(p, params[p]) && profile[t][n] == GetValue(p, params[p], show);
      assert Stands(params, names, show, t, n, profile'[t][n]);
    }
  }
}
