/** Model of scripts/viirs_config.py: the configuration object, its numeric
    vector, the merge of a vector into a template, run identities, and the
    key/value view written to an ini file. */
module Config {
  import opened Wrappers
  import opened PyText

  /** The Python values a configuration attribute can hold. */
  datatype Value =
    | Float(r: real)
    | Int(i: int)
    | Str(s: string)
    | StrList(items: seq<string>)
    | NoneValue

  /** The attributes a configuration object can carry. */
  datatype Attr =
    | BaseDir | use375af | use750af
    | M07UB | M08LB | M08UB | M10LB | M10UB | M11LB | RthSub | Rth | RthLB | MaxSolZen
    | TemporalProximity | SpatialProximity
    | TextOut | ShapeOut | DatabaseOut | ShapePath | PostBin
    | ImageDates | DBname | DBuser | pwd | DBhost | DBschema
    | run_id

  /** The exceptions raised while reading or converting attributes. */
  datatype Error =
    | AttributeError(attr: Attr)   // the object lacks the attribute
    | NoSuchMethod                 // AttributeError: the value is not a string (.lower(), .rfind())
    | TypeError                    // float(None), ','.join(None)
    | ValueError                   // int('x'), '{:d}'.format(2.5)

  /** `VIIRSConfig` and its subclass `SequentialVIIRSConfig`; they differ only
      in how a run id is made. */
  datatype ConfigClass = VIIRSConfig | SequentialVIIRSConfig

  /** A configuration object: its class and the attributes set on it so far. */
  datatype ConfigObject = ConfigObject(cls: ConfigClass, attrs: map<Attr, Value>)

  const FloatVectorParams: seq<Attr> :=
    [M07UB, M08LB, M08UB, M10LB, M10UB, M11LB, RthSub, Rth, RthLB, MaxSolZen]
  const IntVectorParams: seq<Attr> := [TemporalProximity, SpatialProximity]
  /** `float_vector_params + int_vector_params`. */
  const VectorParamNames: seq<Attr> :=
    [M07UB, M08LB, M08UB, M10LB, M10UB, M11LB, RthSub, Rth, RthLB, MaxSolZen,
     TemporalProximity, SpatialProximity]

  /** The `ConfigVector` namedtuple: one value per entry of VectorParamNames,
      in that order. */
  type ConfigVector = v: seq<Value> | |v| == 12
    witness [NoneValue, NoneValue, NoneValue, NoneValue, NoneValue, NoneValue,
             NoneValue, NoneValue, NoneValue, NoneValue, NoneValue, NoneValue]

  /** The position of a vector parameter in the namedtuple. */
  function VectorIndex(a: Attr): (k: nat)
    requires a in VectorParamNames
    ensures k < 12 && VectorParamNames[k] == a
  {
    match a
    case M07UB => 0
    case M08LB => 1
    case M08UB => 2
    case M10LB => 3
    case M10UB => 4
    case M11LB => 5
    case RthSub => 6
    case Rth => 7
    case RthLB => 8
    case MaxSolZen => 9
    case TemporalProximity => 10
    case SpatialProximity => 11
  }

  /** The fields merge_into_template copies verbatim from the template, in
      the order it copies them. */
  const FixedFields: seq<Attr> :=
    [TextOut, ShapeOut, DatabaseOut, PostBin, DBname, DBuser, DBhost, pwd,
     ImageDates, BaseDir, use375af, use750af]

  // ---------------------------------------------------------------------------
  // get_vector: float() and int() coercion of the twelve vector parameters
  // ---------------------------------------------------------------------------

  /** `int(r)` for a float: truncation toward zero. */
  function Truncate(r: real): (n: int)
    ensures r >= 0.0 ==> n as real <= r < n as real + 1.0
    ensures r < 0.0 ==> n as real - 1.0 < r <= n as real
  {
    if r >= 0.0 then r.Floor else -((-r).Floor)
  }

  /** `float(v)`. */
  function ToFloat(v: Value): Result<real, Error> {
    match v
    case Float(r) => Ok(r)
    case Int(i) => Ok(i as real)
    case Str(s) => if ParseFloat(s).Some? then Ok(ParseFloat(s).value) else Err(ValueError)
    case _ => Err(TypeError)
  }

  /** `int(v)`. */
  function ToInt(v: Value): Result<int, Error> {
    match v
    case Int(i) => Ok(i)
    case Float(r) => Ok(Truncate(r))
    case Str(s) => if ParseInt(s).Some? then Ok(ParseInt(s).value) else Err(ValueError)
    case _ => Err(TypeError)
  }

  /** Parameter `k` of get_vector: float() for the ten float parameters,
      int() for the two int parameters. */
  function CoerceParam(c: ConfigObject, k: nat): (r: Result<Value, Error>)
    requires k < 12
    ensures r.Ok? ==> (k < 10 ==> r.value.Float?) && (k >= 10 ==> r.value.Int?)
    ensures VectorParamNames[k] !in c.attrs ==> r == Err(AttributeError(VectorParamNames[k]))
    ensures VectorParamNames[k] in c.attrs && k < 10 && c.attrs[VectorParamNames[k]].Float? ==>
              r == Ok(c.attrs[VectorParamNames[k]])
    ensures VectorParamNames[k] in c.attrs && k >= 10 && c.attrs[VectorParamNames[k]].Int? ==>
              r == Ok(c.attrs[VectorParamNames[k]])
  {
    var name := VectorParamNames[k];
    if name !in c.attrs then Err(AttributeError(name))
    else if k < 10 then
      var f :- ToFloat(c.attrs[name]);
      Ok(Float(f))
    else
      var n :- ToInt(c.attrs[name]);
      Ok(Int(n))
  }

  /** The coerced parameters k.. of get_vector, or the first failure among them. */
  function CoerceFrom(c: ConfigObject, k: nat): (r: Result<seq<Value>, Error>)
    requires k <= 12
    ensures r.Ok? <==> forall j :: k <= j < 12 ==> CoerceParam(c, j).Ok?
    ensures r.Ok? ==> (|r.value| == 12 - k &&
              forall j :: k <= j < 12 ==> r.value[j - k] == CoerceParam(c, j).value)
    decreases 12 - k
  {
    if k == 12 then Ok([])
    else
      var v :- CoerceParam(c, k);
      var rest :- CoerceFrom(c, k + 1);
      Ok([v] + rest)
  }

  /** A failure of the coercion from k on is the failure of the first
      parameter that fails. */
  lemma {:induction false} CoerceFromFirstFailure(c: ConfigObject, k: nat)
    requires k <= 12 && CoerceFrom(c, k).Err?
    ensures exists j :: (k <= j < 12 && CoerceParam(c, j) == Err(CoerceFrom(c, k).error) &&
              forall i :: k <= i < j ==> CoerceParam(c, i).Ok?)
    decreases 12 - k
  {
    if CoerceParam(c, k).Err? {
      assert CoerceParam(c, k) == Err(CoerceFrom(c, k).error);
    } else {
      CoerceFromFirstFailure(c, k + 1);
      var j :| k + 1 <= j < 12 && CoerceParam(c, j) == Err(CoerceFrom(c, k + 1).error) &&
               forall i :: k + 1 <= i < j ==> CoerceParam(c, i).Ok?;
      assert CoerceParam(c, j) == Err(CoerceFrom(c, k).error);
    }
  }

  /** What get_vector returns: the vector of coerced parameters, or the first
      exception raised while coercing them in order. */
  function VectorOf(c: ConfigObject): (r: Result<ConfigVector, Error>)
    ensures r.Ok? <==> forall k :: 0 <= k < 12 ==> CoerceParam(c, k).Ok?
    ensures r.Ok? ==> forall k :: 0 <= k < 12 ==> r.value[k] == CoerceParam(c, k).value
    ensures r.Err? ==> exists k :: (0 <= k < 12 && CoerceParam(c, k) == Err(r.error) &&
              forall j :: 0 <= j < k ==> CoerceParam(c, j).Ok?)
  {
    var s := CoerceFrom(c, 0);
    if s.Err? then CoerceFromFirstFailure(c, 0); Err(s.error) else var v: ConfigVector := s.value; Ok(v)
  }

  /** get_vector fails with the error of the first parameter that fails. */
  lemma FirstFailure(c: ConfigObject, k: nat)
    requires k < 12 && CoerceParam(c, k).Err?
    requires forall j :: 0 <= j < k ==> CoerceParam(c, j).Ok?
    ensures VectorOf(c) == Err(CoerceParam(c, k).error)
  {
    var r := VectorOf(c);
    var k' :| 0 <= k' < 12 && CoerceParam(c, k') == Err(r.error) &&
              forall j :: 0 <= j < k' ==> CoerceParam(c, j).Ok?;
  }

  /** `get_vector`: two loops that fill a dictionary, then the namedtuple. */
  method GetVector(c: ConfigObject) returns (r: Result<ConfigVector, Error>)
    ensures r == VectorOf(c)
  {
    var floats := CoerceFloats(c);
    if floats.Err? {
      return Err(floats.error);
    }
    var params := CoerceInts(c, floats.value);
    if params.Err? {
      return Err(params.error);
    }
    var m := params.value;
    var v: ConfigVector := seq(12, k requires 0 <= k < 12 => m[VectorParamNames[k]]);
    assert VectorOf(c).Ok?;
    assert v == VectorOf(c).value;
    r := Ok(v);
  }

  /** The first loop of get_vector: `float(getattr(self, p))` for each float
      parameter, stopping at the first exception. */
  method CoerceFloats(c: ConfigObject) returns (r: Result<map<Attr, Value>, Error>)
    ensures r.Err? ==> VectorOf(c) == Err(r.error)
    ensures r.Ok? ==> forall j :: 0 <= j < 10 ==> (CoerceParam(c, j).Ok? &&
              VectorParamNames[j] in r.value && r.value[VectorParamNames[j]] == CoerceParam(c, j).value)
  {
    var params: map<Attr, Value> := map[];
    for k := 0 to |FloatVectorParams|
      invariant forall j :: 0 <= j < k ==> CoerceParam(c, j).Ok?
      invariant forall j :: 0 <= j < k ==> (VectorParamNames[j] in params &&
                  params[VectorParamNames[j]] == CoerceParam(c, j).value)
    {
      var p := FloatVectorParams[k];
      assert p == VectorParamNames[k];
      if p !in c.attrs {
        FirstFailure(c, k);
        return Err(AttributeError(p));
      }
      var f := ToFloat(c.attrs[p]);
      if f.Err? {
        FirstFailure(c, k);
        return Err(f.error);
      }
      VectorIndexInverse();
      assert forall j :: 0 <= j < k ==> VectorParamNames[j] != p;
      params := params[p := Float(f.value)];
    }
    r := Ok(params);
  }

  /** The second loop of get_vector: `int(getattr(self, p))` for each
      integer parameter, added to the floats already read. */
  method CoerceInts(c: ConfigObject, floats: map<Attr, Value>) returns (r: Result<map<Attr, Value>, Error>)
    requires forall j :: 0 <= j < 10 ==> (CoerceParam(c, j).Ok? &&
               VectorParamNames[j] in floats && floats[VectorParamNames[j]] == CoerceParam(c, j).value)
    ensures r.Err? ==> VectorOf(c) == Err(r.error)
    ensures r.Ok? ==> forall j :: 0 <= j < 12 ==> (CoerceParam(c, j).Ok? &&
              VectorParamNames[j] in r.value && r.value[VectorParamNames[j]] == CoerceParam(c, j).value)
  {
    var params := floats;
    for k := 0 to |IntVectorParams|
      invariant forall j :: 0 <= j < 10 + k ==> CoerceParam(c, j).Ok?
      invariant forall j :: 0 <= j < 10 + k ==> (VectorParamNames[j] in params &&
                  params[VectorParamNames[j]] == CoerceParam(c, j).value)
    {
      var p := IntVectorParams[k];
      assert p == VectorParamNames[10 + k];
      if p !in c.attrs {
        FirstFailure(c, 10 + k);
        return Err(AttributeError(p));
      }
      var n := ToInt(c.attrs[p]);
      if n.Err? {
        FirstFailure(c, 10 + k);
        return Err(n.error);
      }
      VectorIndexInverse();
      assert forall j :: 0 <= j < 10 + k ==> VectorParamNames[j] != p;
      params := params[p := Int(n.value)];
    }
    r := Ok(params);
  }

  // ---------------------------------------------------------------------------
  // Run ids and output directories
  // ---------------------------------------------------------------------------

  /** The class-level `_run` counter of SequentialVIIRSConfig. */
  class RunCounter {
    var run: int

    constructor()
      ensures run == 0
    {
      run := 0;
    }

    /** `SequentialVIIRSConfig.create_run_id`: returns the counter, then
        increments it. */
    method CreateRunId() returns (id: int)
      modifies this
      ensures id == old(run) && run == old(run) + 1
    {
      id := run;
      run := run + 1;
    }
  }

  /** `perturb_dir`: the run id, as decimal text, placed in the directory
      that contains `orig`. */
  function PerturbDir(orig: string, runId: int): string {
    JoinPath(Dirname(orig), FormatInt(runId))
  }

  /** The last component of a perturbed directory is the run id. */
  lemma PerturbDirName(orig: string, runId: int)
    ensures Basename(PerturbDir(orig, runId)) == FormatInt(runId)
  {
    JoinBasename(Dirname(orig), FormatInt(runId));
  }

  /** Every run's output directory lives in the same containing directory as
      the template's. */
  lemma PerturbDirSameParent(orig: string, runId: int)
    ensures Dirname(PerturbDir(orig, runId)) == Dirname(orig)
  {
    DirnameShape(orig);
    JoinDirname(Dirname(orig), FormatInt(runId));
  }

  /** Distinct run ids give distinct output directories. */
  lemma PerturbDirInjective(orig1: string, orig2: string, id1: int, id2: int)
    requires PerturbDir(orig1, id1) == PerturbDir(orig2, id2)
    ensures id1 == id2
  {
    PerturbDirName(orig1, id1);
    PerturbDirName(orig2, id2);
    FormatIntInjective(id1, id2);
  }

  /** The test suite's example: the code names the directory after the bare
      run id, whereas the test expects a `Run_` prefix. */
  lemma PerturbDirExample()
    ensures PerturbDir("/hey/there/Ima/path", 7) == "/hey/there/Ima/7"
    ensures PerturbDir("/hey/there/Ima/path", 7) != "/hey/there/Ima/Run_7"
  {
    assert RFind("/hey/there/Ima/path", '/') == 14;
    assert FormatInt(7) == "7";
  }

  // ---------------------------------------------------------------------------
  // merge_into_template
  // ---------------------------------------------------------------------------

  /** The fields merge_into_template copies from the template. */
  predicate IsFixed(a: Attr) {
    a.TextOut? || a.ShapeOut? || a.DatabaseOut? || a.PostBin? || a.DBname? || a.DBuser? ||
    a.DBhost? || a.pwd? || a.ImageDates? || a.BaseDir? || a.use375af? || a.use750af?
  }

  /** The fields of the parameter vector. */
  predicate IsVectorParam(a: Attr) {
    a.M07UB? || a.M08LB? || a.M08UB? || a.M10LB? || a.M10UB? || a.M11LB? ||
    a.RthSub? || a.Rth? || a.RthLB? || a.MaxSolZen? || a.TemporalProximity? || a.SpatialProximity?
  }

  /** FixedFields and VectorParamNames list exactly those fields. */
  lemma FieldLists()
    ensures forall k :: 0 <= k < |FixedFields| ==> IsFixed(FixedFields[k])
    ensures forall a :: IsFixed(a) ==> a in FixedFields
    ensures forall k :: 0 <= k < |VectorParamNames| ==> IsVectorParam(VectorParamNames[k])
    ensures forall a :: IsVectorParam(a) ==> a in VectorParamNames
  {
  }

  /** The first fixed field, from position k of FixedFields on, that the
      template lacks. */
  function MissingFrom(t: map<Attr, Value>, k: nat): (r: Option<Attr>)
    requires k <= |FixedFields|
    ensures r.None? <==> forall j :: k <= j < |FixedFields| ==> FixedFields[j] in t
    ensures r.Some? ==> r.value !in t
    decreases |FixedFields| - k
  {
    if k == |FixedFields| then None
    else if FixedFields[k] !in t then Some(FixedFields[k])
    else MissingFrom(t, k + 1)
  }

  /** The template carries every field merge_into_template reads from it, and
      its ShapePath is text. */
  predicate MergeSucceeds(t: ConfigObject) {
    (forall a :: IsFixed(a) ==> a in t.attrs) &&
    ShapePath in t.attrs && t.attrs[ShapePath].Str?
  }

  /** No fixed field is missing exactly when every fixed field is there. */
  lemma NoneMissing(t: map<Attr, Value>)
    ensures MissingFrom(t, 0).None? <==> forall a :: IsFixed(a) ==> a in t
  {
    FieldLists();
  }

  /** The fixed fields copied from a template. */
  function FixedCopy(t: map<Attr, Value>): (m: map<Attr, Value>)
    requires forall a :: IsFixed(a) ==> a in t
    ensures forall a :: a in m <==> IsFixed(a)
    ensures forall a :: a in m ==> m[a] == t[a]
  {
    FieldLists();
    map a | a in FixedFields :: t[a]
  }

  /** The vector's parameters as attributes. */
  function VectorAttrs(vec: ConfigVector): (m: map<Attr, Value>)
    ensures forall a :: a in m <==> IsVectorParam(a)
    ensures forall k :: 0 <= k < 12 ==> VectorParamNames[k] in m && m[VectorParamNames[k]] == vec[k]
  {
    FieldLists();
    VectorIndexInverse();
    map a | a in VectorParamNames :: vec[VectorIndex(a)]
  }

  /** VectorIndex undoes the listing of VectorParamNames. */
  lemma VectorIndexInverse()
    ensures forall k :: 0 <= k < 12 ==> VectorIndex(VectorParamNames[k]) == k
    ensures forall k :: 0 <= k < 12 ==> IsVectorParam(VectorParamNames[k]) && !IsFixed(VectorParamNames[k])
  {
    forall k | 0 <= k < 12
      ensures VectorIndex(VectorParamNames[k]) == k
      ensures IsVectorParam(VectorParamNames[k]) && !IsFixed(VectorParamNames[k])
    {
      if k < 6 {
        assert VectorParamNames[k] == [M07UB, M08LB, M08UB, M10LB, M10UB, M11LB][k];
      } else {
        assert VectorParamNames[k] == [RthSub, Rth, RthLB, MaxSolZen, TemporalProximity, SpatialProximity][k - 6];
      }
    }
  }

  /** A fixed field is neither a vector parameter nor one of the two
      attributes merge_into_template sets itself. */
  lemma FixedIsNotSet(a: Attr)
    requires IsFixed(a)
    ensures !IsVectorParam(a) && a != run_id && a != ShapePath
  {
  }

  /** The attributes of a successful merge, set in the order
      merge_into_template sets them, with `shapePath` the perturbed output
      directory. */
  function MergedAttrs(vec: ConfigVector, t: map<Attr, Value>, runId: int, shapePath: string)
    : map<Attr, Value>
    requires forall a :: IsFixed(a) ==> a in t
  {
    (FixedCopy(t) + VectorAttrs(vec))[run_id := Int(runId)][ShapePath := Str(shapePath)]
  }

  /** The object merge_into_template builds, or the AttributeError of the
      first template field it cannot read. */
  function Merged(cls: ConfigClass, vec: ConfigVector, t: ConfigObject, runId: int)
    : (r: Result<ConfigObject, Error>)
    ensures r.Ok? <==> MergeSucceeds(t)
    ensures r.Ok? ==> r.value.cls == cls
    ensures MissingFrom(t.attrs, 0).Some? ==> r == Err(AttributeError(MissingFrom(t.attrs, 0).value))
    ensures MissingFrom(t.attrs, 0).None? && ShapePath !in t.attrs ==> r == Err(AttributeError(ShapePath))
    ensures MissingFrom(t.attrs, 0).None? && ShapePath in t.attrs && !t.attrs[ShapePath].Str? ==>
              r == Err(NoSuchMethod)
  {
    NoneMissing(t.attrs);
    var missing := MissingFrom(t.attrs, 0);
    if missing.Some? then Err(AttributeError(missing.value))
    else if ShapePath !in t.attrs then Err(AttributeError(ShapePath))
    else if !t.attrs[ShapePath].Str? then Err(NoSuchMethod)
    else Ok(ConfigObject(cls, MergedAttrs(vec, t.attrs, runId, PerturbDir(t.attrs[ShapePath].s, runId))))
  }

  /** A merged object has exactly the fixed fields, the vector parameters,
      run_id and ShapePath; in particular it has no DBschema. */
  lemma MergedKeys(cls: ConfigClass, vec: ConfigVector, t: ConfigObject, runId: int)
    requires MergeSucceeds(t)
    ensures forall a :: a in Merged(cls, vec, t, runId).value.attrs <==>
              IsFixed(a) || IsVectorParam(a) || a == run_id || a == ShapePath
    ensures DBschema !in Merged(cls, vec, t, runId).value.attrs
  {
    var dir := PerturbDir(t.attrs[ShapePath].s, runId);
    assert Merged(cls, vec, t, runId).value.attrs == MergedAttrs(vec, t.attrs, runId, dir);
    MergedAttrsKeys(vec, t.attrs, runId, dir);
  }

  lemma MergedAttrsKeys(vec: ConfigVector, t: map<Attr, Value>, runId: int, shapePath: string)
    requires forall a :: IsFixed(a) ==> a in t
    ensures forall a :: a in MergedAttrs(vec, t, runId, shapePath) <==>
              IsFixed(a) || IsVectorParam(a) || a == run_id || a == ShapePath
    ensures DBschema !in MergedAttrs(vec, t, runId, shapePath)
  {
  }

  /** A merged object copies the template's fixed fields unchanged. */
  lemma MergedCopiesTemplate(cls: ConfigClass, vec: ConfigVector, t: ConfigObject, runId: int)
    requires MergeSucceeds(t)
    ensures forall a :: IsFixed(a) ==> Merged(cls, vec, t, runId).value.attrs[a] == t.attrs[a]
  {
    var dir := PerturbDir(t.attrs[ShapePath].s, runId);
    assert Merged(cls, vec, t, runId).value.attrs == MergedAttrs(vec, t.attrs, runId, dir);
    FixedInMergedAttrs(vec, t.attrs, runId, dir);
  }

  lemma FixedInMergedAttrs(vec: ConfigVector, t: map<Attr, Value>, runId: int, shapePath: string)
    requires forall a :: IsFixed(a) ==> a in t
    ensures forall a :: IsFixed(a) ==> (a in MergedAttrs(vec, t, runId, shapePath) &&
              MergedAttrs(vec, t, runId, shapePath)[a] == t[a])
  {
    var m := MergedAttrs(vec, t, runId, shapePath);
    forall a | IsFixed(a) ensures a in m && m[a] == t[a] {
      FixedIsNotSet(a);
    }
  }

  /** A merged object carries the vector's parameters. */
  lemma MergedCarriesVector(cls: ConfigClass, vec: ConfigVector, t: ConfigObject, runId: int)
    requires MergeSucceeds(t)
    ensures forall k :: 0 <= k < 12 ==> (VectorParamNames[k] in Merged(cls, vec, t, runId).value.attrs &&
              Merged(cls, vec, t, runId).value.attrs[VectorParamNames[k]] == vec[k])
  {
    var dir := PerturbDir(t.attrs[ShapePath].s, runId);
    assert Merged(cls, vec, t, runId).value.attrs == MergedAttrs(vec, t.attrs, runId, dir);
    VectorInMergedAttrs(vec, t.attrs, runId, dir);
  }

  lemma VectorInMergedAttrs(vec: ConfigVector, t: map<Attr, Value>, runId: int, shapePath: string)
    requires forall a :: IsFixed(a) ==> a in t
    ensures forall k :: 0 <= k < 12 ==> (VectorParamNames[k] in MergedAttrs(vec, t, runId, shapePath) &&
              MergedAttrs(vec, t, runId, shapePath)[VectorParamNames[k]] == vec[k])
  {
    var m := MergedAttrs(vec, t, runId, shapePath);
    FieldLists();
    forall k | 0 <= k < 12 ensures VectorParamNames[k] in m && m[VectorParamNames[k]] == vec[k] {
      assert IsVectorParam(VectorParamNames[k]);
    }
  }

  /** A merged object carries its run id, and an output directory named
      after the run id beside the template's. */
  lemma MergedRunIdentity(cls: ConfigClass, vec: ConfigVector, t: ConfigObject, runId: int)
    requires MergeSucceeds(t)
    ensures run_id in Merged(cls, vec, t, runId).value.attrs
    ensures Merged(cls, vec, t, runId).value.attrs[run_id] == Int(runId)
    ensures ShapePath in Merged(cls, vec, t, runId).value.attrs
    ensures Merged(cls, vec, t, runId).value.attrs[ShapePath].Str?
    ensures var dir := Merged(cls, vec, t, runId).value.attrs[ShapePath].s;
            Dirname(dir) == Dirname(t.attrs[ShapePath].s) && Basename(dir) == FormatInt(runId)
  {
    var orig := t.attrs[ShapePath].s;
    var dir := PerturbDir(orig, runId);
    assert Merged(cls, vec, t, runId).value.attrs == MergedAttrs(vec, t.attrs, runId, dir);
    SetInMergedAttrs(vec, t.attrs, runId, dir);
    PerturbDirSameParent(orig, runId);
    PerturbDirName(orig, runId);
  }

  lemma SetInMergedAttrs(vec: ConfigVector, t: map<Attr, Value>, runId: int, shapePath: string)
    requires forall a :: IsFixed(a) ==> a in t
    ensures run_id in MergedAttrs(vec, t, runId, shapePath)
    ensures MergedAttrs(vec, t, runId, shapePath)[run_id] == Int(runId)
    ensures MergedAttrs(vec, t, runId, shapePath)[ShapePath] == Str(shapePath)
  {
  }

  /** A map holding every entry of FixedFields holds every fixed field. */
  lemma AllFixedFieldsIn(m: map<Attr, Value>)
    requires forall j :: 0 <= j < |FixedFields| ==> FixedFields[j] in m
    ensures forall a :: IsFixed(a) ==> a in m
  {
    FieldLists();
  }

  /** A map holding exactly the fixed fields of `t` and the parameters of
      `vec` is the union the merge starts from. */
  lemma AssembledAttrs(m: map<Attr, Value>, t: map<Attr, Value>, vec: ConfigVector)
    requires forall a :: IsFixed(a) ==> a in t
    requires forall a :: IsFixed(a) ==> a in m && m[a] == t[a]
    requires forall j :: 0 <= j < 12 ==> VectorParamNames[j] in m && m[VectorParamNames[j]] == vec[j]
    requires forall a :: a in m ==> IsFixed(a) || IsVectorParam(a)
    ensures m == FixedCopy(t) + VectorAttrs(vec)
  {
    var u := FixedCopy(t) + VectorAttrs(vec);
    FieldLists();
    forall a ensures (a in m <==> a in u) && (a in m ==> m[a] == u[a]) {
      if IsVectorParam(a) {
        var k := VectorIndex(a);
      }
    }
  }

  /** The "copy the fixed values" block of merge_into_template: reads the
      fixed fields from the template in order, failing at the first one it
      lacks. */
  method CopyFixedFields(t: map<Attr, Value>) returns (r: Result<map<Attr, Value>, Error>)
    ensures MissingFrom(t, 0).Some? ==> r == Err(AttributeError(MissingFrom(t, 0).value))
    ensures r.Ok? <==> MissingFrom(t, 0).None?
    ensures r.Ok? ==> forall a :: IsFixed(a) ==> a in t && a in r.value && r.value[a] == t[a]
    ensures r.Ok? ==> forall a :: a in r.value ==> IsFixed(a)
  {
    var m: map<Attr, Value> := map[];
    for k := 0 to |FixedFields|
      invariant MissingFrom(t, 0) == MissingFrom(t, k)
      invariant forall j :: 0 <= j < k ==> FixedFields[j] in m
      invariant forall a :: a in m ==> IsFixed(a) && a in t && m[a] == t[a]
    {
      var f := FixedFields[k];
      if f !in t {
        return Err(AttributeError(f));
      }
      assert IsFixed(f);
      m := m[f := t[f]];
    }
    AllFixedFieldsIn(m);
    r := Ok(m);
  }

  /** The run id `cls.create_run_id` hands out: the object's hash for
      VIIRSConfig, the counter for SequentialVIIRSConfig. */
  function RunIdFor(cls: ConfigClass, hashId: int, counterValue: int): int {
    if cls == VIIRSConfig then hashId else counterValue
  }

  /** `merge_into_template`: copies the fixed fields one by one, grafts the
      vector in, asks the class for a run id and perturbs ShapePath. A
      missing fixed field raises before a run id is drawn; a ShapePath that
      is missing or not text raises after it. */
  method MergeIntoTemplate(cls: ConfigClass, vec: ConfigVector, template: ConfigObject,
                           hashId: int, counter: RunCounter)
    returns (r: Result<ConfigObject, Error>)
    modifies counter
    ensures r == Merged(cls, vec, template, RunIdFor(cls, hashId, old(counter.run)))
    ensures counter.run == old(counter.run) +
      (if cls == SequentialVIIRSConfig && MissingFrom(template.attrs, 0).None? then 1 else 0)
  {
    var t := template.attrs;
    var fixed := CopyFixedFields(t);
    if fixed.Err? {
      return Err(fixed.error);
    }
    var m := GraftVector(t, fixed.value, vec);
    var runId: int;
    if cls == VIIRSConfig {
      runId := hashId;
    } else {
      runId := counter.CreateRunId();
    }
    m := m[run_id := Int(runId)];
    if ShapePath !in t {
      return Err(AttributeError(ShapePath));
    }
    if !t[ShapePath].Str? {
      return Err(NoSuchMethod);
    }
    m := m[ShapePath := Str(PerturbDir(t[ShapePath].s, runId))];
    r := Ok(ConfigObject(cls, m));
  }

  /** The "set the vector values" loop of merge_into_template: each vector
      parameter is set on the copy of the fixed fields. */
  method GraftVector(t: map<Attr, Value>, fixed: map<Attr, Value>, vec: ConfigVector)
    returns (m: map<Attr, Value>)
    requires forall a :: IsFixed(a) ==> a in t && a in fixed && fixed[a] == t[a]
    requires forall a :: a in fixed ==> IsFixed(a)
    ensures m == FixedCopy(t) + VectorAttrs(vec)
  {
    m := fixed;
    for k := 0 to |VectorParamNames|
      invariant forall a :: IsFixed(a) ==> a in m && m[a] == t[a]
      invariant forall j :: 0 <= j < k ==> VectorParamNames[j] in m && m[VectorParamNames[j]] == vec[j]
      invariant forall a :: a in m ==> IsFixed(a) || IsVectorParam(a)
    {
      var p := VectorParamNames[k];
      VectorIndexInverse();
      assert IsVectorParam(p) && !IsFixed(p);
      assert forall j :: 0 <= j < k ==> VectorParamNames[j] != p;
      m := m[p := vec[k]];
    }
    AssembledAttrs(m, t, vec);
  }

  /** A merged object gives back, through get_vector, the vector it was
      built from, when that vector holds floats and ints where get_vector
      puts them. */
  lemma MergeThenGetVector(cls: ConfigClass, vec: ConfigVector, t: ConfigObject, runId: int)
    requires MergeSucceeds(t)
    requires forall k :: 0 <= k < 10 ==> vec[k].Float?
    requires vec[10].Int? && vec[11].Int?
    ensures VectorOf(Merged(cls, vec, t, runId).value) == Ok(vec)
  {
    MergedCarriesVector(cls, vec, t, runId);
    VectorOfCarried(Merged(cls, vec, t, runId).value, vec);
  }

  /** An object whose vector attributes hold a well-typed vector gives that
      vector back through get_vector. */
  lemma VectorOfCarried(c: ConfigObject, vec: ConfigVector)
    requires forall k :: 0 <= k < 12 ==> VectorParamNames[k] in c.attrs && c.attrs[VectorParamNames[k]] == vec[k]
    requires forall k :: 0 <= k < 10 ==> vec[k].Float?
    requires vec[10].Int? && vec[11].Int?
    ensures VectorOf(c) == Ok(vec)
  {
    forall k | 0 <= k < 12 ensures CoerceParam(c, k) == Ok(vec[k]) {
    }
    assert VectorOf(c).value == vec;
  }

  // ---------------------------------------------------------------------------
  // get_ini_obj
  // ---------------------------------------------------------------------------

  /** A section of the ConfigParser object: its name and its options, in the
      order they were set. */
  datatype Section = Section(name: string, options: seq<(string, Value)>)

  /** `ini.set(section, name, value)` stores the option under
      `optionxform(name)`, which lower-cases it. */
  function Opt(name: string, v: Value): (string, Value) {
    (Lower(name), v)
  }

  /** `getattr(self, a)`. */
  function Get(c: ConfigObject, a: Attr): (r: Result<Value, Error>)
    ensures r.Ok? <==> a in c.attrs
    ensures r.Ok? ==> r.value == c.attrs[a]
    ensures r.Err? ==> r.error == AttributeError(a)
  {
    if a in c.attrs then Ok(c.attrs[a]) else Err(AttributeError(a))
  }

  /** `fltfmt.format(v)` with the format itself left abstract. */
  function FloatText(v: Value, fltfmt: real -> string): Result<Value, Error> {
    match v
    case Float(r) => Ok(Str(fltfmt(r)))
    case Int(i) => Ok(Str(fltfmt(i as real)))
    case _ => Err(ValueError)
  }

  /** `'{:d}'.format(v)`. */
  function IntText(v: Value): Result<Value, Error> {
    if v.Int? then Ok(Str(FormatInt(v.i))) else Err(ValueError)
  }

  /** `v.lower()`. */
  function LowerText(v: Value): Result<Value, Error> {
    if v.Str? then Ok(Str(Lower(v.s))) else Err(NoSuchMethod)
  }

  /** `','.join(v)`: a list of strings, or the characters of a string. */
  function JoinText(v: Value): Result<Value, Error> {
    match v
    case StrList(items) => Ok(Str(Join(items, ',')))
    case Str(s) => Ok(Str(Join(seq(|s|, i requires 0 <= i < |s| => [s[i]]), ',')))
    case _ => Err(TypeError)
  }

  /** The [Thresholds] options from position k of `names` on. */
  function FloatOptions(c: ConfigObject, names: seq<Attr>, labels: seq<string>, fltfmt: real -> string)
    : (r: Result<seq<(string, Value)>, Error>)
    requires |names| == |labels|
    ensures r.Ok? ==> (|r.value| == |names| &&
              forall k :: 0 <= k < |names| ==> r.value[k].0 == Lower(labels[k]))
  {
    if |names| == 0 then Ok([])
    else
      var v :- Get(c, names[0]);
      var text :- FloatText(v, fltfmt);
      var rest :- FloatOptions(c, names[1..], labels[1..], fltfmt);
      Ok([Opt(labels[0], text)] + rest)
  }

  const ThresholdLabels: seq<string> :=
    ["M07UB", "M08LB", "M08UB", "M10LB", "M10UB", "M11LB", "RthSub", "Rth", "RthLB", "MaxSolZen"]

  const SectionNames: seq<string> :=
    ["InDirectory", "ActiveFire", "Thresholds", "ConfirmBurnParameters", "OutputFlags",
     "ImageDates", "DataBaseInfo"]

  /** An attribute that is present and holds text. */
  predicate HasText(c: ConfigObject, a: Attr) {
    a in c.attrs && c.attrs[a].Str?
  }

  /** [InDirectory]: the base directory, as stored. */
  function InDirectorySection(c: ConfigObject): (r: Result<Section, Error>)
    ensures r.Ok? <==> BaseDir in c.attrs
  {
    var baseDir :- Get(c, BaseDir);
    Ok(Section("InDirectory", [Opt("BaseDirectory", baseDir)]))
  }

  /** [ActiveFire]: the two flags, lower-cased. */
  function ActiveFireSection(c: ConfigObject): (r: Result<Section, Error>)
    ensures r.Ok? <==> HasText(c, use375af) && HasText(c, use750af)
  {
    var u375 :- Get(c, use375af);
    var l375 :- LowerText(u375);
    var u750 :- Get(c, use750af);
    var l750 :- LowerText(u750);
    Ok(Section("ActiveFire", [Opt("use375af", l375), Opt("use750af", l750)]))
  }

  /** [Thresholds]: the ten float parameters, formatted. */
  function ThresholdsSection(c: ConfigObject, fltfmt: real -> string): (r: Result<Section, Error>)
    ensures r.Ok? <==> forall k :: 0 <= k < 10 ==> (FloatVectorParams[k] in c.attrs &&
              (c.attrs[FloatVectorParams[k]].Float? || c.attrs[FloatVectorParams[k]].Int?))
  {
    FloatOptionsSucceed(c, FloatVectorParams, ThresholdLabels, fltfmt);
    var thresholds :- FloatOptions(c, FloatVectorParams, ThresholdLabels, fltfmt);
    Ok(Section("Thresholds", thresholds))
  }

  /** [ConfirmBurnParameters]: the two int parameters, in decimal. */
  function ConfirmBurnSection(c: ConfigObject): (r: Result<Section, Error>)
    ensures r.Ok? <==> TemporalProximity in c.attrs && c.attrs[TemporalProximity].Int? &&
                       SpatialProximity in c.attrs && c.attrs[SpatialProximity].Int?
  {
    var tp :- Get(c, TemporalProximity);
    var tpText :- IntText(tp);
    var sp :- Get(c, SpatialProximity);
    var spText :- IntText(sp);
    Ok(Section("ConfirmBurnParameters", [Opt("TemporalProximity", tpText), Opt("SpatialProximity", spText)]))
  }

  /** [OutputFlags]: the output switches and paths, lower-cased. */
  function OutputFlagsSection(c: ConfigObject): (r: Result<Section, Error>)
    ensures r.Ok? <==> HasText(c, TextOut) && HasText(c, ShapeOut) && HasText(c, DatabaseOut) &&
                       HasText(c, ShapePath) && HasText(c, PostBin)
  {
    var textOut :- Get(c, TextOut);
    var textFile :- LowerText(textOut);
    var shapeOut :- Get(c, ShapeOut);
    var shapeFile :- LowerText(shapeOut);
    var dbOut :- Get(c, DatabaseOut);
    var postGis :- LowerText(dbOut);
    var shapePath :- Get(c, ShapePath);
    var outShapeDir :- LowerText(shapePath);
    var postBin :- Get(c, PostBin);
    var postBinText :- LowerText(postBin);
    Ok(Section("OutputFlags", [Opt("TextFile", textFile), Opt("ShapeFile", shapeFile), Opt("PostGIS", postGis),
                               Opt("OutShapeDir", outShapeDir), Opt("PostgresqlBin", postBinText)]))
  }

  /** [ImageDates]: the dates joined by commas. */
  function ImageDatesSection(c: ConfigObject): (r: Result<Section, Error>)
    ensures r.Ok? <==> ImageDates in c.attrs && (c.attrs[ImageDates].StrList? || c.attrs[ImageDates].Str?)
  {
    var dates :- Get(c, ImageDates);
    var datesText :- JoinText(dates);
    Ok(Section("ImageDates", [Opt("ImageDates", datesText)]))
  }

  /** [DataBaseInfo]: the connection settings as stored; Host only when
      DBhost is not None. */
  function DataBaseSection(c: ConfigObject): (r: Result<Section, Error>)
    ensures r.Ok? <==> DBname in c.attrs && DBuser in c.attrs && pwd in c.attrs && DBhost in c.attrs
  {
    var dbName :- Get(c, DBname);
    var dbUser :- Get(c, DBuser);
    var password :- Get(c, pwd);
    var host :- Get(c, DBhost);
    Ok(Section("DataBaseInfo",
               [Opt("DataBaseName", dbName), Opt("UserName", dbUser), Opt("password", password)]
               + (if host != NoneValue then [Opt("Host", host)] else [])))
  }

  /** `get_ini_obj`: the seven sections of the ini view, or the first
      exception raised while reading and formatting the attributes. */
  function IniObj(c: ConfigObject, fltfmt: real -> string): (r: Result<seq<Section>, Error>)
    ensures r.Ok? <==> InDirectorySection(c).Ok? && ActiveFireSection(c).Ok? &&
                       ThresholdsSection(c, fltfmt).Ok? && ConfirmBurnSection(c).Ok? &&
                       OutputFlagsSection(c).Ok? && ImageDatesSection(c).Ok? && DataBaseSection(c).Ok?
    ensures r.Ok? ==> (|r.value| == 7 &&
              forall k :: 0 <= k < 7 ==> r.value[k].name == SectionNames[k])
  {
    var inDirectory :- InDirectorySection(c);
    var activeFire :- ActiveFireSection(c);
    var thresholds :- ThresholdsSection(c, fltfmt);
    var confirmBurn :- ConfirmBurnSection(c);
    var outputFlags :- OutputFlagsSection(c);
    var imageDates :- ImageDatesSection(c);
    var dataBase :- DataBaseSection(c);
    Ok([inDirectory, activeFire, thresholds, confirmBurn, outputFlags, imageDates, dataBase])
  }

  /** The [Thresholds] options succeed exactly when every float parameter
      is present and numeric. */
  lemma {:induction false} FloatOptionsSucceed(c: ConfigObject, names: seq<Attr>, labels: seq<string>,
                                               fltfmt: real -> string)
    requires |names| == |labels|
    ensures FloatOptions(c, names, labels, fltfmt).Ok? <==>
              forall k :: 0 <= k < |names| ==> (names[k] in c.attrs &&
                (c.attrs[names[k]].Float? || c.attrs[names[k]].Int?))
    decreases |names|
  {
    if |names| > 0 {
      FloatOptionsSucceed(c, names[1..], labels[1..], fltfmt);
      assert forall k :: 1 <= k < |names| ==> names[k] == names[1..][k - 1];
    }
  }

  /** The option names of a section, in order. */
  function OptionNames(sec: Section): (r: seq<string>)
    ensures |r| == |sec.options| && forall k :: 0 <= k < |r| ==> r[k] == sec.options[k].0
  {
    seq(|sec.options|, k requires 0 <= k < |sec.options| => sec.options[k].0)
  }

  /** The DataBaseInfo section has a "host" option exactly when DBhost is
      not None, and then it holds DBhost. */
  lemma IniHostIffNotNone(c: ConfigObject, fltfmt: real -> string)
    requires IniObj(c, fltfmt).Ok?
    ensures var db := IniObj(c, fltfmt).value[6];
      ("host" in OptionNames(db) <==> c.attrs[DBhost] != NoneValue) &&
      (c.attrs[DBhost] != NoneValue ==> db.options[3] == ("host", c.attrs[DBhost]))
  {
    assert IniObj(c, fltfmt).value[6] == DataBaseSection(c).value;
    DataBaseHost(c);
  }

  /** The DataBaseInfo section on its own: options DataBaseName, UserName,
      password, then Host only when DBhost is not None. */
  lemma DataBaseHost(c: ConfigObject)
    requires DataBaseSection(c).Ok?
    ensures var db := DataBaseSection(c).value;
      ("host" in OptionNames(db) <==> c.attrs[DBhost] != NoneValue) &&
      (c.attrs[DBhost] != NoneValue ==> db.options[3] == ("host", c.attrs[DBhost]))
  {
    var db := DataBaseSection(c).value;
    assert Lower("DataBaseName") == "databasename";
    assert Lower("UserName") == "username";
    assert Lower("password") == "password";
    assert Lower("Host") == "host";
    if c.attrs[DBhost] == NoneValue {
      assert OptionNames(db) == ["databasename", "username", "password"];
    } else {
      assert OptionNames(db)[3] == "host";
    }
  }

  /** No upper-case letter is left in the Python `lower()` of a string. */
  predicate LowerCased(v: Value) {
    v.Str? && forall i :: 0 <= i < |v.s| ==> !('A' <= v.s[i] <= 'Z')
  }

  /** The ActiveFire flags and every OutputFlags option are written
      lower-cased. */
  lemma IniFlagsLowerCased(c: ConfigObject, fltfmt: real -> string)
    requires IniObj(c, fltfmt).Ok?
    ensures var r := IniObj(c, fltfmt).value;
      |r[1].options| == 2 && |r[4].options| == 5 &&
      (forall k :: 0 <= k < 2 ==> LowerCased(r[1].options[k].1)) &&
      (forall k :: 0 <= k < 5 ==> LowerCased(r[4].options[k].1))
  {
    var r := IniObj(c, fltfmt).value;
    assert r[1] == ActiveFireSection(c).value;
    assert r[4] == OutputFlagsSection(c).value;
    LowerIsLower(c.attrs[use375af].s);
    LowerIsLower(c.attrs[use750af].s);
    LowerIsLower(c.attrs[TextOut].s);
    LowerIsLower(c.attrs[ShapeOut].s);
    LowerIsLower(c.attrs[DatabaseOut].s);
    LowerIsLower(c.attrs[ShapePath].s);
    LowerIsLower(c.attrs[PostBin].s);
  }

  /** The ConfirmBurnParameters options parse back to the two proximities. */
  lemma IniProximitiesRoundTrip(c: ConfigObject, fltfmt: real -> string)
    requires IniObj(c, fltfmt).Ok?
    ensures var opts := IniObj(c, fltfmt).value[3].options;
      |opts| == 2 && opts[0].1.Str? && opts[1].1.Str? &&
      ParseInt(opts[0].1.s) == Some(c.attrs[TemporalProximity].i) &&
      ParseInt(opts[1].1.s) == Some(c.attrs[SpatialProximity].i)
  {
    assert IniObj(c, fltfmt).value[3] == ConfirmBurnSection(c).value;
    ParseFormatInt(c.attrs[TemporalProximity].i);
    ParseFormatInt(c.attrs[SpatialProximity].i);
  }

  /** The ImageDates option splits back into the dates, when there is at
      least one date and none contains a comma. */
  lemma IniImageDatesRoundTrip(c: ConfigObject, fltfmt: real -> string, dates: seq<string>)
    requires IniObj(c, fltfmt).Ok?
    requires c.attrs[ImageDates] == StrList(dates)
    requires |dates| > 0 && forall k :: 0 <= k < |dates| ==> ',' !in dates[k]
    ensures var opts := IniObj(c, fltfmt).value[5].options;
      |opts| == 1 && opts[0].1.Str? && Split(opts[0].1.s, ',') == dates
  {
    assert IniObj(c, fltfmt).value[5] == ImageDatesSection(c).value;
    SplitJoin(dates, ',');
  }

  /** An empty date list does not come back: it is written as "", which
      splits into one empty date. */
  lemma IniEmptyImageDates(c: ConfigObject, fltfmt: real -> string)
    requires IniObj(c, fltfmt).Ok?
    requires c.attrs[ImageDates] == StrList([])
    ensures var opts := IniObj(c, fltfmt).value[5].options;
      |opts| == 1 && opts[0].1 == Str("") && Split(opts[0].1.s, ',') == [""]
  {
    assert IniObj(c, fltfmt).value[5] == ImageDatesSection(c).value;
    EmptyListDoesNotRoundTrip(',');
  }

  /** The [Thresholds] options are the formatted values of the float
      parameters, in order. */
  lemma {:induction false} FloatOptionsValues(c: ConfigObject, names: seq<Attr>, labels: seq<string>,
                                              fltfmt: real -> string)
    requires |names| == |labels|
    requires FloatOptions(c, names, labels, fltfmt).Ok?
    ensures forall k :: 0 <= k < |names| ==> (names[k] in c.attrs &&
              ToFloat(c.attrs[names[k]]).Ok? &&
              FloatOptions(c, names, labels, fltfmt).value[k].1 == Str(fltfmt(ToFloat(c.attrs[names[k]]).value)))
    decreases |names|
  {
    if |names| > 0 {
      FloatOptionsValues(c, names[1..], labels[1..], fltfmt);
      assert forall k :: 1 <= k < |names| ==> names[k] == names[1..][k - 1];
    }
  }

  /** The [Thresholds] section carries the float part of get_vector: option
      k is the formatted value of vector field k. */
  lemma IniThresholdsCarryVector(c: ConfigObject, fltfmt: real -> string)
    requires IniObj(c, fltfmt).Ok?
    ensures VectorOf(c).Ok?
    ensures var opts := IniObj(c, fltfmt).value[2].options;
      |opts| == 10 &&
      forall k :: 0 <= k < 10 ==> opts[k] == (Lower(ThresholdLabels[k]), Str(fltfmt(VectorOf(c).value[k].r)))
  {
    assert IniObj(c, fltfmt).value[2] == ThresholdsSection(c, fltfmt).value;
    FloatOptionsValues(c, FloatVectorParams, ThresholdLabels, fltfmt);
    forall k | 0 <= k < 12 ensures CoerceParam(c, k).Ok? {
      assert VectorParamNames[k] in c.attrs;
    }
  }
}
