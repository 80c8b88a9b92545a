/** `ensure_settings` of the preview modifier script: it loads a JSON settings
    file, puts every required setting in place and writes the file back only when
    something changed. Values are compared with Python's `==`, under which `True`,
    `1` and `1.0` are equal. */
module EnsurePreviews {
  import opened Text

  /** A JSON value as `json.load` gives it. */
  datatype Json =
    | Null
    | Bool(b: bool)
    | Int(i: int)
    | Float(r: real)
    | Str(s: string)
    | Array(items: seq<Json>)
    | Object(fields: map<string, Json>)

  /** A value that is neither an array nor an object. */
  predicate IsScalar(v: Json) {
    !v.Array? && !v.Object?
  }

  /** The number Python sees in a boolean, an integer or a float. */
  function Numeric(v: Json): Option<real> {
    match v
    case Bool(b) => Some(if b then 1.0 else 0.0)
    case Int(i) => Some(i as real)
    case Float(r) => Some(r)
    case _ => None
  }

  /** Python's `v == want` for a scalar `want`. */
  predicate PyEq(v: Json, want: Json)
    requires IsScalar(want)
  {
    if Numeric(v).Some? && Numeric(want).Some? then Numeric(v).value == Numeric(want).value
    else
      match want
      case Null => v.Null?
      case Str(s) => v.Str? && v.s == s
      case _ => false
  }

  /** A setting to put in place: its key and its value. */
  type Setting = (string, Json)

  /** `required_settings`, in the order of the dictionary. */
  const Required: seq<Setting> := [("VHS.AdvancedPreviews", Str("Always")), ("VHS.LatentPreview", Bool(true))]

  /** Settings with scalar values and pairwise different keys, as a dictionary literal gives them. */
  predicate WellFormed(req: seq<Setting>) {
    && (forall i :: 0 <= i < |req| ==> IsScalar(req[i].1))
    && (forall i, j :: 0 <= i < j < |req| ==> req[i].0 != req[j].0)
  }

  /** `settings.get(key)`: the value, or `None` for an absent key. */
  function Get(m: map<string, Json>, key: string): Json {
    if key in m then m[key] else Null
  }

  /** `settings.get(key) != value`: the key holds another value, or is absent
      while the value is not `None`. */
  predicate Stale(m: map<string, Json>, kv: Setting)
    requires IsScalar(kv.1)
  {
    !PyEq(Get(m, kv.0), kv.1)
  }

  /** One pass of the loop. */
  function MergeStep(m: map<string, Json>, kv: Setting): map<string, Json>
    requires IsScalar(kv.1)
  {
    if Stale(m, kv) then m[kv.0 := kv.1] else m
  }

  /** The loop from a given setting on: the merged settings. */
  function Merged(m: map<string, Json>, req: seq<Setting>): map<string, Json>
    requires forall i :: 0 <= i < |req| ==> IsScalar(req[i].1)
    decreases |req|
  {
    if req == [] then m else Merged(MergeStep(m, req[0]), req[1..])
  }

  /** The loop from a given setting on: whether it set `updated`. */
  predicate Changed(m: map<string, Json>, req: seq<Setting>)
    requires forall i :: 0 <= i < |req| ==> IsScalar(req[i].1)
    decreases |req|
  {
    req != [] && (Stale(m, req[0]) || Changed(MergeStep(m, req[0]), req[1..]))
  }

  /** What the file holds: nothing, text that is not JSON, JSON that is not an
      object, or an object. */
  datatype Loaded = Missing | Invalid | NotObject | Settings(fields: map<string, Json>)

  /** How the script ends: with exit status 1, leaving the file as it was, or
      after writing the merged settings. */
  datatype Outcome = Exit(code: int) | Unchanged | Written(fields: map<string, Json>)

  /** `ensure_settings` for what the file holds. A document that is not an object
      makes `settings.get` raise, which ends the script with status 1 too. */
  function EnsureRun(loaded: Loaded): Outcome {
    match loaded
    case Invalid => Exit(1)
    case NotObject => Exit(1)
    case Missing => Written(Merged(map[], Required))
    case Settings(m) => if Changed(m, Required) then Written(Merged(m, Required)) else Unchanged
  }

  /** `ensure_settings` */
  method EnsureSettings(loaded: Loaded) returns (outcome: Outcome)
    ensures outcome == EnsureRun(loaded)
  {
    var settings: map<string, Json>;
    match loaded {
      case Invalid => return Exit(1);
      case NotObject => return Exit(1);
      case Missing => settings := map[];
      case Settings(m) => settings := m;
    }
    ghost var start := settings;
    var updated := false;
    for i := 0 to |Required|
      invariant Merged(start, Required) == Merged(settings, Required[i..])
      invariant Changed(start, Required) == (updated || Changed(settings, Required[i..]))
    {
      assert Required[i..][1..] == Required[i + 1..];
      var (key, value) := Required[i];
      if !PyEq(Get(settings, key), value) {
        settings := settings[key := value];
        updated := true;
      }
    }
    assert Required[|Required|..] == [];
    if updated {
      outcome := Written(settings);
    } else {
      outcome := Unchanged;
    }
  }

  /** A one-step fact about the constant list of required settings, used by
      `EnsureOutcome` and the lemmas after it. */
  lemma RequiredWellFormed()
    ensures WellFormed(Required)
  {
  }

  /** Putting later settings in place leaves the key of an earlier one alone. */
  lemma {:induction false} MergedOtherKey(m: map<string, Json>, req: seq<Setting>, k: string)
    requires forall i :: 0 <= i < |req| ==> IsScalar(req[i].1)
    requires forall i :: 0 <= i < |req| ==> req[i].0 != k
    ensures (k in Merged(m, req)) == (k in m)
    ensures k in m ==> Merged(m, req)[k] == m[k]
    decreases |req|
  {
    if req != [] {
      MergedOtherKey(MergeStep(m, req[0]), req[1..], k);
    }
  }

  /** After the merge every required key reads as a value equal to the required
      one, and it is present unless that value is `None`. */
  lemma {:induction false} MergedHasRequired(m: map<string, Json>, req: seq<Setting>)
    requires WellFormed(req)
    ensures forall i :: 0 <= i < |req| ==>
      && PyEq(Get(Merged(m, req), req[i].0), req[i].1)
      && (!req[i].1.Null? ==> req[i].0 in Merged(m, req))
    decreases |req|
  {
    if req != [] {
      var m1 := MergeStep(m, req[0]);
      MergedHasRequired(m1, req[1..]);
      MergedOtherKey(m1, req[1..], req[0].0);
      forall i | 0 <= i < |req|
        ensures PyEq(Get(Merged(m, req), req[i].0), req[i].1) && (!req[i].1.Null? ==> req[i].0 in Merged(m, req))
      {
        if i > 0 {
          assert req[i] == req[1..][i - 1];
        }
      }
    }
  }

  /** Keys that are not required keep their values, and no key disappears. */
  lemma {:induction false} MergedKeepsOthers(m: map<string, Json>, req: seq<Setting>)
    requires forall i :: 0 <= i < |req| ==> IsScalar(req[i].1)
    ensures m.Keys <= Merged(m, req).Keys
    ensures forall k :: k in m && (forall i :: 0 <= i < |req| ==> req[i].0 != k) ==> Merged(m, req)[k] == m[k]
    ensures forall k :: k in Merged(m, req) ==> k in m || exists i :: 0 <= i < |req| && req[i].0 == k
    decreases |req|
  {
    if req != [] {
      var m1 := MergeStep(m, req[0]);
      MergedKeepsOthers(m1, req[1..]);
      forall k | k in Merged(m, req)
        ensures k in m || exists i :: 0 <= i < |req| && req[i].0 == k
      {
        if k !in m && k != req[0].0 {
          var i :| 0 <= i < |req[1..]| && req[1..][i].0 == k;
          assert req[i + 1].0 == k;
        }
      }
    }
  }

  /** The loop sets `updated` exactly when some required key is absent or holds
      another value in the settings it started from. */
  lemma {:induction false} ChangedIffStale(m: map<string, Json>, req: seq<Setting>)
    requires WellFormed(req)
    ensures Changed(m, req) <==> exists i :: 0 <= i < |req| && Stale(m, req[i])
    decreases |req|
  {
    if req != [] {
      var m1 := MergeStep(m, req[0]);
      ChangedIffStale(m1, req[1..]);
      forall i | 1 <= i < |req|
        ensures Stale(m1, req[i]) == Stale(m, req[i])
      {
        assert req[i].0 != req[0].0;
      }
      if Changed(m1, req[1..]) {
        var i :| 0 <= i < |req[1..]| && Stale(m1, req[1..][i]);
        assert Stale(m, req[i + 1]);
      }
      if exists i :: 0 <= i < |req| && Stale(m, req[i]) {
        var i :| 0 <= i < |req| && Stale(m, req[i]);
        if i > 0 {
          assert Stale(m1, req[1..][i - 1]);
        }
      }
    }
  }

  /** A merged map needs nothing more: a second merge changes nothing. */
  lemma MergeIdempotent(m: map<string, Json>, req: seq<Setting>)
    requires WellFormed(req)
    ensures !Changed(Merged(m, req), req)
  {
    MergedHasRequired(m, req);
    ChangedIffStale(Merged(m, req), req);
  }

  /** Without any change the loop leaves the settings as they were. */
  lemma {:induction false} UnchangedKeeps(m: map<string, Json>, req: seq<Setting>)
    requires forall i :: 0 <= i < |req| ==> IsScalar(req[i].1)
    requires !Changed(m, req)
    ensures Merged(m, req) == m
    decreases |req|
  {
    if req != [] {
      UnchangedKeeps(m, req[1..]);
    }
  }

  /** `ensure_settings`: a file that is not a JSON object ends the script with
      status 1 and is not written; a missing file is created with exactly the
      required settings; otherwise the file is written exactly when some required
      setting was absent or different, and then holds every required setting and
      every other key unchanged. */
  lemma EnsureOutcome(loaded: Loaded)
    ensures var outcome := EnsureRun(loaded);
      && (loaded.Invalid? || loaded.NotObject? <==> outcome == Exit(1))
      && (loaded.Missing? ==> outcome == Written(map["VHS.AdvancedPreviews" := Str("Always"), "VHS.LatentPreview" := Bool(true)]))
      && (loaded.Settings? ==>
            (outcome.Written? <==> exists i :: 0 <= i < |Required| && Stale(loaded.fields, Required[i])))
      && (outcome.Written? ==>
            (forall i :: 0 <= i < |Required| ==> Required[i].0 in outcome.fields && PyEq(outcome.fields[Required[i].0], Required[i].1)))
      && (loaded.Settings? && outcome.Written? ==>
            forall k :: k in loaded.fields && k != "VHS.AdvancedPreviews" && k != "VHS.LatentPreview" ==>
              k in outcome.fields && outcome.fields[k] == loaded.fields[k])
  {
    RequiredWellFormed();
    match loaded {
      case Missing =>
        MergedHasRequired(map[], Required);
        MergedKeepsOthers(map[], Required);
        var w := Merged(map[], Required);
        assert w == map["VHS.AdvancedPreviews" := Str("Always"), "VHS.LatentPreview" := Bool(true)];
      case Settings(m) =>
        ChangedIffStale(m, Required);
        MergedHasRequired(m, Required);
        MergedKeepsOthers(m, Required);
      case _ =>
    }
  }

  /** Running the script a second time on the file it wrote changes nothing. */
  lemma EnsureIdempotent(loaded: Loaded)
    requires EnsureRun(loaded).Written?
    ensures EnsureRun(Settings(EnsureRun(loaded).fields)) == Unchanged
  {
    RequiredWellFormed();
    match loaded {
      case Missing => MergeIdempotent(map[], Required);
      case Settings(m) => MergeIdempotent(m, Required);
      case _ =>
    }
  }

  /** A preview flag stored as `1` already equals `True`, so the file is left alone. */
  lemma OneCountsAsTrue()
    ensures EnsureRun(Settings(map["VHS.AdvancedPreviews" := Str("Always"), "VHS.LatentPreview" := Int(1)])) == Unchanged
  {
    var m := map["VHS.AdvancedPreviews" := Str("Always"), "VHS.LatentPreview" := Int(1)];
    RequiredWellFormed();
    ChangedIffStale(m, Required);
  }
}
