/**
 * The protocol compatibility checker (`checkDiff` of the protocol validator):
 * the local protocol description is compared with the published one, and
 * every incompatible change becomes a failure. Go visits maps in random
 * order, so the failures and warnings are specified as multisets.
 */
module ProtocolDiff {
  import opened Wrappers

  /** A field of a type (`DataType`): its type name, list flag, doc and example. */
  datatype Field = Field(typeName: string, list: bool, doc: string, example: string)

  datatype TypeDef = TypeDef(fields: map<string, Field>, doc: string, deprecated: bool)

  /** A protocol: action names and types, each grouped by version. */
  datatype Protocol = Protocol(actions: map<string, set<string>>, types: map<string, map<string, TypeDef>>)

  /** What a field check returns: failure and warning texts. */
  datatype CheckOutput = CheckOutput(failures: seq<string>, warnings: seq<string>)

  /** A check run on each new field: version, type name, field name, field. */
  type FieldCheck = (string, string, string, Field) -> CheckOutput

  /** The failures `checkDiff` appends; `Reported` carries a field check's own text. */
  datatype Failure =
    | ChangedType(version: string, typeName: string, field: string)
    | ChangedListState(version: string, typeName: string, field: string)
    | RemovedVersion(version: string)
    | RemovedType(version: string, typeName: string)
    | RemovedField(version: string, typeName: string, field: string)
    | Reported(text: string)

  /** The Go message of each failure. */
  function Message(f: Failure): string
  {
    match f
    case ChangedType(v, t, n) => v + "." + t + " field " + n + " changed types"
    case ChangedListState(v, t, n) => v + "." + t + " field " + n + " changed list state"
    case RemovedVersion(v) => "removed version: " + v
    case RemovedType(v, t) => "removed type: " + v + "." + t
    case RemovedField(v, t, n) => "field in " + v + "." + t + " removed: " + n
    case Reported(text) => text
  }

  /** The whole run panicked: line 115 dereferenced the nil pointer of a type missing locally. */
  datatype Panic = NilDereference(version: string, typeName: string)

  datatype DiffOutput = DiffOutput(failures: seq<Failure>, warnings: seq<string>)

  /** The type a Go double map lookup yields: absent when either level is missing. */
  function TypeAt(p: Protocol, version: string, typeName: string): Option<TypeDef>
  {
    if version in p.types && typeName in p.types[version] then Some(p.types[version][typeName]) else None
  }

  /** The types of a version; a missing version reads as Go's empty (nil) map. */
  function TypesOf(p: Protocol, version: string): map<string, TypeDef>
  {
    if version in p.types then p.types[version] else map[]
  }

  /** `&Type{}`: what a type missing from the published protocol is compared against. */
  const EmptyType := TypeDef(map[], "", false)

  // ---------------------------------------------------------------------------
  // Sums over the keys of a map, in no particular order

  ghost function Sum<T>(keys: set<string>, f: string -> multiset<T>): multiset<T>
    decreases keys
  {
    if keys == {} then multiset{}
    else
      var k :| k in keys;
      f(k) + Sum(keys - {k}, f)
  }

  /** Any key can be taken first: the order of the visits does not matter. */
  lemma SumPick<T>(keys: set<string>, f: string -> multiset<T>, k: string)
    requires k in keys
    ensures Sum(keys, f) == f(k) + Sum(keys - {k}, f)
    decreases keys
  {
    var j :| j in keys && Sum(keys, f) == f(j) + Sum(keys - {j}, f);
    if j != k {
      SumPick(keys - {j}, f, k);
      SumPick(keys - {k}, f, j);
      assert keys - {j} - {k} == keys - {k} - {j};
    }
  }

  /** Adding the visit of one more key. */
  lemma SumAdd<T>(done: set<string>, f: string -> multiset<T>, k: string)
    requires k !in done
    ensures Sum(done + {k}, f) == Sum(done, f) + f(k)
  {
    SumPick(done + {k}, f, k);
    assert done + {k} - {k} == done;
  }

  lemma SumMember<T>(keys: set<string>, f: string -> multiset<T>, x: T)
    ensures x in Sum(keys, f) <==> exists k :: k in keys && x in f(k)
    decreases keys
  {
    if keys != {} {
      var k :| k in keys;
      SumPick(keys, f, k);
      SumMember(keys - {k}, f, x);
    }
  }

  lemma SumEmpty<T>(keys: set<string>, f: string -> multiset<T>)
    requires forall k :: k in keys ==> f(k) == multiset{}
    ensures Sum(keys, f) == multiset{}
    decreases keys
  {
    if keys != {} {
      var k :| k in keys;
      SumPick(keys, f, k);
      SumEmpty(keys - {k}, f);
    }
  }

  // ---------------------------------------------------------------------------
  // Additions: what the local protocol has

  /** All field checks on one new field, their outputs concatenated in order. */
  function RunChecks(checks: seq<FieldCheck>, version: string, typeName: string, fieldName: string, field: Field): CheckOutput
  {
    if checks == [] then CheckOutput([], [])
    else
      var before := RunChecks(checks[..|checks| - 1], version, typeName, fieldName, field);
      var out := checks[|checks| - 1](version, typeName, fieldName, field);
      CheckOutput(before.failures + out.failures, before.warnings + out.warnings)
  }

  /** The field checks' texts appended as failures, in order. */
  function Reports(texts: seq<string>): (fs: seq<Failure>)
    ensures |fs| == |texts| && forall i :: 0 <= i < |texts| ==> fs[i] == Reported(texts[i])
  {
    seq(|texts|, i requires 0 <= i < |texts| => Reported(texts[i]))
  }

  /**
   * One local field against the published type `c`: a new field gets the
   * field checks' failures; a field in both fails once for a changed type and
   * once for a changed list flag. Doc and example changes are only printed.
   */
  function FieldFailures(version: string, typeName: string, field: Field, c: TypeDef, fieldName: string,
                         checks: seq<FieldCheck>): multiset<Failure>
  {
    if fieldName !in c.fields then
      multiset(Reports(RunChecks(checks, version, typeName, fieldName, field).failures))
    else
      var published := c.fields[fieldName];
      (if field.typeName != published.typeName then multiset{ChangedType(version, typeName, fieldName)} else multiset{})
      + (if field.list != published.list then multiset{ChangedListState(version, typeName, fieldName)} else multiset{})
  }

  function FieldWarnings(version: string, typeName: string, field: Field, c: TypeDef, fieldName: string,
                         checks: seq<FieldCheck>): multiset<string>
  {
    if fieldName !in c.fields then multiset(RunChecks(checks, version, typeName, fieldName, field).warnings)
    else multiset{}
  }

  /** The published counterpart of a local type: the type itself, or `&Type{}` when it is new. */
  function CounterpartOf(current: Protocol, version: string, typeName: string): TypeDef
  {
    TypeAt(current, version, typeName).GetOr(EmptyType)
  }

  /** What field `fieldName` of local type `t` adds; nothing for a name `t` does not have. */
  function FieldFailuresIn(version: string, typeName: string, t: TypeDef, c: TypeDef, checks: seq<FieldCheck>,
                           fieldName: string): multiset<Failure>
  {
    if fieldName in t.fields then FieldFailures(version, typeName, t.fields[fieldName], c, fieldName, checks) else multiset{}
  }

  function FieldWarningsIn(version: string, typeName: string, t: TypeDef, c: TypeDef, checks: seq<FieldCheck>,
                           fieldName: string): multiset<string>
  {
    if fieldName in t.fields then FieldWarnings(version, typeName, t.fields[fieldName], c, fieldName, checks) else multiset{}
  }

  ghost function FieldFailuresF(version: string, typeName: string, t: TypeDef, c: TypeDef, checks: seq<FieldCheck>): string -> multiset<Failure>
  {
    fieldName => FieldFailuresIn(version, typeName, t, c, checks, fieldName)
  }

  ghost function FieldWarningsF(version: string, typeName: string, t: TypeDef, c: TypeDef, checks: seq<FieldCheck>): string -> multiset<string>
  {
    fieldName => FieldWarningsIn(version, typeName, t, c, checks, fieldName)
  }

  /** What local type `typeName` of `version` adds: the sum over its fields, against its published counterpart. */
  ghost function TypeFailures(local: Protocol, current: Protocol, version: string, checks: seq<FieldCheck>,
                              typeName: string): multiset<Failure>
  {
    if typeName in TypesOf(local, version) then
      var t := TypesOf(local, version)[typeName];
      Sum(t.fields.Keys, FieldFailuresF(version, typeName, t, CounterpartOf(current, version, typeName), checks))
    else multiset{}
  }

  ghost function TypeWarnings(local: Protocol, current: Protocol, version: string, checks: seq<FieldCheck>,
                              typeName: string): multiset<string>
  {
    if typeName in TypesOf(local, version) then
      var t := TypesOf(local, version)[typeName];
      Sum(t.fields.Keys, FieldWarningsF(version, typeName, t, CounterpartOf(current, version, typeName), checks))
    else multiset{}
  }

  ghost function TypeFailuresF(local: Protocol, current: Protocol, version: string, checks: seq<FieldCheck>): string -> multiset<Failure>
  {
    typeName => TypeFailures(local, current, version, checks, typeName)
  }

  ghost function TypeWarningsF(local: Protocol, current: Protocol, version: string, checks: seq<FieldCheck>): string -> multiset<string>
  {
    typeName => TypeWarnings(local, current, version, checks, typeName)
  }

  /** What local version `version` adds: the sum over its types. */
  ghost function VersionFailures(local: Protocol, current: Protocol, checks: seq<FieldCheck>, version: string): multiset<Failure>
  {
    Sum(TypesOf(local, version).Keys, TypeFailuresF(local, current, version, checks))
  }

  ghost function VersionWarnings(local: Protocol, current: Protocol, checks: seq<FieldCheck>, version: string): multiset<string>
  {
    Sum(TypesOf(local, version).Keys, TypeWarningsF(local, current, version, checks))
  }

  ghost function VersionFailuresF(local: Protocol, current: Protocol, checks: seq<FieldCheck>): string -> multiset<Failure>
  {
    version => VersionFailures(local, current, checks, version)
  }

  ghost function VersionWarningsF(local: Protocol, current: Protocol, checks: seq<FieldCheck>): string -> multiset<string>
  {
    version => VersionWarnings(local, current, checks, version)
  }

  /** The failures of the additions pass (lines 38-88), over every local version, type and field. */
  ghost function AdditionFailures(local: Protocol, current: Protocol, checks: seq<FieldCheck>): multiset<Failure>
  {
    Sum(local.types.Keys, VersionFailuresF(local, current, checks))
  }

  ghost function AdditionWarnings(local: Protocol, current: Protocol, checks: seq<FieldCheck>): multiset<string>
  {
    Sum(local.types.Keys, VersionWarningsF(local, current, checks))
  }

  // ---------------------------------------------------------------------------
  // Removals: what the published protocol has

  /** A published type missing locally while it has fields: the removals pass dereferences nil. */
  predicate PanicsAt(local: Protocol, current: Protocol, version: string, typeName: string)
  {
    && version in current.types && typeName in current.types[version]
    && TypeAt(local, version, typeName).None? && current.types[version][typeName].fields != map[]
  }

  ghost predicate Panics(local: Protocol, current: Protocol)
  {
    exists version, typeName :: PanicsAt(local, current, version, typeName)
  }

  /**
   * One published type: removed when missing locally, and each of its fields
   * removed when the local type lacks it. A missing local type reads as having
   * no fields, which is what the line-115 lookup evidently means.
   */
  function RemovedFieldFailures(local: Protocol, version: string, typeName: string, fieldName: string): multiset<Failure>
  {
    if fieldName !in TypeAt(local, version, typeName).GetOr(EmptyType).fields
    then multiset{RemovedField(version, typeName, fieldName)} else multiset{}
  }

  ghost function RemovedFieldsF(local: Protocol, version: string, typeName: string): string -> multiset<Failure>
  {
    fieldName => RemovedFieldFailures(local, version, typeName, fieldName)
  }

  /** What published type `typeName` of `version` adds: its removal, then the sum over its fields. */
  ghost function RemovedTypeFailures(local: Protocol, current: Protocol, version: string, typeName: string): multiset<Failure>
  {
    if typeName in TypesOf(current, version) then
      (if TypeAt(local, version, typeName).None? then multiset{RemovedType(version, typeName)} else multiset{})
      + Sum(TypesOf(current, version)[typeName].fields.Keys, RemovedFieldsF(local, version, typeName))
    else multiset{}
  }

  ghost function RemovedTypeF(local: Protocol, current: Protocol, version: string): string -> multiset<Failure>
  {
    typeName => RemovedTypeFailures(local, current, version, typeName)
  }

  /** What published version `version` adds: its removal, then the sum over its types. */
  ghost function RemovedVersionFailures(local: Protocol, current: Protocol, version: string): multiset<Failure>
  {
    (if version !in local.types then multiset{RemovedVersion(version)} else multiset{})
    + Sum(TypesOf(current, version).Keys, RemovedTypeF(local, current, version))
  }

  ghost function RemovedVersionF(local: Protocol, current: Protocol): string -> multiset<Failure>
  {
    version => RemovedVersionFailures(local, current, version)
  }

  /** The failures of the removals pass (lines 104-121). */
  ghost function RemovalFailures(local: Protocol, current: Protocol): multiset<Failure>
  {
    Sum(current.types.Keys, RemovedVersionF(local, current))
  }

  // ---------------------------------------------------------------------------
  // checkDiff, visiting the maps in an arbitrary order

  /** Every field check on one new field, in order, their failures and warnings appended (lines 63-67). */
  method RunFieldChecks(checks: seq<FieldCheck>, version: string, typeName: string, fieldName: string, field: Field)
    returns (failures: seq<Failure>, warnings: seq<string>)
    ensures failures == Reports(RunChecks(checks, version, typeName, fieldName, field).failures)
    ensures warnings == RunChecks(checks, version, typeName, fieldName, field).warnings
  {
    var texts: seq<string> := [];
    warnings := [];
    var i := 0;
    while i < |checks|
      invariant 0 <= i <= |checks|
      invariant texts == RunChecks(checks[..i], version, typeName, fieldName, field).failures
      invariant warnings == RunChecks(checks[..i], version, typeName, fieldName, field).warnings
    {
      assert checks[..i + 1][..i] == checks[..i];
      var result := checks[i](version, typeName, fieldName, field);
      texts := texts + result.failures;
      warnings := warnings + result.warnings;
      i := i + 1;
    }
    assert checks[..|checks|] == checks;
    failures := Reports(texts);
  }

  /** Moving one key from the pending visits to the done ones keeps them a partition of the same keys. */
  lemma MoveKey(done: set<string>, pending: set<string>, k: string)
    requires k in pending && done !! pending
    ensures (done + {k}) + (pending - {k}) == done + pending && (done + {k}) !! (pending - {k})
  {
  }

  /** One local field (lines 59-76): the field checks when it is new, else a changed type or list flag. */
  method CheckField(version: string, typeName: string, fieldName: string, field: Field, c: TypeDef, checks: seq<FieldCheck>)
    returns (failures: seq<Failure>, warnings: seq<string>)
    ensures multiset(failures) == FieldFailures(version, typeName, field, c, fieldName, checks)
    ensures multiset(warnings) == FieldWarnings(version, typeName, field, c, fieldName, checks)
  {
    if fieldName !in c.fields {
      failures, warnings := RunFieldChecks(checks, version, typeName, fieldName, field);
    } else {
      var published := c.fields[fieldName];
      failures, warnings := [], [];
      if field.typeName != published.typeName {
        failures := failures + [ChangedType(version, typeName, fieldName)];
      }
      if field.list != published.list {
        failures := failures + [ChangedListState(version, typeName, fieldName)];
      }
    }
  }

  /** What the fields of `t` visited so far have added. */
  ghost predicate FieldsVisited(version: string, typeName: string, t: TypeDef, c: TypeDef, checks: seq<FieldCheck>,
                                done: set<string>, failures: seq<Failure>, warnings: seq<string>)
  {
    && multiset(failures) == Sum(done, FieldFailuresF(version, typeName, t, c, checks))
    && multiset(warnings) == Sum(done, FieldWarningsF(version, typeName, t, c, checks))
  }

  lemma FieldStep(version: string, typeName: string, t: TypeDef, c: TypeDef, checks: seq<FieldCheck>, done: set<string>, k: string)
    requires k in t.fields && k !in done
    ensures Sum(done + {k}, FieldFailuresF(version, typeName, t, c, checks))
            == Sum(done, FieldFailuresF(version, typeName, t, c, checks)) + FieldFailures(version, typeName, t.fields[k], c, k, checks)
    ensures Sum(done + {k}, FieldWarningsF(version, typeName, t, c, checks))
            == Sum(done, FieldWarningsF(version, typeName, t, c, checks)) + FieldWarnings(version, typeName, t.fields[k], c, k, checks)
  {
    SumAdd(done, FieldFailuresF(version, typeName, t, c, checks), k);
    SumAdd(done, FieldWarningsF(version, typeName, t, c, checks), k);
  }

  method VisitField(version: string, typeName: string, t: TypeDef, c: TypeDef, checks: seq<FieldCheck>,
                    ghost done: set<string>, fieldName: string, failures: seq<Failure>, warnings: seq<string>)
    returns (failures': seq<Failure>, warnings': seq<string>)
    requires fieldName in t.fields && fieldName !in done
    requires FieldsVisited(version, typeName, t, c, checks, done, failures, warnings)
    ensures FieldsVisited(version, typeName, t, c, checks, done + {fieldName}, failures', warnings')
  {
    var fs, ws := CheckField(version, typeName, fieldName, t.fields[fieldName], c, checks);
    FieldStep(version, typeName, t, c, checks, done, fieldName);
    failures', warnings' := failures + fs, warnings + ws;
  }

  /** The fields of local type `t` against its published counterpart `c` (lines 59-86). */
  method CheckTypeAdditions(version: string, typeName: string, t: TypeDef, c: TypeDef, checks: seq<FieldCheck>)
    returns (failures: seq<Failure>, warnings: seq<string>)
    ensures FieldsVisited(version, typeName, t, c, checks, t.fields.Keys, failures, warnings)
  {
    failures, warnings := [], [];
    ghost var done: set<string> := {};
    var pending := t.fields.Keys;
    while pending != {}
      invariant done + pending == t.fields.Keys && done !! pending
      invariant FieldsVisited(version, typeName, t, c, checks, done, failures, warnings)
      decreases pending
    {
      var fieldName :| fieldName in pending;
      failures, warnings := VisitField(version, typeName, t, c, checks, done, fieldName, failures, warnings);
      MoveKey(done, pending, fieldName);
      done, pending := done + {fieldName}, pending - {fieldName};
    }
    assert done == t.fields.Keys;
  }

  /** What the local types of `version` visited so far have added. */
  ghost predicate TypesVisited(local: Protocol, current: Protocol, version: string, checks: seq<FieldCheck>,
                               done: set<string>, failures: seq<Failure>, warnings: seq<string>)
  {
    && multiset(failures) == Sum(done, TypeFailuresF(local, current, version, checks))
    && multiset(warnings) == Sum(done, TypeWarningsF(local, current, version, checks))
  }

  method VisitType(local: Protocol, current: Protocol, version: string, checks: seq<FieldCheck>,
                   ghost done: set<string>, typeName: string, failures: seq<Failure>, warnings: seq<string>)
    returns (failures': seq<Failure>, warnings': seq<string>)
    requires typeName in TypesOf(local, version) && typeName !in done
    requires TypesVisited(local, current, version, checks, done, failures, warnings)
    ensures TypesVisited(local, current, version, checks, done + {typeName}, failures', warnings')
  {
    var c := CounterpartOf(current, version, typeName);
    var fs, ws := CheckTypeAdditions(version, typeName, TypesOf(local, version)[typeName], c, checks);
    SumAdd(done, TypeFailuresF(local, current, version, checks), typeName);
    SumAdd(done, TypeWarningsF(local, current, version, checks), typeName);
    failures', warnings' := failures + fs, warnings + ws;
  }

  /** The local types of one version (lines 38-88). */
  method CheckVersionAdditions(local: Protocol, current: Protocol, version: string, checks: seq<FieldCheck>)
    returns (failures: seq<Failure>, warnings: seq<string>)
    ensures TypesVisited(local, current, version, checks, TypesOf(local, version).Keys, failures, warnings)
  {
    var types := TypesOf(local, version);
    failures, warnings := [], [];
    ghost var done: set<string> := {};
    var pending := types.Keys;
    while pending != {}
      invariant done + pending == types.Keys && done !! pending
      invariant TypesVisited(local, current, version, checks, done, failures, warnings)
      decreases pending
    {
      var typeName :| typeName in pending;
      failures, warnings := VisitType(local, current, version, checks, done, typeName, failures, warnings);
      MoveKey(done, pending, typeName);
      done, pending := done + {typeName}, pending - {typeName};
    }
    assert done == types.Keys;
  }

  /** What the local versions visited so far have added. */
  ghost predicate VersionsVisited(local: Protocol, current: Protocol, checks: seq<FieldCheck>,
                                  done: set<string>, failures: seq<Failure>, warnings: seq<string>)
  {
    && multiset(failures) == Sum(done, VersionFailuresF(local, current, checks))
    && multiset(warnings) == Sum(done, VersionWarningsF(local, current, checks))
  }

  method VisitVersion(local: Protocol, current: Protocol, checks: seq<FieldCheck>,
                      ghost done: set<string>, version: string, failures: seq<Failure>, warnings: seq<string>)
    returns (failures': seq<Failure>, warnings': seq<string>)
    requires version !in done
    requires VersionsVisited(local, current, checks, done, failures, warnings)
    ensures VersionsVisited(local, current, checks, done + {version}, failures', warnings')
  {
    var fs, ws := CheckVersionAdditions(local, current, version, checks);
    SumAdd(done, VersionFailuresF(local, current, checks), version);
    SumAdd(done, VersionWarningsF(local, current, checks), version);
    failures', warnings' := failures + fs, warnings + ws;
  }

  /** The additions pass over every local version. */
  method CheckAdditions(local: Protocol, current: Protocol, checks: seq<FieldCheck>)
    returns (failures: seq<Failure>, warnings: seq<string>)
    ensures multiset(failures) == AdditionFailures(local, current, checks)
    ensures multiset(warnings) == AdditionWarnings(local, current, checks)
  {
    failures, warnings := [], [];
    ghost var done: set<string> := {};
    var pending := local.types.Keys;
    while pending != {}
      invariant done + pending == local.types.Keys && done !! pending
      invariant VersionsVisited(local, current, checks, done, failures, warnings)
      decreases pending
    {
      var version :| version in pending;
      failures, warnings := VisitVersion(local, current, checks, done, version, failures, warnings);
      MoveKey(done, pending, version);
      done, pending := done + {version}, pending - {version};
    }
    assert done == local.types.Keys;
  }

  /** What the fields of a published type visited so far have added, after its own removal. */
  ghost predicate FieldsRemoved(local: Protocol, version: string, typeName: string, done: set<string>, failures: seq<Failure>)
  {
    multiset(failures) == (if TypeAt(local, version, typeName).None? then multiset{RemovedType(version, typeName)} else multiset{})
                          + Sum(done, RemovedFieldsF(local, version, typeName))
  }

  method VisitRemovedField(local: Protocol, version: string, typeName: string, localType: TypeDef,
                           ghost done: set<string>, fieldName: string, failures: seq<Failure>)
    returns (failures': seq<Failure>)
    requires localType == TypeAt(local, version, typeName).GetOr(EmptyType) && fieldName !in done
    requires FieldsRemoved(local, version, typeName, done, failures)
    ensures FieldsRemoved(local, version, typeName, done + {fieldName}, failures')
  {
    SumAdd(done, RemovedFieldsF(local, version, typeName), fieldName);
    failures' := failures;
    if fieldName !in localType.fields {
      failures' := failures' + [RemovedField(version, typeName, fieldName)];
    }
  }

  /**
   * One published type (lines 109-119). As written (`lenient` false), a type
   * missing locally that has fields dereferences nil and panics; `lenient`
   * reads the missing type as having no fields instead.
   */
  method CheckTypeRemovals(local: Protocol, current: Protocol, version: string, typeName: string, lenient: bool)
    returns (r: Result<seq<Failure>, Panic>)
    requires version in current.types && typeName in current.types[version]
    ensures r.Err? <==> !lenient && PanicsAt(local, current, version, typeName)
    ensures r.Ok? ==> FieldsRemoved(local, version, typeName, current.types[version][typeName].fields.Keys, r.value)
  {
    var t := current.types[version][typeName];
    var missing := TypeAt(local, version, typeName).None?;
    var failures := if missing then [RemovedType(version, typeName)] else [];
    var localType := TypeAt(local, version, typeName).GetOr(EmptyType);
    ghost var done: set<string> := {};
    var pending := t.fields.Keys;
    while pending != {}
      invariant done + pending == t.fields.Keys && done !! pending
      invariant missing && done != {} ==> lenient
      invariant FieldsRemoved(local, version, typeName, done, failures)
      decreases pending
    {
      var fieldName :| fieldName in pending;
      if missing && !lenient {
        return Err(NilDereference(version, typeName));
      }
      failures := VisitRemovedField(local, version, typeName, localType, done, fieldName, failures);
      MoveKey(done, pending, fieldName);
      done, pending := done + {fieldName}, pending - {fieldName};
    }
    assert done == t.fields.Keys;
    return Ok(failures);
  }

  /** What the published types of `version` visited so far have added, after the version's own removal. */
  ghost predicate TypesRemoved(local: Protocol, current: Protocol, version: string, done: set<string>, failures: seq<Failure>)
  {
    multiset(failures) == (if version !in local.types then multiset{RemovedVersion(version)} else multiset{})
                          + Sum(done, RemovedTypeF(local, current, version))
  }

  method VisitRemovedType(local: Protocol, current: Protocol, version: string, lenient: bool,
                          ghost done: set<string>, typeName: string, failures: seq<Failure>)
    returns (r: Result<seq<Failure>, Panic>)
    requires version in current.types && typeName in current.types[version] && typeName !in done
    requires TypesRemoved(local, current, version, done, failures)
    ensures r.Err? <==> !lenient && PanicsAt(local, current, version, typeName)
    ensures r.Ok? ==> TypesRemoved(local, current, version, done + {typeName}, r.value)
  {
    var fs :- CheckTypeRemovals(local, current, version, typeName, lenient);
    SumAdd(done, RemovedTypeF(local, current, version), typeName);
    return Ok(failures + fs);
  }

  /** One published version (lines 104-121). */
  method CheckVersionRemovals(local: Protocol, current: Protocol, version: string, lenient: bool)
    returns (r: Result<seq<Failure>, Panic>)
    requires version in current.types
    ensures r.Err? <==> !lenient && exists typeName :: PanicsAt(local, current, version, typeName)
    ensures r.Ok? ==> TypesRemoved(local, current, version, current.types[version].Keys, r.value)
  {
    var types := current.types[version];
    var failures := if version !in local.types then [RemovedVersion(version)] else [];
    ghost var done: set<string> := {};
    var pending := types.Keys;
    while pending != {}
      invariant done + pending == types.Keys && done !! pending
      invariant forall typeName :: typeName in done ==> lenient || !PanicsAt(local, current, version, typeName)
      invariant TypesRemoved(local, current, version, done, failures)
      decreases pending
    {
      var typeName :| typeName in pending;
      var next := VisitRemovedType(local, current, version, lenient, done, typeName, failures);
      if next.Err? {
        return Err(next.error);
      }
      failures := next.value;
      MoveKey(done, pending, typeName);
      done, pending := done + {typeName}, pending - {typeName};
    }
    assert done == types.Keys;
    return Ok(failures);
  }

  /** What the published versions visited so far have added. */
  ghost predicate VersionsRemoved(local: Protocol, current: Protocol, done: set<string>, failures: seq<Failure>)
  {
    multiset(failures) == Sum(done, RemovedVersionF(local, current))
  }

  method VisitRemovedVersion(local: Protocol, current: Protocol, lenient: bool,
                             ghost done: set<string>, version: string, failures: seq<Failure>)
    returns (r: Result<seq<Failure>, Panic>)
    requires version in current.types && version !in done
    requires VersionsRemoved(local, current, done, failures)
    ensures r.Err? <==> !lenient && exists typeName :: PanicsAt(local, current, version, typeName)
    ensures r.Ok? ==> VersionsRemoved(local, current, done + {version}, r.value)
  {
    var fs :- CheckVersionRemovals(local, current, version, lenient);
    SumAdd(done, RemovedVersionF(local, current), version);
    return Ok(failures + fs);
  }

  /** The removals pass over every published version. */
  method CheckRemovals(local: Protocol, current: Protocol, lenient: bool) returns (r: Result<seq<Failure>, Panic>)
    ensures r.Err? <==> !lenient && Panics(local, current)
    ensures r.Ok? ==> multiset(r.value) == RemovalFailures(local, current)
  {
    var failures := [];
    ghost var done: set<string> := {};
    var pending := current.types.Keys;
    while pending != {}
      invariant done + pending == current.types.Keys && done !! pending
      invariant forall version, typeName :: version in done ==> lenient || !PanicsAt(local, current, version, typeName)
      invariant VersionsRemoved(local, current, done, failures)
      decreases pending
    {
      var version :| version in pending;
      var next := VisitRemovedVersion(local, current, lenient, done, version, failures);
      if next.Err? {
        return Err(next.error);
      }
      failures := next.value;
      MoveKey(done, pending, version);
      done, pending := done + {version}, pending - {version};
    }
    assert done == current.types.Keys;
    return Ok(failures);
  }

  /**
   * `checkDiff` with the published protocol already fetched and decoded: the
   * additions pass, then the removals pass, which panics as soon as it meets
   * a published type that is missing locally and has fields.
   */
  method CheckDiff(local: Protocol, current: Protocol, checks: seq<FieldCheck>) returns (r: Result<DiffOutput, Panic>)
    ensures r.Err? <==> Panics(local, current)
    ensures r.Ok? ==> multiset(r.value.failures) == AdditionFailures(local, current, checks) + RemovalFailures(local, current)
    ensures r.Ok? ==> multiset(r.value.warnings) == AdditionWarnings(local, current, checks)
  {
    var failures, warnings := CheckAdditions(local, current, checks);
    var removed :- CheckRemovals(local, current, false);
    return Ok(DiffOutput(failures + removed, warnings));
  }

  /** `checkDiff` with the lookup of line 115 reading a missing local type as empty: it never panics. */
  method CheckDiffFixed(local: Protocol, current: Protocol, checks: seq<FieldCheck>) returns (out: DiffOutput)
    ensures multiset(out.failures) == AdditionFailures(local, current, checks) + RemovalFailures(local, current)
    ensures multiset(out.warnings) == AdditionWarnings(local, current, checks)
  {
    var failures, warnings := CheckAdditions(local, current, checks);
    var removed := CheckRemovals(local, current, true);
    out := DiffOutput(failures + removed.value, warnings);
  }

  // ---------------------------------------------------------------------------
  // What the failures mean

  /** `x` is among the failures of field `fieldName` of local type `typeName` in `version`. */
  predicate FailsAtField(local: Protocol, current: Protocol, checks: seq<FieldCheck>,
                         version: string, typeName: string, fieldName: string, x: Failure)
  {
    && version in local.types && typeName in local.types[version] && fieldName in local.types[version][typeName].fields
    && x in FieldFailures(version, typeName, local.types[version][typeName].fields[fieldName],
                          CounterpartOf(current, version, typeName), fieldName, checks)
  }

  lemma VersionMember(local: Protocol, current: Protocol, checks: seq<FieldCheck>, x: Failure)
    ensures x in AdditionFailures(local, current, checks) <==>
            exists version :: version in local.types && x in VersionFailures(local, current, checks, version)
  {
    SumMember(local.types.Keys, VersionFailuresF(local, current, checks), x);
  }

  lemma TypeMember(local: Protocol, current: Protocol, checks: seq<FieldCheck>, version: string, x: Failure)
    ensures x in VersionFailures(local, current, checks, version) <==>
            exists typeName :: typeName in TypesOf(local, version) && x in TypeFailures(local, current, version, checks, typeName)
  {
    SumMember(TypesOf(local, version).Keys, TypeFailuresF(local, current, version, checks), x);
  }

  lemma FieldMember(local: Protocol, current: Protocol, checks: seq<FieldCheck>, version: string, typeName: string, x: Failure)
    ensures x in TypeFailures(local, current, version, checks, typeName) <==>
            exists fieldName :: FailsAtField(local, current, checks, version, typeName, fieldName, x)
  {
    if typeName in TypesOf(local, version) {
      var t := TypesOf(local, version)[typeName];
      var c := CounterpartOf(current, version, typeName);
      SumMember(t.fields.Keys, FieldFailuresF(version, typeName, t, c, checks), x);
      forall fieldName
        ensures (fieldName in t.fields && x in FieldFailuresIn(version, typeName, t, c, checks, fieldName))
                <==> FailsAtField(local, current, checks, version, typeName, fieldName, x)
      {
      }
    }
  }

  /** Every failure of a local field is among the failures of the additions pass. */
  lemma FieldFailureCounted(local: Protocol, current: Protocol, checks: seq<FieldCheck>,
                            version: string, typeName: string, fieldName: string, x: Failure)
    requires FailsAtField(local, current, checks, version, typeName, fieldName, x)
    ensures x in AdditionFailures(local, current, checks)
  {
    FieldMember(local, current, checks, version, typeName, x);
    TypeMember(local, current, checks, version, x);
    VersionMember(local, current, checks, x);
  }

  /** Every failure of the additions pass comes from one local field. */
  lemma AdditionFailureSource(local: Protocol, current: Protocol, checks: seq<FieldCheck>, x: Failure)
    requires x in AdditionFailures(local, current, checks)
    ensures exists version, typeName, fieldName :: FailsAtField(local, current, checks, version, typeName, fieldName, x)
  {
    VersionMember(local, current, checks, x);
    var version :| version in local.types && x in VersionFailures(local, current, checks, version);
    TypeMember(local, current, checks, version, x);
    var typeName :| typeName in TypesOf(local, version) && x in TypeFailures(local, current, version, checks, typeName);
    FieldMember(local, current, checks, version, typeName, x);
  }

  /** A failure of the additions pass is exactly a failure of one local field. */
  lemma AdditionMember(local: Protocol, current: Protocol, checks: seq<FieldCheck>, x: Failure)
    ensures x in AdditionFailures(local, current, checks) <==>
            exists version, typeName, fieldName :: FailsAtField(local, current, checks, version, typeName, fieldName, x)
  {
    if x in AdditionFailures(local, current, checks) {
      AdditionFailureSource(local, current, checks, x);
    } else {
      forall version, typeName, fieldName | FailsAtField(local, current, checks, version, typeName, fieldName, x)
        ensures false
      {
        FieldFailureCounted(local, current, checks, version, typeName, fieldName, x);
      }
    }
  }

  /** Field `fieldName` of `typeName` in `version` is not in the published protocol. */
  predicate IsNewField(local: Protocol, current: Protocol, version: string, typeName: string, fieldName: string)
  {
    && TypeAt(local, version, typeName).Some? && fieldName in TypeAt(local, version, typeName).value.fields
    && fieldName !in CounterpartOf(current, version, typeName).fields
  }

  /** Field `fieldName` of `typeName` in `version` is in both protocols. */
  predicate IsKeptField(local: Protocol, current: Protocol, version: string, typeName: string, fieldName: string)
  {
    && TypeAt(local, version, typeName).Some? && fieldName in TypeAt(local, version, typeName).value.fields
    && TypeAt(current, version, typeName).Some? && fieldName in TypeAt(current, version, typeName).value.fields
  }

  /** The texts the field checks report for a new field. */
  function CheckTexts(local: Protocol, checks: seq<FieldCheck>, version: string, typeName: string, fieldName: string): seq<string>
    requires TypeAt(local, version, typeName).Some? && fieldName in TypeAt(local, version, typeName).value.fields
  {
    RunChecks(checks, version, typeName, fieldName, TypeAt(local, version, typeName).value.fields[fieldName]).failures
  }

  lemma FieldFailureKinds(local: Protocol, current: Protocol, checks: seq<FieldCheck>,
                          version: string, typeName: string, fieldName: string, x: Failure)
    ensures FailsAtField(local, current, checks, version, typeName, fieldName, x) <==>
      || (&& IsKeptField(local, current, version, typeName, fieldName)
          && var (l, c) := (TypeAt(local, version, typeName).value.fields[fieldName], TypeAt(current, version, typeName).value.fields[fieldName]);
          || (x == ChangedType(version, typeName, fieldName) && l.typeName != c.typeName)
          || (x == ChangedListState(version, typeName, fieldName) && l.list != c.list))
      || (&& IsNewField(local, current, version, typeName, fieldName)
          && x.Reported? && x.text in CheckTexts(local, checks, version, typeName, fieldName))
  {
    if FailsAtField(local, current, checks, version, typeName, fieldName, x) && IsNewField(local, current, version, typeName, fieldName) {
      var texts := CheckTexts(local, checks, version, typeName, fieldName);
      var i :| 0 <= i < |texts| && Reports(texts)[i] == x;
    }
    if IsNewField(local, current, version, typeName, fieldName) && x.Reported? && x.text in CheckTexts(local, checks, version, typeName, fieldName) {
      var texts := CheckTexts(local, checks, version, typeName, fieldName);
      var i :| 0 <= i < |texts| && texts[i] == x.text;
      assert Reports(texts)[i] == x;
    }
  }

  /** A field's type changed is reported exactly when the field is in both protocols with different type names (lines 69-72). */
  lemma ChangedTypeReported(local: Protocol, current: Protocol, checks: seq<FieldCheck>,
                            version: string, typeName: string, fieldName: string)
    ensures ChangedType(version, typeName, fieldName) in AdditionFailures(local, current, checks) <==>
      && IsKeptField(local, current, version, typeName, fieldName)
      && TypeAt(local, version, typeName).value.fields[fieldName].typeName
         != TypeAt(current, version, typeName).value.fields[fieldName].typeName
  {
    var x := ChangedType(version, typeName, fieldName);
    AdditionMember(local, current, checks, x);
    forall v, t, f ensures FailsAtField(local, current, checks, v, t, f, x) ==> v == version && t == typeName && f == fieldName {
      FieldFailureKinds(local, current, checks, v, t, f, x);
    }
    FieldFailureKinds(local, current, checks, version, typeName, fieldName, x);
  }

  /** A changed list flag is reported exactly when the field is in both protocols with different flags (lines 73-76). */
  lemma ChangedListStateReported(local: Protocol, current: Protocol, checks: seq<FieldCheck>,
                                 version: string, typeName: string, fieldName: string)
    ensures ChangedListState(version, typeName, fieldName) in AdditionFailures(local, current, checks) <==>
      && IsKeptField(local, current, version, typeName, fieldName)
      && TypeAt(local, version, typeName).value.fields[fieldName].list
         != TypeAt(current, version, typeName).value.fields[fieldName].list
  {
    var x := ChangedListState(version, typeName, fieldName);
    AdditionMember(local, current, checks, x);
    forall v, t, f ensures FailsAtField(local, current, checks, v, t, f, x) ==> v == version && t == typeName && f == fieldName {
      FieldFailureKinds(local, current, checks, v, t, f, x);
    }
    FieldFailureKinds(local, current, checks, version, typeName, fieldName, x);
  }

  /** A field check's failure text is reported exactly when some new field drew it (lines 59-67). */
  lemma CheckFailureReported(local: Protocol, current: Protocol, checks: seq<FieldCheck>, text: string)
    ensures Reported(text) in AdditionFailures(local, current, checks) <==>
      exists version, typeName, fieldName ::
        IsNewField(local, current, version, typeName, fieldName) && text in CheckTexts(local, checks, version, typeName, fieldName)
  {
    var x := Reported(text);
    AdditionMember(local, current, checks, x);
    forall v, t, f
      ensures FailsAtField(local, current, checks, v, t, f, x) <==>
              IsNewField(local, current, v, t, f) && text in CheckTexts(local, checks, v, t, f)
    {
      FieldFailureKinds(local, current, checks, v, t, f, x);
    }
  }

  lemma RemovedVersionMember(local: Protocol, current: Protocol, x: Failure)
    ensures x in RemovalFailures(local, current) <==>
            exists version :: version in current.types && x in RemovedVersionFailures(local, current, version)
  {
    SumMember(current.types.Keys, RemovedVersionF(local, current), x);
  }

  lemma RemovedTypeMember(local: Protocol, current: Protocol, version: string, x: Failure)
    ensures x in RemovedVersionFailures(local, current, version) <==>
      || (x == RemovedVersion(version) && version !in local.types)
      || exists typeName :: typeName in TypesOf(current, version) && x in RemovedTypeFailures(local, current, version, typeName)
  {
    SumMember(TypesOf(current, version).Keys, RemovedTypeF(local, current, version), x);
  }

  lemma RemovedFieldMember(local: Protocol, current: Protocol, version: string, typeName: string, x: Failure)
    requires typeName in TypesOf(current, version)
    ensures x in RemovedTypeFailures(local, current, version, typeName) <==>
      || (x == RemovedType(version, typeName) && TypeAt(local, version, typeName).None?)
      || exists fieldName :: fieldName in TypesOf(current, version)[typeName].fields
                             && x in RemovedFieldFailures(local, version, typeName, fieldName)
  {
    SumMember(TypesOf(current, version)[typeName].fields.Keys, RemovedFieldsF(local, version, typeName), x);
  }

  /** A version is reported removed exactly when it is published and missing locally (lines 105-108). */
  lemma RemovedVersionReported(local: Protocol, current: Protocol, version: string)
    ensures RemovedVersion(version) in RemovalFailures(local, current) <==> version in current.types && version !in local.types
  {
    var x := RemovedVersion(version);
    RemovedVersionMember(local, current, x);
    forall v | v in current.types
      ensures x in RemovedVersionFailures(local, current, v) <==> v == version && version !in local.types
    {
      RemovedTypeMember(local, current, v, x);
      forall t | t in TypesOf(current, v)
        ensures x !in RemovedTypeFailures(local, current, v, t)
      {
        RemovedFieldMember(local, current, v, t, x);
      }
    }
  }

  lemma RemovedTypeInVersion(local: Protocol, current: Protocol, v: string, version: string, typeName: string)
    ensures RemovedType(version, typeName) in RemovedVersionFailures(local, current, v) <==>
            v == version && typeName in TypesOf(current, v) && TypeAt(local, version, typeName).None?
  {
    var x := RemovedType(version, typeName);
    RemovedTypeMember(local, current, v, x);
    forall t | t in TypesOf(current, v)
      ensures x in RemovedTypeFailures(local, current, v, t) <==> v == version && t == typeName && TypeAt(local, version, typeName).None?
    {
      RemovedFieldMember(local, current, v, t, x);
    }
  }

  /** A type is reported removed exactly when it is published and missing locally (lines 109-113). */
  lemma RemovedTypeReported(local: Protocol, current: Protocol, version: string, typeName: string)
    ensures RemovedType(version, typeName) in RemovalFailures(local, current) <==>
            TypeAt(current, version, typeName).Some? && TypeAt(local, version, typeName).None?
  {
    var x := RemovedType(version, typeName);
    RemovedVersionMember(local, current, x);
    if x in RemovalFailures(local, current) {
      var v :| v in current.types && x in RemovedVersionFailures(local, current, v);
      RemovedTypeInVersion(local, current, v, version, typeName);
    } else {
      RemovedTypeInVersion(local, current, version, version, typeName);
    }
  }

  lemma RemovedFieldInVersion(local: Protocol, current: Protocol, v: string, version: string, typeName: string, fieldName: string)
    ensures RemovedField(version, typeName, fieldName) in RemovedVersionFailures(local, current, v) <==>
      && v == version && typeName in TypesOf(current, v) && fieldName in TypesOf(current, v)[typeName].fields
      && fieldName !in TypeAt(local, version, typeName).GetOr(EmptyType).fields
  {
    var x := RemovedField(version, typeName, fieldName);
    RemovedTypeMember(local, current, v, x);
    forall t | t in TypesOf(current, v)
      ensures x in RemovedTypeFailures(local, current, v, t) <==>
        && v == version && t == typeName && fieldName in TypesOf(current, v)[t].fields
        && fieldName !in TypeAt(local, version, typeName).GetOr(EmptyType).fields
    {
      RemovedFieldMember(local, current, v, t, x);
    }
  }

  /**
   * A field is reported removed exactly when it is in a published type whose
   * local counterpart lacks it, a missing local type counting as having no
   * fields (lines 114-118, with the lookup of line 115 as intended).
   */
  lemma RemovedFieldReported(local: Protocol, current: Protocol, version: string, typeName: string, fieldName: string)
    ensures RemovedField(version, typeName, fieldName) in RemovalFailures(local, current) <==>
      && TypeAt(current, version, typeName).Some? && fieldName in TypeAt(current, version, typeName).value.fields
      && fieldName !in TypeAt(local, version, typeName).GetOr(EmptyType).fields
  {
    var x := RemovedField(version, typeName, fieldName);
    RemovedVersionMember(local, current, x);
    if x in RemovalFailures(local, current) {
      var v :| v in current.types && x in RemovedVersionFailures(local, current, v);
      RemovedFieldInVersion(local, current, v, version, typeName, fieldName);
    } else {
      RemovedFieldInVersion(local, current, version, version, typeName, fieldName);
    }
  }

  // ---------------------------------------------------------------------------
  // An unchanged protocol, and the panic of line 115

  lemma UnchangedTypeAdds(p: Protocol, checks: seq<FieldCheck>, version: string, typeName: string)
    ensures TypeFailures(p, p, version, checks, typeName) == multiset{}
    ensures TypeWarnings(p, p, version, checks, typeName) == multiset{}
  {
    if typeName in TypesOf(p, version) {
      var t := TypesOf(p, version)[typeName];
      var c := CounterpartOf(p, version, typeName);
      assert c == t;
      SumEmpty(t.fields.Keys, FieldFailuresF(version, typeName, t, c, checks));
      SumEmpty(t.fields.Keys, FieldWarningsF(version, typeName, t, c, checks));
    }
  }

  lemma UnchangedVersionAdds(p: Protocol, checks: seq<FieldCheck>, version: string)
    ensures VersionFailures(p, p, checks, version) == multiset{}
    ensures VersionWarnings(p, p, checks, version) == multiset{}
  {
    forall typeName
      ensures TypeFailures(p, p, version, checks, typeName) == multiset{}
      ensures TypeWarnings(p, p, version, checks, typeName) == multiset{}
    {
      UnchangedTypeAdds(p, checks, version, typeName);
    }
    SumEmpty(TypesOf(p, version).Keys, TypeFailuresF(p, p, version, checks));
    SumEmpty(TypesOf(p, version).Keys, TypeWarningsF(p, p, version, checks));
  }

  lemma UnchangedTypeRemoves(p: Protocol, version: string, typeName: string)
    ensures RemovedTypeFailures(p, p, version, typeName) == multiset{}
  {
    if typeName in TypesOf(p, version) {
      SumEmpty(TypesOf(p, version)[typeName].fields.Keys, RemovedFieldsF(p, version, typeName));
    }
  }

  lemma UnchangedVersionRemoves(p: Protocol, version: string)
    requires version in p.types
    ensures RemovedVersionFailures(p, p, version) == multiset{}
  {
    forall typeName ensures RemovedTypeFailures(p, p, version, typeName) == multiset{} {
      UnchangedTypeRemoves(p, version, typeName);
    }
    SumEmpty(TypesOf(p, version).Keys, RemovedTypeF(p, p, version));
  }

  /** Compared with itself, a protocol passes: no failure, no warning, no panic. */
  lemma UnchangedProtocolPasses(p: Protocol, checks: seq<FieldCheck>)
    ensures AdditionFailures(p, p, checks) == multiset{} && AdditionWarnings(p, p, checks) == multiset{}
    ensures RemovalFailures(p, p) == multiset{}
    ensures !Panics(p, p)
  {
    forall version
      ensures VersionFailures(p, p, checks, version) == multiset{}
      ensures VersionWarnings(p, p, checks, version) == multiset{}
    {
      UnchangedVersionAdds(p, checks, version);
    }
    SumEmpty(p.types.Keys, VersionFailuresF(p, p, checks));
    SumEmpty(p.types.Keys, VersionWarningsF(p, p, checks));
    forall version | version in p.types ensures RemovedVersionFailures(p, p, version) == multiset{} {
      UnchangedVersionRemoves(p, version);
    }
    SumEmpty(p.types.Keys, RemovedVersionF(p, p));
  }

  /**
   * Removing a published type that has fields, alone or with its whole
   * version, makes line 115 dereference nil: an empty local protocol against
   * one published type with one field panics.
   */
  lemma RemovedTypeWithFieldsPanics()
    ensures Panics(Protocol(map[], map[]),
                   Protocol(map[], map["v1" := map["T" := TypeDef(map["f" := Field("string", false, "", "")], "", false)]]))
  {
    var current := Protocol(map[], map["v1" := map["T" := TypeDef(map["f" := Field("string", false, "", "")], "", false)]]);
    assert "f" in current.types["v1"]["T"].fields;
    assert PanicsAt(Protocol(map[], map[]), current, "v1", "T");
  }
}
