/** `updatePackageJson`: the edits made to the parsed package descriptor. */
module PackageJson {
  import opened Wrappers
  import PackageName

  /** A parsed JSON value (numbers are integers here). */
  datatype Json =
    | JNull
    | JBool(b: bool)
    | JNumber(n: int)
    | JString(s: string)
    | JArray(items: seq<Json>)
    | JObject(fields: map<string, Json>)

  /** The descriptor's top-level object. */
  type Descriptor = map<string, Json>

  /** Assigning a property of a primitive or of `null` throws a `TypeError`
      in module code; `key` names the container being written. */
  datatype PatchError = TypeError(key: string)

  const NameKey := "name"
  const DescriptionKey := "description"
  const PrivateKey := "private"
  const BinKey := "bin"
  const ScriptsKey := "scripts"
  const DevDependenciesKey := "devDependencies"

  const ChangesetScript := "changeset"
  const ReleaseScript := "release"
  const ChangesetCommand := "changeset"
  const ReleaseCommand := "changeset version && pnpm install --no-frozen-lockfile"
  /** `CHANGESET_PACKAGE` and `CHANGESET_VERSION` */
  const ChangesetPackage := "@changesets/cli"
  const ChangesetVersion := "^2.29.7"

  /** The script entries and the dependency the Changesets option manages. */
  const ReleaseScripts: set<string> := {ChangesetScript, ReleaseScript}
  const ChangesetDependency: set<string> := {ChangesetPackage}

  /** The top-level keys `updatePackageJson` may write or delete. */
  predicate Touched(k: string) {
    k == NameKey || k == DescriptionKey || k == PrivateKey || k == BinKey
    || k == ScriptsKey || k == DevDependenciesKey
  }

  /** JavaScript truthiness. */
  predicate Truthy(v: Json) {
    match v
    case JNull => false
    case JBool(b) => b
    case JNumber(n) => n != 0
    case JString(s) => s != ""
    case _ => true
  }

  /** `Object.keys(v).length`: own keys of an object, indices of an array or
      a string, none for the other primitives. */
  function KeyCount(v: Json): nat {
    match v
    case JObject(f) => |f|
    case JArray(items) => |items|
    case JString(s) => |s|
    case _ => 0
  }

  function Lookup(m: map<string, Json>, k: string): (r: Option<Json>)
    ensures r.Some? <==> k in m
    ensures r.Some? ==> r.value == m[k]
  {
    if k in m then Some(m[k]) else None
  }

  /** `x ??= {}`: an absent or `null` container becomes an empty object. */
  function OrEmptyObject(v: Option<Json>): (r: Json)
    ensures !r.JNull?
    ensures v.Some? && !v.value.JNull? ==> r == v.value
    ensures (v.None? || v.value.JNull?) ==> r == JObject(map[])
  {
    if v.None? || v.value.JNull? then JObject(map[]) else v.value
  }

  /** Writing a property of `v` does not throw. */
  predicate Assignable(v: Json) {
    v.JObject? || v.JArray?
  }

  /** The two release scripts written into the `scripts` container. A named
      property of an array is not serialised, so an array comes out as it
      went in. */
  function AddReleaseScripts(c: Json): (r: Result<Json, PatchError>)
    ensures r.Err? <==> !Assignable(c)
    ensures r.Ok? && c.JArray? ==> r.value == c
    ensures r.Ok? && c.JObject? ==> (
      && r.value.JObject?
      && r.value.fields.Keys == c.fields.Keys + ReleaseScripts
      && r.value.fields[ChangesetScript] == JString(ChangesetCommand)
      && r.value.fields[ReleaseScript] == JString(ReleaseCommand)
      && (forall k :: k in c.fields && k !in ReleaseScripts ==> r.value.fields[k] == c.fields[k]))
  {
    match c
    case JObject(f) =>
      Ok(JObject(f[ChangesetScript := JString(ChangesetCommand)][ReleaseScript := JString(ReleaseCommand)]))
    case JArray(_) => Ok(c)
    case _ => Err(TypeError(ScriptsKey))
  }

  /** `deps[CHANGESET_PACKAGE] = deps[CHANGESET_PACKAGE] ?? CHANGESET_VERSION`. */
  function AddChangesetDependency(c: Json): (r: Result<Json, PatchError>)
    ensures r.Err? <==> !Assignable(c)
    ensures r.Ok? && c.JArray? ==> r.value == c
    ensures r.Ok? && c.JObject? ==> (
      && r.value.JObject?
      && r.value.fields.Keys == c.fields.Keys + ChangesetDependency
      && r.value.fields[ChangesetPackage] ==
           (if ChangesetPackage in c.fields && !c.fields[ChangesetPackage].JNull?
            then c.fields[ChangesetPackage] else JString(ChangesetVersion))
      && (forall k :: k in c.fields && k != ChangesetPackage ==> r.value.fields[k] == c.fields[k]))
  {
    match c
    case JObject(f) =>
      var pinned := Lookup(f, ChangesetPackage);
      Ok(JObject(f[ChangesetPackage := if pinned.Some? && !pinned.value.JNull? then pinned.value
                                       else JString(ChangesetVersion)]))
    case JArray(_) => Ok(c)
    case _ => Err(TypeError(DevDependenciesKey))
  }

  /** `delete c[k]` for each `k` in `keys`; only an object has such keys. */
  function Without(c: Json, keys: set<string>): (r: Json)
    ensures r.JObject? <==> c.JObject?
    ensures c.JObject? ==> r.fields == c.fields - keys
    ensures !c.JObject? ==> r == c
  {
    if c.JObject? then JObject(c.fields - keys) else c
  }

  /** The Changesets-off clean-up of one container: a truthy container loses
      `keys` and is deleted when it then has no keys left. */
  function Prune(d: Descriptor, key: string, keys: set<string>): (r: Descriptor)
    ensures r.Keys <= d.Keys
    ensures forall k :: k in d && k != key ==> k in r && r[k] == d[k]
    ensures key in d && !Truthy(d[key]) ==> key in r && r[key] == d[key]
    ensures key in r ==> KeyCount(r[key]) > 0 || !Truthy(d[key])
    ensures key in r ==> r[key] == (if Truthy(d[key]) then Without(d[key], keys) else d[key])
  {
    if key in d && Truthy(d[key]) then
      var c := Without(d[key], keys);
      if KeyCount(c) == 0 then d - {key} else d[key := c]
    else d
  }

  /** The fields every run writes, whatever the Changesets choice. */
  function Basics(d: Descriptor, packageName: string, description: string): Descriptor {
    var named := d[NameKey := JString(packageName)];
    var described := if description != "" then named[DescriptionKey := JString(description)] else named;
    described[PrivateKey := JBool(true)] - {BinKey}
  }

  /** The Changesets-on branch: `scripts` and `devDependencies` are created
      when absent or `null`, then written. */
  function WithChangesets(base: Descriptor): Result<Descriptor, PatchError> {
    match AddReleaseScripts(OrEmptyObject(Lookup(base, ScriptsKey)))
    case Err(e) => Err(e)
    case Ok(scripts) =>
      var withScripts := base[ScriptsKey := scripts];
      match AddChangesetDependency(OrEmptyObject(Lookup(withScripts, DevDependenciesKey)))
      case Err(e) => Err(e)
      case Ok(deps) => Ok(withScripts[DevDependenciesKey := deps])
  }

  /** The Changesets-off branch. */
  function WithoutChangesets(base: Descriptor): Descriptor {
    Prune(Prune(base, ScriptsKey, ReleaseScripts), DevDependenciesKey, ChangesetDependency)
  }

  /** The descriptor `updatePackageJson` writes, or the error it throws, for
      the package name derived from the project name. */
  function Patched(d: Descriptor, packageName: string, description: string, includeChangesets: bool)
    : (r: Result<Descriptor, PatchError>)
    ensures !includeChangesets ==> r.Ok?
    ensures r.Err? ==> r.error.key in {ScriptsKey, DevDependenciesKey}
    ensures r.Ok? ==> NameKey in r.value && r.value[NameKey] == JString(packageName)
  {
    var base := Basics(d, packageName, description);
    if includeChangesets then WithChangesets(base) else Ok(WithoutChangesets(base))
  }

  /** `updatePackageJson`, one statement at a time on the parsed object. */
  method UpdatePackageJson(d: Descriptor, projectName: string, description: string, includeChangesets: bool)
    returns (r: Result<Descriptor, PatchError>)
    ensures r == Patched(d, PackageName.ToPackageName(projectName), description, includeChangesets)
    ensures r.Ok? ==> (NameKey in r.value && r.value[NameKey].JString?
      && PackageName.IsPackageName(r.value[NameKey].s))
  {
    var packageName := PackageName.ToPackageName(projectName);
    var pkg := d;
    pkg := pkg[NameKey := JString(packageName)];
    if description != "" {
      pkg := pkg[DescriptionKey := JString(description)];
    }
    pkg := pkg[PrivateKey := JBool(true)];
    pkg := pkg - {BinKey};
    if includeChangesets {
      r := SetUpChangesets(pkg);
    } else {
      pkg := TearDown(pkg, ScriptsKey, ReleaseScripts);
      pkg := TearDown(pkg, DevDependenciesKey, ChangesetDependency);
      r := Ok(pkg);
    }
    if r.Ok? {
      PatchedFields(d, packageName, description, includeChangesets);
    }
  }

  /** The `includeChangesets` branch of `updatePackageJson`. */
  method SetUpChangesets(pkg0: Descriptor) returns (r: Result<Descriptor, PatchError>)
    ensures r == WithChangesets(pkg0)
  {
    var pkg := pkg0;
    if ScriptsKey !in pkg || pkg[ScriptsKey].JNull? {
      pkg := pkg[ScriptsKey := JObject(map[])];
    }
    var scripts := pkg[ScriptsKey];
    if !Assignable(scripts) {
      return Err(TypeError(ScriptsKey));
    }
    if scripts.JObject? {
      pkg := pkg[ScriptsKey := JObject(scripts.fields[ChangesetScript := JString(ChangesetCommand)])];
      pkg := pkg[ScriptsKey := JObject(pkg[ScriptsKey].fields[ReleaseScript := JString(ReleaseCommand)])];
    }
    assert pkg == pkg0[ScriptsKey := AddReleaseScripts(OrEmptyObject(Lookup(pkg0, ScriptsKey))).value];
    ghost var withScripts := pkg;
    if DevDependenciesKey !in pkg || pkg[DevDependenciesKey].JNull? {
      pkg := pkg[DevDependenciesKey := JObject(map[])];
    }
    var deps := pkg[DevDependenciesKey];
    if !Assignable(deps) {
      return Err(TypeError(DevDependenciesKey));
    }
    if deps.JObject? {
      var pinned := if ChangesetPackage in deps.fields && !deps.fields[ChangesetPackage].JNull?
        then deps.fields[ChangesetPackage] else JString(ChangesetVersion);
      pkg := pkg[DevDependenciesKey := JObject(deps.fields[ChangesetPackage := pinned])];
    }
    assert pkg == withScripts[DevDependenciesKey :=
      AddChangesetDependency(OrEmptyObject(Lookup(withScripts, DevDependenciesKey))).value];
    return Ok(pkg);
  }

  /** One container of the Changesets-off branch: if truthy, its `keys` are
      deleted, then the container itself when no key is left. */
  method TearDown(pkg0: Descriptor, key: string, keys: set<string>) returns (pkg: Descriptor)
    ensures pkg == Prune(pkg0, key, keys)
  {
    pkg := pkg0;
    if key in pkg && Truthy(pkg[key]) {
      if pkg[key].JObject? {
        pkg := pkg[key := JObject(pkg[key].fields - keys)];
      } else {
        UpdateSelf(pkg0, key);
      }
      assert pkg == pkg0[key := Without(pkg0[key], keys)];
      if KeyCount(pkg[key]) == 0 {
        RemoveUpdated(pkg0, key, Without(pkg0[key], keys));
        pkg := pkg - {key};
      }
    }
  }

  lemma UpdateSelf(m: Descriptor, k: string)
    requires k in m
    ensures m[k := m[k]] == m
  {
  }

  lemma RemoveUpdated(m: Descriptor, k: string, v: Json)
    ensures m[k := v] - {k} == m - {k}
  {
  }

  lemma KeysApart()
    ensures ScriptsKey != NameKey && ScriptsKey != DescriptionKey && ScriptsKey != PrivateKey && ScriptsKey != BinKey
    ensures DevDependenciesKey != NameKey && DevDependenciesKey != DescriptionKey
    ensures DevDependenciesKey != PrivateKey && DevDependenciesKey != BinKey
    ensures DevDependenciesKey != ScriptsKey
    ensures NameKey != DescriptionKey && NameKey != PrivateKey && NameKey != BinKey
    ensures DescriptionKey != PrivateKey && DescriptionKey != BinKey && PrivateKey != BinKey
    ensures ChangesetScript != ReleaseScript
  {
    assert ScriptsKey[0] != PrivateKey[0];
    assert DescriptionKey[2] != DevDependenciesKey[2];
  }

  /** The container `key` of `d` as the Changesets-on branch sees it. */
  function Container(d: Descriptor, key: string): Json {
    OrEmptyObject(Lookup(d, key))
  }

  lemma BasicsKeepsContainers(d: Descriptor, packageName: string, description: string)
    ensures var base := Basics(d, packageName, description);
      && Lookup(base, ScriptsKey) == Lookup(d, ScriptsKey)
      && Lookup(base, DevDependenciesKey) == Lookup(d, DevDependenciesKey)
  {
    KeysApart();
  }

  lemma BasicsFields(d: Descriptor, packageName: string, description: string)
    ensures var base := Basics(d, packageName, description);
      && NameKey in base && base[NameKey] == JString(packageName)
      && PrivateKey in base && base[PrivateKey] == JBool(true)
      && BinKey !in base
      && (description != "" ==> DescriptionKey in base && base[DescriptionKey] == JString(description))
      && (description == "" ==> Lookup(base, DescriptionKey) == Lookup(d, DescriptionKey))
      && (forall k :: !Touched(k) ==> Lookup(base, k) == Lookup(d, k))
  {
    KeysApart();
  }

  /** Both branches touch only `scripts` and `devDependencies`. */
  lemma BranchesKeepOthers(base: Descriptor, includeChangesets: bool)
    requires includeChangesets ==> WithChangesets(base).Ok?
    ensures var r := if includeChangesets then WithChangesets(base).value else WithoutChangesets(base);
      forall k :: k != ScriptsKey && k != DevDependenciesKey ==> Lookup(r, k) == Lookup(base, k)
  {
  }

  /** Whatever the Changesets choice, a descriptor that is written has the
      package name derived from the project name, the description when one
      was given, `private: true`, no `bin`, and every other key untouched. */
  lemma PatchedFields(d: Descriptor, packageName: string, description: string, includeChangesets: bool)
    requires Patched(d, packageName, description, includeChangesets).Ok?
    ensures var r := Patched(d, packageName, description, includeChangesets).value;
      && NameKey in r && r[NameKey] == JString(packageName)
      && PrivateKey in r && r[PrivateKey] == JBool(true)
      && BinKey !in r
      && (description != "" ==> DescriptionKey in r && r[DescriptionKey] == JString(description))
      && (description == "" ==> Lookup(r, DescriptionKey) == Lookup(d, DescriptionKey))
      && (forall k :: !Touched(k) ==> Lookup(r, k) == Lookup(d, k))
  {
    var name := packageName;
    var base := Basics(d, name, description);
    BranchesKeepOthers(base, includeChangesets);
    var r := if includeChangesets then WithChangesets(base).value else WithoutChangesets(base);
    assert r == Patched(d, packageName, description, includeChangesets).value;
    BasicsFields(d, name, description);
    FieldsThroughBranches(d, base, r, JString(name), description);
  }

  lemma FieldsThroughBranches(d: Descriptor, base: Descriptor, r: Descriptor, name: Json, description: string)
    requires NameKey in base && base[NameKey] == name
    requires PrivateKey in base && base[PrivateKey] == JBool(true)
    requires BinKey !in base
    requires description != "" ==> DescriptionKey in base && base[DescriptionKey] == JString(description)
    requires description == "" ==> Lookup(base, DescriptionKey) == Lookup(d, DescriptionKey)
    requires forall k :: !Touched(k) ==> Lookup(base, k) == Lookup(d, k)
    requires forall k :: k != ScriptsKey && k != DevDependenciesKey ==> Lookup(r, k) == Lookup(base, k)
    ensures NameKey in r && r[NameKey] == name
    ensures PrivateKey in r && r[PrivateKey] == JBool(true)
    ensures BinKey !in r
    ensures description != "" ==> DescriptionKey in r && r[DescriptionKey] == JString(description)
    ensures description == "" ==> Lookup(r, DescriptionKey) == Lookup(d, DescriptionKey)
    ensures forall k :: !Touched(k) ==> Lookup(r, k) == Lookup(d, k)
  {
    KeysApart();
    assert Lookup(r, NameKey) == Lookup(base, NameKey);
    assert Lookup(r, PrivateKey) == Lookup(base, PrivateKey);
    assert Lookup(r, BinKey) == Lookup(base, BinKey);
    assert Lookup(r, DescriptionKey) == Lookup(base, DescriptionKey);
  }

  /** Only the Changesets-on branch throws, and it throws exactly when
      `scripts` or `devDependencies` is a primitive other than `null`;
      `scripts` is written first. */
  lemma PatchedFails(d: Descriptor, packageName: string, description: string, includeChangesets: bool)
    ensures Patched(d, packageName, description, includeChangesets).Err? <==>
      includeChangesets && (!Assignable(Container(d, ScriptsKey)) || !Assignable(Container(d, DevDependenciesKey)))
    ensures includeChangesets && !Assignable(Container(d, ScriptsKey)) ==>
      Patched(d, packageName, description, includeChangesets) == Err(TypeError(ScriptsKey))
    ensures includeChangesets && Assignable(Container(d, ScriptsKey)) && !Assignable(Container(d, DevDependenciesKey)) ==>
      Patched(d, packageName, description, includeChangesets) == Err(TypeError(DevDependenciesKey))
  {
    KeysApart();
    BasicsKeepsContainers(d, packageName, description);
  }

  /** With Changesets, both containers exist afterwards. An object `scripts`
      holds the two release scripts besides its earlier entries; an object
      `devDependencies` pins the Changesets CLI, keeping a version already
      there. Arrays come out unchanged. */
  lemma ChangesetsOn(d: Descriptor, packageName: string, description: string)
    requires Patched(d, packageName, description, true).Ok?
    ensures var r := Patched(d, packageName, description, true).value;
      var scripts := Container(d, ScriptsKey);
      var deps := Container(d, DevDependenciesKey);
      && ScriptsKey in r && DevDependenciesKey in r
      && (scripts.JArray? ==> r[ScriptsKey] == scripts)
      && (scripts.JObject? ==> (
            && r[ScriptsKey].JObject?
            && r[ScriptsKey].fields.Keys == scripts.fields.Keys + ReleaseScripts
            && r[ScriptsKey].fields[ChangesetScript] == JString(ChangesetCommand)
            && r[ScriptsKey].fields[ReleaseScript] == JString(ReleaseCommand)))
      && (deps.JArray? ==> r[DevDependenciesKey] == deps)
      && (deps.JObject? ==> (
            && r[DevDependenciesKey].JObject?
            && r[DevDependenciesKey].fields.Keys == deps.fields.Keys + ChangesetDependency
            && r[DevDependenciesKey].fields[ChangesetPackage] ==
                 (if ChangesetPackage in deps.fields && !deps.fields[ChangesetPackage].JNull?
                  then deps.fields[ChangesetPackage] else JString(ChangesetVersion))))
  {
    KeysApart();
    BasicsKeepsContainers(d, packageName, description);
    var base := Basics(d, packageName, description);
    var withScripts := base[ScriptsKey := AddReleaseScripts(Container(base, ScriptsKey)).value];
    assert Lookup(withScripts, DevDependenciesKey) == Lookup(d, DevDependenciesKey);
  }

  /** What `Prune` leaves of one container. */
  lemma PruneOutcome(d: Descriptor, key: string, keys: set<string>)
    ensures var r := Prune(d, key, keys);
      && (key in r ==> key in d)
      && (key in r && r[key].JObject? ==> r[key].fields.Keys !! keys && |r[key].fields| > 0)
      && (key in d && !Truthy(d[key]) ==> key in r && r[key] == d[key])
      && (key in d && d[key].JObject? && d[key].fields - keys != map[] ==>
            key in r && r[key] == JObject(d[key].fields - keys))
  {
    var r := Prune(d, key, keys);
    if key in d && d[key].JObject? && d[key].fields - keys != map[] {
      assert |d[key].fields - keys| > 0;
    }
  }

  /** Without Changesets nothing throws; no object container keeps a managed
      entry or is left empty; a container that was falsy is untouched; an
      object keeps its other entries. */
  lemma ChangesetsOff(d: Descriptor, packageName: string, description: string)
    ensures Patched(d, packageName, description, false).Ok?
    ensures var r := Patched(d, packageName, description, false).value;
      && (ScriptsKey in r ==> ScriptsKey in d)
      && (DevDependenciesKey in r ==> DevDependenciesKey in d)
      && (ScriptsKey in r && r[ScriptsKey].JObject? ==>
            r[ScriptsKey].fields.Keys !! ReleaseScripts && |r[ScriptsKey].fields| > 0)
      && (DevDependenciesKey in r && r[DevDependenciesKey].JObject? ==>
            ChangesetPackage !in r[DevDependenciesKey].fields && |r[DevDependenciesKey].fields| > 0)
      && (ScriptsKey in d && !Truthy(d[ScriptsKey]) ==> ScriptsKey in r && r[ScriptsKey] == d[ScriptsKey])
      && (DevDependenciesKey in d && !Truthy(d[DevDependenciesKey]) ==>
            DevDependenciesKey in r && r[DevDependenciesKey] == d[DevDependenciesKey])
      && (ScriptsKey in d && d[ScriptsKey].JObject? && d[ScriptsKey].fields - ReleaseScripts != map[] ==>
            ScriptsKey in r && r[ScriptsKey] == JObject(d[ScriptsKey].fields - ReleaseScripts))
      && (DevDependenciesKey in d && d[DevDependenciesKey].JObject?
          && d[DevDependenciesKey].fields - ChangesetDependency != map[] ==>
            DevDependenciesKey in r && r[DevDependenciesKey] == JObject(d[DevDependenciesKey].fields - ChangesetDependency))
  {
    KeysApart();
    BasicsKeepsContainers(d, packageName, description);
    var base := Basics(d, packageName, description);
    var p1 := Prune(base, ScriptsKey, ReleaseScripts);
    PruneOutcome(base, ScriptsKey, ReleaseScripts);
    PruneOutcome(p1, DevDependenciesKey, ChangesetDependency);
    assert Lookup(base, ScriptsKey) == Lookup(d, ScriptsKey);
    assert Lookup(p1, DevDependenciesKey) == Lookup(d, DevDependenciesKey);
  }

  /** Two descriptors that agree on every key are equal. */
  lemma LookupExtensional(a: Descriptor, b: Descriptor)
    requires forall k :: Lookup(a, k) == Lookup(b, k)
    ensures a == b
  {
    forall k | k in a ensures k in b && a[k] == b[k] {
      assert Lookup(a, k) == Lookup(b, k);
    }
    forall k | k in b ensures k in a {
      assert Lookup(a, k) == Lookup(b, k);
    }
  }

  /** What `Prune` leaves under `key`: nothing, the container with `keys`
      deleted, or the container as it was. */
  function PrunedEntry(v: Option<Json>, keys: set<string>): Option<Json> {
    if v.Some? && Truthy(v.value) then
      var c := Without(v.value, keys);
      if KeyCount(c) == 0 then None else Some(c)
    else v
  }

  lemma PruneLookup(d: Descriptor, key: string, keys: set<string>)
    ensures Lookup(Prune(d, key, keys), key) == PrunedEntry(Lookup(d, key), keys)
    ensures forall k :: k != key ==> Lookup(Prune(d, key, keys), k) == Lookup(d, k)
  {
  }

  lemma PrunedEntryIdempotent(v: Option<Json>, keys: set<string>)
    ensures PrunedEntry(PrunedEntry(v, keys), keys) == PrunedEntry(v, keys)
  {
    var w := PrunedEntry(v, keys);
    if v.Some? && Truthy(v.value) && w.Some? {
      assert Truthy(w.value);
      if w.value.JObject? {
        assert w.value.fields - keys == w.value.fields;
      }
    }
  }

  /** A descriptor already carrying the basic fields is left as it is. */
  lemma BasicsFixed(r: Descriptor, packageName: string, description: string)
    requires Lookup(r, NameKey) == Some(JString(packageName))
    requires Lookup(r, PrivateKey) == Some(JBool(true))
    requires BinKey !in r
    requires description != "" ==> Lookup(r, DescriptionKey) == Some(JString(description))
    ensures Basics(r, packageName, description) == r
  {
    BasicsFields(r, packageName, description);
    BasicsKeepsContainers(r, packageName, description);
    var b := Basics(r, packageName, description);
    forall k ensures Lookup(b, k) == Lookup(r, k) {
      if k == NameKey || k == PrivateKey || k == BinKey || k == DescriptionKey {
      } else if k == ScriptsKey || k == DevDependenciesKey {
      } else {
        assert !Touched(k);
      }
    }
    LookupExtensional(b, r);
  }

  lemma AddReleaseScriptsIdempotent(c: Json)
    requires Assignable(c)
    ensures AddReleaseScripts(AddReleaseScripts(c).value) == AddReleaseScripts(c)
  {
    if c.JObject? {
      var f := AddReleaseScripts(c).value.fields;
      assert f[ChangesetScript := JString(ChangesetCommand)][ReleaseScript := JString(ReleaseCommand)] == f;
    }
  }

  lemma AddChangesetDependencyIdempotent(c: Json)
    requires Assignable(c)
    ensures AddChangesetDependency(AddChangesetDependency(c).value) == AddChangesetDependency(c)
  {
    if c.JObject? {
      var f := AddChangesetDependency(c).value.fields;
      assert f[ChangesetPackage := f[ChangesetPackage]] == f;
    }
  }

  /** Running the Changesets-on branch a second time changes nothing. */
  lemma WithChangesetsIdempotent(base: Descriptor)
    requires WithChangesets(base).Ok?
    ensures WithChangesets(WithChangesets(base).value) == WithChangesets(base)
  {
    KeysApart();
    var scripts := AddReleaseScripts(Container(base, ScriptsKey)).value;
    var withScripts := base[ScriptsKey := scripts];
    var deps := AddChangesetDependency(Container(withScripts, DevDependenciesKey)).value;
    var r := withScripts[DevDependenciesKey := deps];
    assert Container(r, ScriptsKey) == scripts;
    AddReleaseScriptsIdempotent(Container(base, ScriptsKey));
    assert r[ScriptsKey := scripts] == r;
    assert Container(r, DevDependenciesKey) == deps;
    AddChangesetDependencyIdempotent(Container(withScripts, DevDependenciesKey));
    assert r[DevDependenciesKey := deps] == r;
  }

  /** Running the Changesets-off branch a second time changes nothing. */
  lemma WithoutChangesetsIdempotent(base: Descriptor)
    ensures WithoutChangesets(WithoutChangesets(base)) == WithoutChangesets(base)
  {
    KeysApart();
    var p1 := Prune(base, ScriptsKey, ReleaseScripts);
    var r := Prune(p1, DevDependenciesKey, ChangesetDependency);
    var q1 := Prune(r, ScriptsKey, ReleaseScripts);
    var q := Prune(q1, DevDependenciesKey, ChangesetDependency);
    PruneLookup(base, ScriptsKey, ReleaseScripts);
    PruneLookup(p1, DevDependenciesKey, ChangesetDependency);
    PruneLookup(r, ScriptsKey, ReleaseScripts);
    PruneLookup(q1, DevDependenciesKey, ChangesetDependency);
    PrunedEntryIdempotent(Lookup(base, ScriptsKey), ReleaseScripts);
    PrunedEntryIdempotent(Lookup(p1, DevDependenciesKey), ChangesetDependency);
    forall k ensures Lookup(q, k) == Lookup(r, k) {
      if k == ScriptsKey {
        assert Lookup(q, k) == Lookup(q1, k);
      } else if k == DevDependenciesKey {
        assert Lookup(q1, k) == Lookup(r, k);
      }
    }
    LookupExtensional(q, r);
  }

  /** Patching a descriptor that was already patched with the same answers
      gives the same descriptor again. */
  lemma PatchedIdempotent(d: Descriptor, packageName: string, description: string, includeChangesets: bool)
    requires Patched(d, packageName, description, includeChangesets).Ok?
    ensures var r := Patched(d, packageName, description, includeChangesets).value;
      Patched(r, packageName, description, includeChangesets) == Ok(r)
  {
    var r := Patched(d, packageName, description, includeChangesets).value;
    PatchedFields(d, packageName, description, includeChangesets);
    BasicsFixed(r, packageName, description);
    var base := Basics(d, packageName, description);
    if includeChangesets {
      WithChangesetsIdempotent(base);
    } else {
      WithoutChangesetsIdempotent(base);
    }
  }

  /** Two objects that agree off `keys` agree once `keys` are deleted. */
  lemma DropAgrees(f: map<string, Json>, g: map<string, Json>, keys: set<string>)
    requires forall k :: k in g && k !in keys ==> k in f && f[k] == g[k]
    requires forall k :: k in f && k !in keys ==> k in g
    ensures f - keys == g - keys
  {
    assert (f - keys).Keys == (g - keys).Keys;
  }

  lemma ScriptsOnThenOff(v: Option<Json>)
    requires v != Some(JNull) && Assignable(OrEmptyObject(v))
    ensures PrunedEntry(Some(AddReleaseScripts(OrEmptyObject(v)).value), ReleaseScripts)
         == PrunedEntry(v, ReleaseScripts)
  {
    var c := OrEmptyObject(v);
    if c.JObject? {
      var f := AddReleaseScripts(c).value.fields;
      DropAgrees(f, c.fields, ReleaseScripts);
      if v.None? {
        assert f - ReleaseScripts == map[];
      }
    }
  }

  lemma DependencyOnThenOff(v: Option<Json>)
    requires v != Some(JNull) && Assignable(OrEmptyObject(v))
    ensures PrunedEntry(Some(AddChangesetDependency(OrEmptyObject(v)).value), ChangesetDependency)
         == PrunedEntry(v, ChangesetDependency)
  {
    var c := OrEmptyObject(v);
    if c.JObject? {
      var f := AddChangesetDependency(c).value.fields;
      DropAgrees(f, c.fields, ChangesetDependency);
      if v.None? {
        assert f - ChangesetDependency == map[];
      }
    }
  }

  /** Turning Changesets off after turning them on leaves what turning them
      off alone would, unless a container was `null` (the first run replaces
      it by an object, the second then deletes it). */
  lemma OnThenOff(d: Descriptor, packageName: string, description: string)
    requires Patched(d, packageName, description, true).Ok?
    requires Lookup(d, ScriptsKey) != Some(JNull) && Lookup(d, DevDependenciesKey) != Some(JNull)
    ensures Patched(Patched(d, packageName, description, true).value, packageName, description, false)
         == Patched(d, packageName, description, false)
  {
    var base := Basics(d, packageName, description);
    var r1 := Patched(d, packageName, description, true).value;
    PatchedFields(d, packageName, description, true);
    BasicsFixed(r1, packageName, description);
    BasicsKeepsContainers(d, packageName, description);
    assert r1 == WithChangesets(base).value;
    OnThenOffBase(base);
  }

  /** `OnThenOff` on the descriptor after the common fields are written. */
  lemma OnThenOffBase(base: Descriptor)
    requires WithChangesets(base).Ok?
    requires Lookup(base, ScriptsKey) != Some(JNull) && Lookup(base, DevDependenciesKey) != Some(JNull)
    ensures WithoutChangesets(WithChangesets(base).value) == WithoutChangesets(base)
  {
    WithChangesetsLookups(base);
    ScriptsOnThenOff(Lookup(base, ScriptsKey));
    DependencyOnThenOff(Lookup(base, DevDependenciesKey));
    OffAgrees(WithChangesets(base).value, base);
  }

  /** What the Changesets-on branch leaves under each key. */
  lemma WithChangesetsLookups(base: Descriptor)
    requires WithChangesets(base).Ok?
    ensures var r := WithChangesets(base).value;
      && Assignable(Container(base, ScriptsKey))
      && Assignable(Container(base, DevDependenciesKey))
      && Lookup(r, ScriptsKey) == Some(AddReleaseScripts(Container(base, ScriptsKey)).value)
      && Lookup(r, DevDependenciesKey) == Some(AddChangesetDependency(Container(base, DevDependenciesKey)).value)
      && (forall k :: k != ScriptsKey && k != DevDependenciesKey ==> Lookup(r, k) == Lookup(base, k))
  {
    KeysApart();
    var withScripts := base[ScriptsKey := AddReleaseScripts(Container(base, ScriptsKey)).value];
    assert Lookup(withScripts, DevDependenciesKey) == Lookup(base, DevDependenciesKey);
  }

  /** The Changesets-off branch depends on each container only through what
      it leaves of it. */
  lemma OffAgrees(a: Descriptor, b: Descriptor)
    requires forall k :: k != ScriptsKey && k != DevDependenciesKey ==> Lookup(a, k) == Lookup(b, k)
    requires PrunedEntry(Lookup(a, ScriptsKey), ReleaseScripts) == PrunedEntry(Lookup(b, ScriptsKey), ReleaseScripts)
    requires PrunedEntry(Lookup(a, DevDependenciesKey), ChangesetDependency)
          == PrunedEntry(Lookup(b, DevDependenciesKey), ChangesetDependency)
    ensures WithoutChangesets(a) == WithoutChangesets(b)
  {
    KeysApart();
    var a1 := Prune(a, ScriptsKey, ReleaseScripts);
    var b1 := Prune(b, ScriptsKey, ReleaseScripts);
    PruneLookup(a, ScriptsKey, ReleaseScripts);
    PruneLookup(b, ScriptsKey, ReleaseScripts);
    PruneLookup(a1, DevDependenciesKey, ChangesetDependency);
    PruneLookup(b1, DevDependenciesKey, ChangesetDependency);
    var wa := WithoutChangesets(a);
    var wb := WithoutChangesets(b);
    forall k ensures Lookup(wa, k) == Lookup(wb, k) {
      if k == ScriptsKey {
        assert Lookup(wa, k) == Lookup(a1, k);
      } else if k == DevDependenciesKey {
      } else {
        assert Lookup(wa, k) == Lookup(a1, k);
      }
    }
    LookupExtensional(wa, wb);
  }
}
