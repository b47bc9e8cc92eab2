/**
 * `OpenAPISchemaBase.from_json`: turns an object fetched from Kubernetes into
 * an instance of the resource class. The object must carry the class's own
 * `apiVersion` (`<group>/<version>`) and `kind` (the class name); its metadata
 * keys are renamed from wire keys to `V1ObjectMeta` attribute names through
 * `ObjectMeta_attribute_map`, and its `spec` is handed to the class unchanged.
 */
module ObjectDecoder {
  import opened Wrappers
  import opened Json
  import opened Resource
  import opened ObjectMeta

  /** The exceptions `from_json` can raise, named after their cause. */
  datatype DecodeError =
    | NotAnObject         // `json_data.get` on a value that is not a dict
    | ApiVersionMismatch  // the first assertion
    | KindMismatch        // the second assertion
    | MetadataNotObject   // `.items()` on a missing or non-dict `metadata`
    | KeywordTypeError    // `V1ObjectMeta(**inputs)` with a `None` key: keywords must be strings
    | SpecNotObject       // `cls(**spec)` on a missing or non-dict `spec`

  /** An instance: the spec fields handed to the class and the metadata attributes. */
  datatype Instance = Instance(spec: Members, metadata: map<string, Json>)

  /** The `apiVersion` objects of this class carry. */
  function ApiVersion(rt: ResourceType): (s: string)
    ensures |s| == |rt.group| + 1 + |rt.version|
    ensures s[..|rt.group|] == rt.group && s[|rt.group|] == '/' && s[|rt.group| + 1..] == rt.version
  {
    rt.group + "/" + rt.version
  }

  /** `ObjectMeta_attribute_map.get(key)`. */
  function Lookup(inv: map<string, string>, key: string): (r: Option<string>)
    ensures r.Some? <==> key in inv
    ensures r.Some? ==> r.value == inv[key]
  {
    if key in inv then Some(inv[key]) else None
  }

  /** The `inputs` dict once the loop has stored every item of `ms`, later items overwriting earlier ones. */
  function Inputs(ms: Members, inv: map<string, string>): map<Option<string>, Json> {
    if ms == [] then map[]
    else Inputs(ms[..|ms| - 1], inv)[Lookup(inv, ms[|ms| - 1].0) := ms[|ms| - 1].1]
  }

  /** `V1ObjectMeta(**inputs)`: every key must be an attribute name, so a `None` key fails. */
  function MetaFromInputs(inputs: map<Option<string>, Json>): (r: Result<map<string, Json>, DecodeError>)
    ensures r.Failure? <==> None in inputs
    ensures r.Success? ==> forall a :: a in r.value <==> Some(a) in inputs
    ensures r.Success? ==> forall a :: a in r.value ==> r.value[a] == inputs[Some(a)]
  {
    if None in inputs then Failure(KeywordTypeError)
    else Success(map o | o in inputs && o.Some? :: o.value := inputs[o])
  }

  /** The members of the `metadata` dict, when there is one. */
  function MetadataMembers(data: Json): Option<Members> {
    match Field(data, "metadata")
    case Some(JObj(ms)) => Some(ms)
    case _ => None
  }

  /** What `from_json(data)` returns or raises, given the inverted attribute table. */
  function Decode(rt: ResourceType, data: Json, inv: map<string, string>): (r: Result<Instance, DecodeError>)
    ensures r.Success? ==> Field(data, "apiVersion") == Some(JStr(ApiVersion(rt)))
    ensures r.Success? ==> Field(data, "kind") == Some(JStr(rt.name))
    ensures r.Success? ==> Field(data, "spec") == Some(JObj(r.value.spec))
  {
    if !data.JObj? then Failure(NotAnObject)
    else if Field(data, "apiVersion") != Some(JStr(ApiVersion(rt))) then Failure(ApiVersionMismatch)
    else if Field(data, "kind") != Some(JStr(rt.name)) then Failure(KindMismatch)
    else match MetadataMembers(data)
      case None => Failure(MetadataNotObject)
      case Some(ms) =>
        match MetaFromInputs(Inputs(ms, inv))
        case Failure(e) => Failure(e)
        case Success(meta) =>
          match Field(data, "spec")
          case Some(JObj(spec)) => Success(Instance(spec, meta))
          case _ => Failure(SpecNotObject)
  }

  /** The keys of `inputs` are what the lookups of the item keys returned. */
  lemma {:induction false} InputsKeys(ms: Members, inv: map<string, string>)
    ensures Inputs(ms, inv).Keys == set i | 0 <= i < |ms| :: Lookup(inv, ms[i].0)
  {
    if ms != [] {
      var front := ms[..|ms| - 1];
      InputsKeys(front, inv);
      assert forall i :: 0 <= i < |front| ==> front[i] == ms[i];
    }
  }

  /**
   * Without repeated wire keys and with an injective inverted table, a known
   * wire key's value ends up under its attribute name, whatever comes after it.
   */
  lemma {:induction false} InputsAt(ms: Members, inv: map<string, string>, i: nat)
    requires DistinctKeys(ms)
    requires Injective(inv)
    requires i < |ms| && ms[i].0 in inv
    ensures Some(inv[ms[i].0]) in Inputs(ms, inv) && Inputs(ms, inv)[Some(inv[ms[i].0])] == ms[i].1
  {
    InputsKeys(ms, inv);
    var front := ms[..|ms| - 1];
    if i < |ms| - 1 {
      assert ms[|ms| - 1].0 != ms[i].0;
      assert front[i] == ms[i];
      InputsAt(front, inv, i);
    }
  }

  /**
   * `from_json` returns an instance exactly when the object is a dict with the
   * class's `apiVersion` and `kind`, a dict `metadata` all of whose keys are
   * known wire keys, and a dict `spec`; otherwise it raises.
   */
  lemma DecodeSucceedsIff(rt: ResourceType, data: Json, inv: map<string, string>)
    ensures Decode(rt, data, inv).Success? <==>
      && Field(data, "apiVersion") == Some(JStr(ApiVersion(rt)))
      && Field(data, "kind") == Some(JStr(rt.name))
      && MetadataMembers(data).Some?
      && (forall i :: 0 <= i < |MetadataMembers(data).value| ==> MetadataMembers(data).value[i].0 in inv)
      && Field(data, "spec").Some? && Field(data, "spec").value.JObj?
  {
    if MetadataMembers(data).Some? {
      var ms := MetadataMembers(data).value;
      InputsKeys(ms, inv);
      if exists i :: 0 <= i < |ms| && ms[i].0 !in inv {
        var i :| 0 <= i < |ms| && ms[i].0 !in inv;
        assert Lookup(inv, ms[i].0) == None;
      }
    }
  }

  /** On success, the instance's metadata is what `V1ObjectMeta(**inputs)` made of the metadata items. */
  lemma DecodedMetadata(rt: ResourceType, data: Json, inv: map<string, string>)
    requires Decode(rt, data, inv).Success?
    ensures MetadataMembers(data).Some?
    ensures MetaFromInputs(Inputs(MetadataMembers(data).value, inv)) == Success(Decode(rt, data, inv).value.metadata)
  {
  }

  /**
   * Once every wire key is known, each metadata value is stored under the
   * attribute its wire key names in the inverted table, and every attribute
   * comes from such a key.
   */
  lemma MetadataRenamed(t: AttributeTable, ms: Members)
    requires AttributesDistinct(t)
    requires DistinctKeys(ms)
    ensures MetaFromInputs(Inputs(ms, Invert(t))).Success? ==>
      var meta := MetaFromInputs(Inputs(ms, Invert(t))).value;
      && (forall i :: 0 <= i < |ms| ==>
            ms[i].0 in Invert(t) && Invert(t)[ms[i].0] in meta && meta[Invert(t)[ms[i].0]] == ms[i].1)
      && (forall a :: a in meta ==> exists i :: 0 <= i < |ms| && ms[i].0 in Invert(t) && Invert(t)[ms[i].0] == a)
  {
    var inv := Invert(t);
    var inputs := Inputs(ms, inv);
    if MetaFromInputs(inputs).Failure? {
      return;
    }
    var meta := MetaFromInputs(inputs).value;
    InvertIsInjective(t);
    InputsKeys(ms, inv);
    forall i | 0 <= i < |ms|
      ensures ms[i].0 in inv && inv[ms[i].0] in meta && meta[inv[ms[i].0]] == ms[i].1
    {
      assert Lookup(inv, ms[i].0) in inputs;
      InputsAt(ms, inv, i);
    }
    forall a | a in meta
      ensures exists i :: 0 <= i < |ms| && ms[i].0 in inv && inv[ms[i].0] == a
    {
      assert Some(a) in inputs;
      var i :| 0 <= i < |ms| && Lookup(inv, ms[i].0) == Some(a);
    }
  }

  /**
   * On success, each metadata value is stored under the attribute its wire key
   * names in the inverted table, and every attribute comes from such a key.
   */
  lemma DecodeRenamesMetadata(t: AttributeTable, rt: ResourceType, data: Json)
    requires AttributesDistinct(t)
    requires MetadataMembers(data).Some? ==> DistinctKeys(MetadataMembers(data).value)
    ensures Decode(rt, data, Invert(t)).Success? ==>
      && MetadataMembers(data).Some?
      && var ms, meta := MetadataMembers(data).value, Decode(rt, data, Invert(t)).value.metadata;
      && (forall i :: 0 <= i < |ms| ==>
            ms[i].0 in Invert(t) && Invert(t)[ms[i].0] in meta && meta[Invert(t)[ms[i].0]] == ms[i].1)
      && (forall a :: a in meta ==> exists i :: 0 <= i < |ms| && ms[i].0 in Invert(t) && Invert(t)[ms[i].0] == a)
  {
    if Decode(rt, data, Invert(t)).Success? {
      DecodedMetadata(rt, data, Invert(t));
      MetadataRenamed(t, MetadataMembers(data).value);
    }
  }

  /**
   * Re-keying the metadata built from known wire keys with the client's
   * attribute table gives back the wire metadata exactly.
   */
  lemma MetadataRoundTrip(t: AttributeTable, ms: Members)
    requires AttributesDistinct(t)
    requires DistinctKeys(ms)
    ensures MetaFromInputs(Inputs(ms, Invert(t))).Success? ==>
      var meta := MetaFromInputs(Inputs(ms, Invert(t))).value;
      && meta.Keys <= Forward(t).Keys
      && InjectiveOn(meta, Forward(t))
      && RenameKeys(meta, Forward(t)) == ToMap(ms)
  {
    var inv := Invert(t);
    if MetaFromInputs(Inputs(ms, inv)).Failure? {
      return;
    }
    var meta := MetaFromInputs(Inputs(ms, inv)).value;
    MetadataRenamed(t, ms);
    forall a | a in meta
      ensures a in Forward(t)
    {
      var i :| 0 <= i < |ms| && ms[i].0 in inv && inv[ms[i].0] == a;
      ForwardAfterInvert(t, ms[i].0);
    }
    assert InjectiveOn(meta, Forward(t)) by {
      forall a1, a2 | a1 in meta && a2 in meta && Forward(t)[a1] == Forward(t)[a2]
        ensures a1 == a2
      {
        var i1 :| 0 <= i1 < |ms| && ms[i1].0 in inv && inv[ms[i1].0] == a1;
        var i2 :| 0 <= i2 < |ms| && ms[i2].0 in inv && inv[ms[i2].0] == a2;
        ForwardAfterInvert(t, ms[i1].0);
        ForwardAfterInvert(t, ms[i2].0);
      }
    }
    forall i | 0 <= i < |ms|
      ensures Forward(t)[inv[ms[i].0]] == ms[i].0
    {
      ForwardAfterInvert(t, ms[i].0);
    }
    RenameBack(meta, Forward(t), inv, ms);
  }

  /** Renaming back through `fwd` undoes the renaming through `inv` that built `meta` from `ms`. */
  lemma RenameBack(meta: map<string, Json>, fwd: map<string, string>, inv: map<string, string>, ms: Members)
    requires DistinctKeys(ms)
    requires meta.Keys <= fwd.Keys && InjectiveOn(meta, fwd)
    requires forall i :: 0 <= i < |ms| ==>
      ms[i].0 in inv && inv[ms[i].0] in meta && meta[inv[ms[i].0]] == ms[i].1 && fwd[inv[ms[i].0]] == ms[i].0
    requires forall a :: a in meta ==> exists i :: 0 <= i < |ms| && ms[i].0 in inv && inv[ms[i].0] == a
    ensures RenameKeys(meta, fwd) == ToMap(ms)
  {
    var back := RenameKeys(meta, fwd);
    var wire := ToMap(ms);
    RenameBackKeys(meta, fwd, inv, ms);
    forall w | w in back
      ensures back[w] == wire[w]
    {
      assert w in KeySet(ms);
      var i :| 0 <= i < |ms| && ms[i].0 == w;
      RenameBackAt(meta, fwd, inv, ms, i);
    }
  }

  /** The value half of `RenameBack`: each wire key gets back its own value. */
  lemma RenameBackAt(meta: map<string, Json>, fwd: map<string, string>, inv: map<string, string>, ms: Members, i: nat)
    requires DistinctKeys(ms)
    requires meta.Keys <= fwd.Keys && InjectiveOn(meta, fwd)
    requires forall i :: 0 <= i < |ms| ==>
      ms[i].0 in inv && inv[ms[i].0] in meta && meta[inv[ms[i].0]] == ms[i].1 && fwd[inv[ms[i].0]] == ms[i].0
    requires i < |ms|
    ensures ms[i].0 in RenameKeys(meta, fwd) && RenameKeys(meta, fwd)[ms[i].0] == ToMap(ms)[ms[i].0]
  {
    var a := inv[ms[i].0];
    assert RenameKeys(meta, fwd)[fwd[a]] == meta[a];
  }

  /** The key half of `RenameBack`: renaming back yields exactly the wire keys of `ms`. */
  lemma RenameBackKeys(meta: map<string, Json>, fwd: map<string, string>, inv: map<string, string>, ms: Members)
    requires DistinctKeys(ms)
    requires meta.Keys <= fwd.Keys && InjectiveOn(meta, fwd)
    requires forall i :: 0 <= i < |ms| ==>
      ms[i].0 in inv && inv[ms[i].0] in meta && meta[inv[ms[i].0]] == ms[i].1 && fwd[inv[ms[i].0]] == ms[i].0
    requires forall a :: a in meta ==> exists i :: 0 <= i < |ms| && ms[i].0 in inv && inv[ms[i].0] == a
    ensures RenameKeys(meta, fwd).Keys == ToMap(ms).Keys
  {
    var back := RenameKeys(meta, fwd);
    forall w | w in back
      ensures w in KeySet(ms)
    {
      var a :| a in meta && fwd[a] == w;
      var i :| 0 <= i < |ms| && ms[i].0 in inv && inv[ms[i].0] == a;
    }
  }

  /**
   * Re-keying the decoded metadata with the client's attribute table gives back
   * the wire metadata exactly: the same keys, each with its value unchanged.
   */
  lemma DecodeRoundTrip(t: AttributeTable, rt: ResourceType, data: Json)
    requires AttributesDistinct(t)
    requires MetadataMembers(data).Some? ==> DistinctKeys(MetadataMembers(data).value)
    ensures Decode(rt, data, Invert(t)).Success? ==>
      var meta := Decode(rt, data, Invert(t)).value.metadata;
      && MetadataMembers(data).Some?
      && meta.Keys <= Forward(t).Keys
      && InjectiveOn(meta, Forward(t))
      && RenameKeys(meta, Forward(t)) == ToMap(MetadataMembers(data).value)
  {
    if Decode(rt, data, Invert(t)).Success? {
      DecodedMetadata(rt, data, Invert(t));
      MetadataRoundTrip(t, MetadataMembers(data).value);
    }
  }

  /** The loop of `from_json`: stores each metadata value under the attribute its wire key names, or under `None`. */
  method CollectInputs(items: Members, inv: map<string, string>) returns (inputs: map<Option<string>, Json>)
    ensures inputs == Inputs(items, inv)
  {
    inputs := map[];
    var i := 0;
    while i < |items|
      invariant 0 <= i <= |items|
      invariant inputs == Inputs(items[..i], inv)
    {
      var key := if items[i].0 in inv then Some(inv[items[i].0]) else None;
      inputs := inputs[key := items[i].1];
      i := i + 1;
      assert items[..i][..i - 1] == items[..i - 1];
    }
    assert items[..i] == items;
  }

  /** `from_json`: the two assertions, the metadata loop, then the metadata and the instance. */
  method FromJson(rt: ResourceType, data: Json, inv: map<string, string>) returns (r: Result<Instance, DecodeError>)
    ensures r == Decode(rt, data, inv)
  {
    if !data.JObj? {
      return Failure(NotAnObject);
    }
    if Get(data.members, "apiVersion") != Some(JStr(rt.group + "/" + rt.version)) {
      return Failure(ApiVersionMismatch);
    }
    if Get(data.members, "kind") != Some(JStr(rt.name)) {
      return Failure(KindMismatch);
    }
    var metadata := Get(data.members, "metadata");
    if !(metadata.Some? && metadata.value.JObj?) {
      return Failure(MetadataNotObject);
    }
    var inputs := CollectInputs(metadata.value.members, inv);
    var meta := MetaFromInputs(inputs);
    if meta.Failure? {
      return Failure(meta.error);
    }
    var spec := Get(data.members, "spec");
    if !(spec.Some? && spec.value.JObj?) {
      return Failure(SpecNotObject);
    }
    r := Success(Instance(spec.value.members, meta.value));
  }

  /** An object of the class `Resource` in group `example.com`, version `v1alpha1`, as the cluster returns it. */
  function ExampleObject(kind: string, metadata: Members): Json {
    JObj([
      ("apiVersion", JStr("example.com/v1alpha1")),
      ("kind", JStr(kind)),
      ("metadata", JObj(metadata)),
      ("spec", JObj([("id", JStr("1")), ("name", JStr("foo"))]))])
  }

  /**
   * Wire metadata `{resourceVersion: "42", name: "foo"}` becomes the attributes
   * `{resource_version: "42", name: "foo"}`, whenever the inverted table sends
   * those two wire keys to those attributes.
   */
  lemma ResourceVersionExample(inv: map<string, string>)
    requires "resourceVersion" in inv && inv["resourceVersion"] == "resource_version"
    requires "name" in inv && inv["name"] == "name"
    ensures Decode(ResourceType("Resource", "example.com", "v1alpha1"),
                   ExampleObject("Resource", [("resourceVersion", JStr("42")), ("name", JStr("foo"))]),
                   inv)
         == Success(Instance([("id", JStr("1")), ("name", JStr("foo"))],
                             map["resource_version" := JStr("42"), "name" := JStr("foo")]))
  {
    var ms := [("resourceVersion", JStr("42")), ("name", JStr("foo"))];
    var data := ExampleObject("Resource", ms);
    assert ApiVersion(ResourceType("Resource", "example.com", "v1alpha1")) == "example.com/v1alpha1";
    GetMember(data.members, 0);
    GetMember(data.members, 1);
    GetMember(data.members, 2);
    GetMember(data.members, 3);
    assert MetadataMembers(data) == Some(ms);
    ResourceVersionMetadata(inv);
  }

  /** The metadata half of `ResourceVersionExample`: the loop and `V1ObjectMeta(**inputs)`. */
  lemma ResourceVersionMetadata(inv: map<string, string>)
    requires "resourceVersion" in inv && inv["resourceVersion"] == "resource_version"
    requires "name" in inv && inv["name"] == "name"
    ensures MetaFromInputs(Inputs([("resourceVersion", JStr("42")), ("name", JStr("foo"))], inv))
         == Success(map["resource_version" := JStr("42"), "name" := JStr("foo")])
  {
    var ms := [("resourceVersion", JStr("42")), ("name", JStr("foo"))];
    assert ms[..1] == [ms[0]] && ms[..1][..0] == [];
    assert Inputs(ms[..1], inv) == map[Some("resource_version") := JStr("42")];
    var inputs := map[Some("resource_version") := JStr("42"), Some("name") := JStr("foo")];
    assert Inputs(ms, inv) == inputs;
    var meta := MetaFromInputs(inputs).value;
    assert meta.Keys == {"resource_version", "name"};
    assert meta == map["resource_version" := JStr("42"), "name" := JStr("foo")];
  }

  /** Through the inverse of any table that holds the two entries. */
  lemma ResourceVersionExampleFromTable(t: AttributeTable, i: nat, j: nat)
    requires WireKeysDistinct(t)
    requires i < |t| && t[i] == ("resource_version", "resourceVersion")
    requires j < |t| && t[j] == ("name", "name")
    ensures Decode(ResourceType("Resource", "example.com", "v1alpha1"),
                   ExampleObject("Resource", [("resourceVersion", JStr("42")), ("name", JStr("foo"))]),
                   Invert(t))
         == Success(Instance([("id", JStr("1")), ("name", JStr("foo"))],
                             map["resource_version" := JStr("42"), "name" := JStr("foo")]))
  {
    InvertAt(t, i);
    InvertAt(t, j);
    ResourceVersionExample(Invert(t));
  }

  /** A metadata key that the inverted table does not know makes the decoding fail. */
  lemma UnknownKeyExample(inv: map<string, string>)
    requires "colour" !in inv
    ensures Decode(ResourceType("Resource", "example.com", "v1alpha1"),
                   ExampleObject("Resource", [("colour", JStr("blue"))]),
                   inv)
         == Failure(KeywordTypeError)
  {
    var ms := [("colour", JStr("blue"))];
    var data := ExampleObject("Resource", ms);
    assert ApiVersion(ResourceType("Resource", "example.com", "v1alpha1")) == "example.com/v1alpha1";
    GetMember(data.members, 0);
    GetMember(data.members, 1);
    GetMember(data.members, 2);
    assert MetadataMembers(data) == Some(ms);
    assert ms[..0] == [];
    assert Inputs(ms, inv) == map[None := JStr("blue")];
  }

  /** An object of another kind is refused before its metadata is looked at. */
  lemma KindMismatchExample(inv: map<string, string>)
    ensures Decode(ResourceType("Resource", "example.com", "v1alpha1"),
                   ExampleObject("Post", [("colour", JStr("blue"))]),
                   inv)
         == Failure(KindMismatch)
  {
    var data := ExampleObject("Post", [("colour", JStr("blue"))]);
    assert ApiVersion(ResourceType("Resource", "example.com", "v1alpha1")) == "example.com/v1alpha1";
    GetMember(data.members, 0);
    GetMember(data.members, 1);
  }
}
