/**
 * The CRD builder of the `kubecrd` package (`OpenAPISchemaBase.crd_schema_dict`):
 * the document always declares a namespaced resource and nests the schema
 * derived from the class under `properties.spec` of an object schema.
 */
module KubeCrd {
  import opened Wrappers
  import opened Json
  import opened Resource
  import opened CrdFormat

  /** `{type: object, properties: {spec: schema}}`, with no other key at either level. */
  function WrapSpec(schema: Json): (w: Json)
    ensures w.JObj? && DistinctKeys(w.members) && KeySet(w.members) == {"type", "properties"}
    ensures At(w, ["type"]) == Some(JStr("object"))
    ensures At(w, ["properties"]).Some? && At(w, ["properties"]).value.JObj?
    ensures var p := At(w, ["properties"]).value;
      DistinctKeys(p.members) && KeySet(p.members) == {"spec"}
    ensures At(w, ["properties", "spec"]) == Some(schema)
  {
    var properties := [("spec", schema)];
    var ms := [("type", JStr("object")), ("properties", JObj(properties))];
    GetMember(ms, 0);
    GetMember(ms, 1);
    GetMember(properties, 0);
    At2(JObj(ms), "properties", "spec", JObj(properties));
    JObj(ms)
  }

  /**
   * `crd_schema_dict()` for the class `rt` whose derived schema (the result of
   * `apischema()`) is `schema`.
   */
  function CrdSchemaDict(rt: ResourceType, schema: Json): Json {
    JObj([
      ("apiVersion", JStr("apiextensions.k8s.io/v1")),
      ("kind", JStr("CustomResourceDefinition")),
      ("metadata", JObj([("name", JStr(Plural(rt) + "." + rt.group))])),
      ("spec", JObj([
        ("group", JStr(rt.group)),
        ("scope", JStr("Namespaced")),
        ("names", JObj([
          ("singular", JStr(Singular(rt))),
          ("plural", JStr(Plural(rt))),
          ("kind", JStr(rt.name))])),
        ("versions", JArr([
          JObj([
            ("name", JStr(rt.version)),
            ("served", JBool(true)),
            ("storage", JBool(true)),
            ("schema", JObj([("openAPIV3Schema", WrapSpec(schema))]))])]))]))])
  }

  /** The constant `apiVersion` and `kind`, and `metadata.name` is `<plural>.<group>`. */
  lemma CrdHeader(rt: ResourceType, schema: Json)
    ensures At(CrdSchemaDict(rt, schema), ["apiVersion"]) == Some(JStr("apiextensions.k8s.io/v1"))
    ensures At(CrdSchemaDict(rt, schema), ["kind"]) == Some(JStr("CustomResourceDefinition"))
    ensures At(CrdSchemaDict(rt, schema), ["metadata", "name"]) == Some(JStr(Plural(rt) + "." + rt.group))
  {
    var doc := CrdSchemaDict(rt, schema);
    GetMember(doc.members, 0);
    GetMember(doc.members, 1);
    GetMember(doc.members, 2);
    GetMember(doc.members[2].1.members, 0);
    At2(doc, "metadata", "name", doc.members[2].1);
  }

  /** `spec.group` is the group, the scope is always `Namespaced`, and `spec.names` holds the three names. */
  lemma CrdSpecNames(rt: ResourceType, schema: Json)
    ensures At(CrdSchemaDict(rt, schema), ["spec", "group"]) == Some(JStr(rt.group))
    ensures At(CrdSchemaDict(rt, schema), ["spec", "scope"]) == Some(JStr("Namespaced"))
    ensures At(CrdSchemaDict(rt, schema), ["spec", "names", "singular"]) == Some(JStr(Singular(rt)))
    ensures At(CrdSchemaDict(rt, schema), ["spec", "names", "plural"]) == Some(JStr(Plural(rt)))
    ensures At(CrdSchemaDict(rt, schema), ["spec", "names", "kind"]) == Some(JStr(rt.name))
  {
    var doc := CrdSchemaDict(rt, schema);
    var spec := doc.members[3].1;
    var names := spec.members[2].1;
    GetMember(doc.members, 3);
    GetMember(spec.members, 0);
    GetMember(spec.members, 1);
    GetMember(spec.members, 2);
    GetMember(names.members, 0);
    GetMember(names.members, 1);
    GetMember(names.members, 2);
    At2(doc, "spec", "group", spec);
    At2(doc, "spec", "scope", spec);
    At3(doc, "spec", "names", "singular", spec, names);
    At3(doc, "spec", "names", "plural", spec, names);
    At3(doc, "spec", "names", "kind", spec, names);
  }

  /**
   * `spec.versions` is a single entry named after the version, served and
   * stored, whose OpenAPI v3 schema is the derived schema wrapped as the
   * `spec` property of an object.
   */
  lemma CrdVersion(rt: ResourceType, schema: Json)
    ensures OnlyVersion(CrdSchemaDict(rt, schema)).Some?
    ensures At(OnlyVersion(CrdSchemaDict(rt, schema)).value, ["name"]) == Some(JStr(rt.version))
    ensures At(OnlyVersion(CrdSchemaDict(rt, schema)).value, ["served"]) == Some(JBool(true))
    ensures At(OnlyVersion(CrdSchemaDict(rt, schema)).value, ["storage"]) == Some(JBool(true))
    ensures At(OnlyVersion(CrdSchemaDict(rt, schema)).value, ["schema", "openAPIV3Schema"]) == Some(WrapSpec(schema))
  {
    var doc := CrdSchemaDict(rt, schema);
    var spec := doc.members[3].1;
    var v := spec.members[3].1.items[0];
    GetMember(doc.members, 3);
    GetMember(spec.members, 3);
    At2(doc, "spec", "versions", spec);
    GetMember(v.members, 0);
    GetMember(v.members, 1);
    GetMember(v.members, 2);
    GetMember(v.members, 3);
    GetMember(v.members[3].1.members, 0);
    At2(v, "schema", "openAPIV3Schema", v.members[3].1);
  }

  /**
   * Reading the document back yields the class, the `Namespaced` scope and the
   * derived schema inside its wrapper, and the document satisfies the CRD
   * invariant: the builder loses nothing.
   */
  lemma CrdSchemaDictRoundTrip(rt: ResourceType, schema: Json)
    ensures ReadCrd(CrdSchemaDict(rt, schema)) == Some(CrdFields(rt, "Namespaced", WrapSpec(schema)))
    ensures CrdInvariant(CrdSchemaDict(rt, schema))
  {
    CrdHeader(rt, schema);
    CrdSpecNames(rt, schema);
    CrdVersion(rt, schema);
  }

  /** Two classes get the same CRD exactly when they agree on everything the builder reads. */
  lemma CrdSchemaDictInjective(a: ResourceType, sa: Json, b: ResourceType, sb: Json)
    ensures CrdSchemaDict(a, sa) == CrdSchemaDict(b, sb) <==> a == b && sa == sb
  {
    if CrdSchemaDict(a, sa) == CrdSchemaDict(b, sb) {
      CrdSchemaDictRoundTrip(a, sa);
      CrdSchemaDictRoundTrip(b, sb);
      assert At(WrapSpec(sa), ["properties", "spec"]) == Some(sa);
    }
  }

  /** The plural of the class `Resource`, character by character. */
  lemma ResourcePlural()
    ensures Plural(ResourceType("Resource", "example.com", "v1alpha1")) == "resources"
  {
    var p := Plural(ResourceType("Resource", "example.com", "v1alpha1"));
    assert |p| == 9;
    assert p[0] == LowerChar('R');
    assert forall i :: 0 <= i < 9 ==> p[i] == "resources"[i];
  }

  /**
   * The class `Resource` in group `example.com`, version `v1alpha1`: plural
   * `resources`, CRD name `resources.example.com`.
   */
  lemma ResourceExampleCrd(schema: Json)
    ensures Plural(ResourceType("Resource", "example.com", "v1alpha1")) == "resources"
    ensures At(CrdSchemaDict(ResourceType("Resource", "example.com", "v1alpha1"), schema), ["metadata", "name"])
         == Some(JStr("resources.example.com"))
  {
    var rt := ResourceType("Resource", "example.com", "v1alpha1");
    ResourcePlural();
    assert Plural(rt) + "." + rt.group == "resources.example.com";
    CrdHeader(rt, schema);
  }

  /**
   * The document holds exactly the keys the builder writes at every level: no
   * dict on the way to the OpenAPI schema carries an extra field.
   */
  lemma CrdSchemaDictShape(rt: ResourceType, schema: Json)
    ensures CrdShape(CrdSchemaDict(rt, schema))
  {
    var doc := CrdSchemaDict(rt, schema);
    var spec := doc.members[3].1;
    var names := spec.members[2].1;
    var v := spec.members[3].1.items[0];
    Keys4(doc.members, "apiVersion", "kind", "metadata", "spec");
    GetMember(doc.members, 2);
    GetMember(doc.members, 3);
    Keys1(doc.members[2].1.members, "name");
    Keys4(spec.members, "group", "scope", "names", "versions");
    GetMember(spec.members, 2);
    GetMember(spec.members, 3);
    At2(doc, "spec", "names", spec);
    At2(doc, "spec", "versions", spec);
    Keys3(names.members, "singular", "plural", "kind");
    Keys4(v.members, "name", "served", "storage", "schema");
    GetMember(v.members, 3);
    Keys1(v.members[3].1.members, "openAPIV3Schema");
  }
}
