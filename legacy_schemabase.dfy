/**
 * The older, top-level copy of the CRD builder (`OpenAPISchemaBase.crd_schema`
 * in `schemabase.py`): the scope is a parameter that defaults to `Namespaced`,
 * and the derived schema is the OpenAPI v3 schema itself, without a wrapper.
 * Its `singular()` and `plural()` are the same as the package's.
 */
module LegacySchemaBase {
  import opened Wrappers
  import opened Json
  import opened Resource
  import opened CrdFormat
  import KubeCrd

  /** `crd_schema(scope)` before it is dumped as YAML. */
  function CrdSchema(rt: ResourceType, schema: Json, scope: string := "Namespaced"): Json {
    JObj([
      ("apiVersion", JStr("apiextensions.k8s.io/v1")),
      ("kind", JStr("CustomResourceDefinition")),
      ("metadata", JObj([("name", JStr(Plural(rt) + "." + rt.group))])),
      ("spec", JObj([
        ("group", JStr(rt.group)),
        ("scope", JStr(scope)),
        ("names", JObj([
          ("singular", JStr(Singular(rt))),
          ("plural", JStr(Plural(rt))),
          ("kind", JStr(rt.name))])),
        ("versions", JArr([
          JObj([
            ("name", JStr(rt.version)),
            ("served", JBool(true)),
            ("storage", JBool(true)),
            ("schema", JObj([("openAPIV3Schema", schema)]))])]))]))])
  }

  /** The constant `apiVersion` and `kind`, and `metadata.name` is `<plural>.<group>`. */
  lemma CrdSchemaHeader(rt: ResourceType, schema: Json, scope: string)
    ensures At(CrdSchema(rt, schema, scope), ["apiVersion"]) == Some(JStr("apiextensions.k8s.io/v1"))
    ensures At(CrdSchema(rt, schema, scope), ["kind"]) == Some(JStr("CustomResourceDefinition"))
    ensures At(CrdSchema(rt, schema, scope), ["metadata", "name"]) == Some(JStr(Plural(rt) + "." + rt.group))
  {
    var doc := CrdSchema(rt, schema, scope);
    GetMember(doc.members, 0);
    GetMember(doc.members, 1);
    GetMember(doc.members, 2);
    GetMember(doc.members[2].1.members, 0);
    At2(doc, "metadata", "name", doc.members[2].1);
  }

  /**
   * `spec.scope` is the `scope` argument (`Namespaced` when it is not given),
   * `spec.group` is the group, and `spec.names` holds the three names.
   */
  lemma CrdSchemaSpec(rt: ResourceType, schema: Json, scope: string)
    ensures At(CrdSchema(rt, schema, scope), ["spec", "group"]) == Some(JStr(rt.group))
    ensures At(CrdSchema(rt, schema, scope), ["spec", "scope"]) == Some(JStr(scope))
    ensures At(CrdSchema(rt, schema), ["spec", "scope"]) == Some(JStr("Namespaced"))
    ensures At(CrdSchema(rt, schema, scope), ["spec", "names", "singular"]) == Some(JStr(Singular(rt)))
    ensures At(CrdSchema(rt, schema, scope), ["spec", "names", "plural"]) == Some(JStr(Plural(rt)))
    ensures At(CrdSchema(rt, schema, scope), ["spec", "names", "kind"]) == Some(JStr(rt.name))
  {
    var doc := CrdSchema(rt, schema, scope);
    var spec := doc.members[3].1;
    var names := spec.members[2].1;
    GetMember(doc.members, 3);
    GetMember(spec.members, 0);
    GetMember(spec.members, 1);
    GetMember(spec.members, 2);
    GetMember(names.members, 0);
    GetMember(names.members, 1);
    GetMember(names.members, 2);
    At2(doc, "spec", "group", spec);
    At2(doc, "spec", "scope", spec);
    At3(doc, "spec", "names", "singular", spec, names);
    At3(doc, "spec", "names", "plural", spec, names);
    At3(doc, "spec", "names", "kind", spec, names);
    var byDefault := CrdSchema(rt, schema);
    GetMember(byDefault.members, 3);
    GetMember(byDefault.members[3].1.members, 1);
    At2(byDefault, "spec", "scope", byDefault.members[3].1);
  }

  /**
   * One version entry, named after the version, served and stored, whose
   * OpenAPI v3 schema is the derived schema itself.
   */
  lemma CrdSchemaVersion(rt: ResourceType, schema: Json, scope: string)
    ensures OnlyVersion(CrdSchema(rt, schema, scope)).Some?
    ensures At(OnlyVersion(CrdSchema(rt, schema, scope)).value, ["name"]) == Some(JStr(rt.version))
    ensures At(OnlyVersion(CrdSchema(rt, schema, scope)).value, ["served"]) == Some(JBool(true))
    ensures At(OnlyVersion(CrdSchema(rt, schema, scope)).value, ["storage"]) == Some(JBool(true))
    ensures At(OnlyVersion(CrdSchema(rt, schema, scope)).value, ["schema", "openAPIV3Schema"]) == Some(schema)
  {
    var doc := CrdSchema(rt, schema, scope);
    var spec := doc.members[3].1;
    var v := spec.members[3].1.items[0];
    GetMember(doc.members, 3);
    GetMember(spec.members, 3);
    At2(doc, "spec", "versions", spec);
    GetMember(v.members, 0);
    GetMember(v.members, 1);
    GetMember(v.members, 2);
    GetMember(v.members, 3);
    GetMember(v.members[3].1.members, 0);
    At2(v, "schema", "openAPIV3Schema", v.members[3].1);
  }

  /** Reading the document back yields the class, the scope argument and the derived schema itself. */
  lemma CrdSchemaRoundTrip(rt: ResourceType, schema: Json, scope: string)
    ensures ReadCrd(CrdSchema(rt, schema, scope)) == Some(CrdFields(rt, scope, schema))
    ensures CrdInvariant(CrdSchema(rt, schema, scope))
  {
    CrdSchemaHeader(rt, schema, scope);
    CrdSchemaSpec(rt, schema, scope);
    CrdSchemaVersion(rt, schema, scope);
  }

  /**
   * The two builders differ only in the schema they place: the package's
   * document is this one, with the default scope, around the wrapped schema,
   * and for the same derived schema the two documents never coincide.
   */
  lemma PackageBuilderIsWrappedLegacy(rt: ResourceType, schema: Json, scope: string)
    ensures KubeCrd.CrdSchemaDict(rt, schema) == CrdSchema(rt, KubeCrd.WrapSpec(schema))
    ensures CrdSchema(rt, schema, scope) != KubeCrd.CrdSchemaDict(rt, schema)
  {
    if CrdSchema(rt, schema, scope) == KubeCrd.CrdSchemaDict(rt, schema) {
      CrdSchemaRoundTrip(rt, schema, scope);
      KubeCrd.CrdSchemaDictRoundTrip(rt, schema);
      WrapSpecIsLarger(schema);
    }
  }

  /** A schema never equals its own wrapper. */
  lemma WrapSpecIsLarger(schema: Json)
    ensures KubeCrd.WrapSpec(schema) != schema
  {
    var w := KubeCrd.WrapSpec(schema);
    assert w.members[1].1.members[0].1 == schema;
  }

  /**
   * The document holds exactly the keys the builder writes at every level: no
   * dict on the way to the OpenAPI schema carries an extra field.
   */
  lemma CrdSchemaShape(rt: ResourceType, schema: Json, scope: string)
    ensures CrdShape(CrdSchema(rt, schema, scope))
  {
    var doc := CrdSchema(rt, schema, scope);
    var spec := doc.members[3].1;
    var names := spec.members[2].1;
    var v := spec.members[3].1.items[0];
    Keys4(doc.members, "apiVersion", "kind", "metadata", "spec");
    GetMember(doc.members, 2);
    GetMember(doc.members, 3);
    Keys1(doc.members[2].1.members, "name");
    Keys4(spec.members, "group", "scope", "names", "versions");
    GetMember(spec.members, 2);
    GetMember(spec.members, 3);
    At2(doc, "spec", "names", spec);
    At2(doc, "spec", "versions", spec);
    Keys3(names.members, "singular", "plural", "kind");
    Keys4(v.members, "name", "served", "storage", "schema");
    GetMember(v.members, 3);
    Keys1(v.members[3].1.members, "openAPIV3Schema");
  }
}
