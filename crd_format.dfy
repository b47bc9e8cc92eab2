/**
 * How a CustomResourceDefinition document is read back: field paths, the
 * single version entry, the invariant every generated CRD satisfies, and a
 * validating reader that recovers the resource class, the scope and the
 * OpenAPI schema from a document.
 */
module CrdFormat {
  import opened Wrappers
  import opened Json
  import opened Resource

  /** The string found at a path, if there is one. */
  function StrAt(j: Json, path: seq<string>): (r: Option<string>)
    ensures r.Some? <==> At(j, path).Some? && At(j, path).value.JStr?
    ensures r.Some? ==> At(j, path) == Some(JStr(r.value))
  {
    match At(j, path)
    case Some(JStr(s)) => Some(s)
    case _ => None
  }

  /** `spec.versions[0]` when `spec.versions` is a list of exactly one entry. */
  function OnlyVersion(doc: Json): (r: Option<Json>)
    ensures r.Some? ==> exists vs :: At(doc, ["spec", "versions"]) == Some(JArr(vs)) && vs == [r.value]
  {
    match At(doc, ["spec", "versions"])
    case Some(JArr(vs)) => if |vs| == 1 then Some(vs[0]) else None
    case _ => None
  }

  /**
   * What Kubernetes requires of a CRD with one version: its `metadata.name` is
   * `<spec.names.plural>.<spec.group>`, and its one version is both served and
   * the storage version.
   */
  predicate CrdInvariant(doc: Json) {
    && StrAt(doc, ["spec", "names", "plural"]).Some?
    && StrAt(doc, ["spec", "group"]).Some?
    && StrAt(doc, ["metadata", "name"])
       == Some(StrAt(doc, ["spec", "names", "plural"]).value + "." + StrAt(doc, ["spec", "group"]).value)
    && OnlyVersion(doc).Some?
    && At(OnlyVersion(doc).value, ["served"]) == Some(JBool(true))
    && At(OnlyVersion(doc).value, ["storage"]) == Some(JBool(true))
  }

  /**
   * The exact layout of a generated CRD: every dict on the way from the
   * document to the OpenAPI schema holds these keys and no other.
   */
  predicate CrdShape(doc: Json) {
    && HasKeys(doc, {"apiVersion", "kind", "metadata", "spec"})
    && At(doc, ["metadata"]).Some? && HasKeys(At(doc, ["metadata"]).value, {"name"})
    && At(doc, ["spec"]).Some? && HasKeys(At(doc, ["spec"]).value, {"group", "scope", "names", "versions"})
    && At(doc, ["spec", "names"]).Some? && HasKeys(At(doc, ["spec", "names"]).value, {"singular", "plural", "kind"})
    && OnlyVersion(doc).Some? && HasKeys(OnlyVersion(doc).value, {"name", "served", "storage", "schema"})
    && At(OnlyVersion(doc).value, ["schema"]).Some?
    && HasKeys(At(OnlyVersion(doc).value, ["schema"]).value, {"openAPIV3Schema"})
  }

  /** What a CRD document declares: the resource class, its scope and its OpenAPI v3 schema. */
  datatype CrdFields = CrdFields(rt: ResourceType, scope: string, openApiSchema: Json)

  /**
   * Reads a CRD document back, accepting it only when it has the constant
   * `apiVersion` and `kind`, one served and stored version, and names that
   * follow from `spec.names.kind` the way `singular()` and `plural()` derive them.
   */
  function ReadCrd(doc: Json): (r: Option<CrdFields>)
    ensures r.Some? ==> CrdInvariant(doc)
    ensures r.Some? ==> At(doc, ["apiVersion"]) == Some(JStr("apiextensions.k8s.io/v1"))
    ensures r.Some? ==> At(doc, ["kind"]) == Some(JStr("CustomResourceDefinition"))
    ensures r.Some? ==> StrAt(doc, ["metadata", "name"]) == Some(Plural(r.value.rt) + "." + r.value.rt.group)
  {
    if At(doc, ["apiVersion"]) != Some(JStr("apiextensions.k8s.io/v1"))
       || At(doc, ["kind"]) != Some(JStr("CustomResourceDefinition"))
    then None
    else
      match (StrAt(doc, ["spec", "names", "kind"]), StrAt(doc, ["spec", "group"]),
             StrAt(doc, ["spec", "scope"]), OnlyVersion(doc))
      case (Some(name), Some(group), Some(scope), Some(v)) =>
        (match (StrAt(v, ["name"]), At(v, ["schema", "openAPIV3Schema"]))
         case (Some(version), Some(schema)) =>
           var rt := ResourceType(name, group, version);
           if && At(v, ["served"]) == Some(JBool(true))
              && At(v, ["storage"]) == Some(JBool(true))
              && StrAt(doc, ["spec", "names", "singular"]) == Some(Singular(rt))
              && StrAt(doc, ["spec", "names", "plural"]) == Some(Plural(rt))
              && StrAt(doc, ["metadata", "name"]) == Some(Plural(rt) + "." + group)
           then Some(CrdFields(rt, scope, schema))
           else None
         case _ => None)
      case _ => None
  }
}
