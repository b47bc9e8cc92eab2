# kubecrd: CRD builder, object decoder and install policy

`kubecrd` turns a Python dataclass into a Kubernetes CustomResourceDefinition
(CRD) and converts objects fetched from the cluster back into instances of the
class. This project models, in Dafny, the deterministic mapping layer of
`OpenAPISchemaBase` in `kubecrd/schemabase.py` and its older copy in the
top-level `schemabase.py`:

- **Naming** (`Resource`): `singular()` lowercases the class name, `plural()`
  appends `s`, with no irregular forms.
- **CRD builders** (`KubeCrd`, `LegacySchemaBase`): `crd_schema_dict()` builds a
  namespaced CRD whose OpenAPI v3 schema is `{type: object, properties: {spec:
  S}}`; the older `crd_schema(scope)` takes the scope as an argument and uses
  the derived schema `S` itself. `CrdFormat` reads such a document back and
  states the invariant every generated CRD keeps.
- **Attribute table** (`ObjectMeta`): `ObjectMeta_attribute_map` is the
  Kubernetes client's `V1ObjectMeta.attribute_map` (attribute -> wire key)
  inverted by a dict comprehension.
- **Object decoder** (`ObjectDecoder`): `from_json` checks `apiVersion` and
  `kind`, renames every metadata key through the inverted table in a loop, and
  hands `spec` to the class.
- **Install policy** (`Installer`): `install` swallows a failed creation only
  when the first API error has code 409 and `exist_ok` is true.

JSON values are a datatype (`Json.Json`). A `JObj` is an ordered list of
members, as Python dicts keep insertion order; the datatype itself allows a
repeated key, so only objects satisfying `DistinctKeys` stand for dicts, and
the lemmas about lookups require it (`Get` returns the first member with a key,
while the metadata loop, like the Python loop, keeps the last). The schema
derived by `apischema` is an arbitrary `Json` parameter. The client's attribute
table is a parameter too (an ordered list of (attribute, wire key) pairs), and
the properties are proved for any table with distinct attribute names, as a
dict has; some lemmas also assume distinct wire keys, as the client's table
has. Results and raised exceptions are a `Result`
or an outcome datatype rather than preconditions.

Two behaviours of the code are worth stating precisely. A metadata key that
the inverted table does not know is stored by the loop under `None`, and
`V1ObjectMeta(**inputs)` then raises a `TypeError` because keywords must be
strings (`ObjectDecoder.KeywordTypeError`). When the CRD already exists and
`exist_ok` is false, `install` re-raises the original `FailToCreateError`
unchanged.

## Model

| member | source | states |
|---|---|---|
| `Resource.Lower` | kubecrd/schemabase.py:37 | lowercasing keeps the length and lowercases each character in place (ASCII letters only) |
| `Resource.LowerIsLowercase` | schemabase.py:30-32 | a lowercased name has no upper-case letter, lowercasing a lowercase name changes nothing, and lowercasing is idempotent |
| `Resource.Singular` | kubecrd/schemabase.py:35-37 | the singular name has the class name's length, no upper-case letter, and is the class name lowercased character by character |
| `Resource.Plural` | kubecrd/schemabase.py:39-41 | the plural is the singular name followed by exactly one `s`, one character longer than the class name |
| `Resource.PluralIffSameLowercase` | schemabase.py:30-36 | no irregular plurals: two classes share a plural exactly when their names agree once lowercased |
| `ObjectMeta.Forward` | kubecrd/schemabase.py:9 | the attribute dict's keys are the attributes of the table's items |
| `ObjectMeta.Invert` | kubecrd/schemabase.py:8-10 | the inverted dict's keys are exactly the wire keys, and each maps to the attribute of an item carrying that wire key |
| `ObjectMeta.ForwardAt` | kubecrd/schemabase.py:9 | with distinct attribute names each item's attribute maps to its wire key |
| `ObjectMeta.InvertLastWins` | kubecrd/schemabase.py:8-10 | a later item overwrites an earlier one: an item whose wire key no later item carries is what the inverted dict maps that wire key to |
| `ObjectMeta.InvertAt` | kubecrd/schemabase.py:8-10 | with distinct wire keys each item's wire key maps back to its attribute |
| `ObjectMeta.ForwardAfterInvert` | kubecrd/schemabase.py:8-10 | inverting and then applying the table forward returns every wire key; this needs only distinct attribute names |
| `ObjectMeta.InvertAfterForward` | kubecrd/schemabase.py:8-10 | with distinct wire keys too, applying the table and then its inverse returns every attribute |
| `ObjectMeta.InvertIsInjective` | kubecrd/schemabase.py:8-10 | the inverted dict never sends two wire keys to the same attribute |
| `ObjectMeta.RenameKeys` | kubecrd/schemabase.py:96 | renaming keys through an injective table keeps every value under the renamed key and adds no key; the decoder's own renaming is `ObjectDecoder.Inputs`/`CollectInputs`, and `RenameKeys` is the reverse renaming through the client's attribute -> wire key table (the client's serialisation), used only by the round-trip lemmas |
| `KubeCrd.WrapSpec` | kubecrd/schemabase.py:67-72 | the OpenAPI schema is an object with exactly the keys `type` and `properties`; `type` is `object`, and `properties` has exactly the key `spec`, holding the derived schema unmodified |
| `KubeCrd.CrdHeader` | kubecrd/schemabase.py:45-50 | `apiVersion` is `apiextensions.k8s.io/v1`, `kind` is `CustomResourceDefinition`, `metadata.name` is `<plural>.<group>` |
| `KubeCrd.CrdSpecNames` | kubecrd/schemabase.py:51-58 | `spec.group` is the group, `spec.scope` is always `Namespaced`, `spec.names` holds singular, plural and the class name |
| `KubeCrd.CrdVersion` | kubecrd/schemabase.py:59-75 | `spec.versions` has exactly one entry, named after the version, served and stored, whose schema is the wrapped derived schema |
| `KubeCrd.CrdSchemaDictRoundTrip` | kubecrd/schemabase.py:43-78 | reading the CRD back yields the class, scope `Namespaced` and the wrapped schema, and the CRD invariant holds |
| `KubeCrd.CrdSchemaDictInjective` | kubecrd/schemabase.py:43-78 | two classes get the same CRD exactly when their names, groups, versions and derived schemas agree |
| `KubeCrd.CrdSchemaDictShape` | kubecrd/schemabase.py:45-77 | exact layout: the document has exactly `apiVersion`, `kind`, `metadata`, `spec`; `metadata` exactly `name`; `spec` exactly `group`, `scope`, `names`, `versions`; `names` exactly `singular`, `plural`, `kind`; the one version entry exactly `name`, `served`, `storage`, `schema`; `schema` exactly `openAPIV3Schema` |
| `KubeCrd.ResourceExampleCrd` | kubecrd/schemabase.py:36-49 | for class `Resource` in group `example.com` the plural is `resources` and the CRD is named `resources.example.com` |
| `CrdFormat.ReadCrd` | kubecrd/schemabase.py:45-77 | a document is accepted only with the constant `apiVersion`/`kind`, one served and stored version and `metadata.name` equal to `<plural>.<group>` |
| `LegacySchemaBase.CrdSchemaHeader` | schemabase.py:40-45 | constant `apiVersion` and `kind`; `metadata.name` is `<plural>.<group>` |
| `LegacySchemaBase.CrdSchemaSpec` | schemabase.py:39-53 | `spec.scope` is the scope argument, `Namespaced` when omitted; `spec.group` is the group; `spec.names` holds the three names |
| `LegacySchemaBase.CrdSchemaVersion` | schemabase.py:54-65 | exactly one version entry, named after the version, served and stored, whose OpenAPI schema is the derived schema itself |
| `LegacySchemaBase.CrdSchemaRoundTrip` | schemabase.py:38-67 | reading the CRD back yields the class, the scope argument and the unwrapped schema, and the CRD invariant holds |
| `LegacySchemaBase.CrdSchemaShape` | schemabase.py:40-67 | the same exact layout for every scope: no dict from the document down to `schema` holds a key beyond those the builder writes |
| `LegacySchemaBase.PackageBuilderIsWrappedLegacy` | schemabase.py:61-63 | the package's CRD is the older one with the default scope around the wrapped schema, and for one schema the two never coincide |
| `ObjectDecoder.ApiVersion` | kubecrd/schemabase.py:91 | the expected `apiVersion` is the group, a `/`, then the version |
| `ObjectDecoder.Lookup` | kubecrd/schemabase.py:96 | a wire key found in the inverted dict gives its attribute; any other key gives `None` |
| `ObjectDecoder.MetaFromInputs` | kubecrd/schemabase.py:97 | building the metadata fails (a `TypeError`) exactly when some key is `None`; otherwise every attribute keeps its value |
| `ObjectDecoder.Decode` | kubecrd/schemabase.py:88-100 | a decoded instance comes only from an object with the class's `apiVersion` and `kind`, and its spec is the object's `spec` dict unchanged |
| `ObjectDecoder.CollectInputs` | kubecrd/schemabase.py:94-96 | the loop leaves in `inputs` each item's value under the lookup of its key, later items overwriting earlier ones |
| `ObjectDecoder.FromJson` | kubecrd/schemabase.py:88-100 | `from_json` returns or raises exactly what `Decode` specifies |
| `ObjectDecoder.InputsKeys` | kubecrd/schemabase.py:94-96 | the keys of `inputs` are the lookups of the metadata keys |
| `ObjectDecoder.InputsAt` | kubecrd/schemabase.py:94-96 | a known wire key's value ends up under its attribute, whatever items follow |
| `ObjectDecoder.DecodeSucceedsIff` | kubecrd/schemabase.py:90-98 | decoding succeeds exactly when `apiVersion` and `kind` match, `metadata` is a dict whose keys are all known wire keys, and `spec` is a dict |
| `ObjectDecoder.MetadataRenamed` | kubecrd/schemabase.py:94-97 | each metadata value lands under the attribute its wire key names, and every attribute comes from a wire key |
| `ObjectDecoder.DecodeRenamesMetadata` | kubecrd/schemabase.py:94-99 | on success each wire key k of `metadata` gives attribute `inverse[k]` with the value unchanged, and no other attribute appears |
| `ObjectDecoder.MetadataRoundTrip` | kubecrd/schemabase.py:8-10 | renaming the built metadata back through the client's table gives the wire metadata exactly |
| `ObjectDecoder.DecodeRoundTrip` | kubecrd/schemabase.py:94-99 | re-keying a decoded instance's metadata with the client's table recovers the original wire keys with their values |
| `ObjectDecoder.ResourceVersionExample` | kubecrd/schemabase.py:94-97 | `{resourceVersion: "42", name: "foo"}` decodes to `{resource_version: "42", name: "foo"}` and the spec is passed through |
| `ObjectDecoder.ResourceVersionExampleFromTable` | kubecrd/schemabase.py:8-10 | the same holds through the inverse of any table with those two entries and distinct wire keys |
| `ObjectDecoder.UnknownKeyExample` | kubecrd/schemabase.py:96-97 | a metadata key missing from the inverted table makes decoding fail |
| `ObjectDecoder.KindMismatchExample` | kubecrd/schemabase.py:93 | an object of another kind is refused |
| `Installer.FirstErrorCode` | kubecrd/schemabase.py:111 | an empty error list fails (`IndexError`), a first body that is not JSON fails (`BodyNotJson`), a parsed body that is not a dict fails (`BodyNotObject`); the code is read exactly when the first body parses to a dict, and it is that dict's `code` entry |
| `Installer.Install` | kubecrd/schemabase.py:105-114 | `install` returns exactly when creation succeeded or failed with first code 409 and `exist_ok` (default true); a readable failure is otherwise re-raised unchanged, an unreadable one raises the reading error |
| `Installer.InstallTwice` | kubecrd/schemabase.py:102-114 | installing a class twice: the first call creates the CRD, the second returns when `exist_ok` is set and otherwise raises the conflict |

## Left out

- Text serialisation: `apischema_json`, `apischema_yaml`, the package's
  `crd_schema` (the YAML dump of `crd_schema_dict`) and the YAML dump at the end
  of the older `crd_schema`. The model works on the dictionaries; `yaml.dump`
  also sorts keys, which the ordered members here do not reflect.
- Schema derivation (`apischema`, `deserialization_schema`): a foreign library;
  its result is an arbitrary `Json` parameter.
- `utils.create_from_yaml`: the Kubernetes client's call; its outcome is a
  parameter of `Installer.Install`. `Installer.ClusterCreate` is a stand-in for
  the API server, used only to state the install-twice property.
  `Installer.CreateOutcome` only distinguishes success from a
  `FailToCreateError`: `install` catches nothing else, so any other exception
  of the call (a connection error, say) propagates unchanged and is not modelled.
- `Installer.FirstErrorCode`: a body that `json.loads` rejects (bad JSON, a
  non-string body) is one error, `BodyNotJson`; JSON floats are not modelled,
  so a code of `409.0` (equal to 409 in Python) cannot occur.
- `V1ObjectMeta(**inputs)` and `cls(**spec)`: metadata is a map from attribute
  names to values; the spec dict is passed through, and the dataclass's own
  rejection of unknown or missing fields is not modelled.
- The client's concrete `V1ObjectMeta.attribute_map` is not written out: it
  belongs to the Kubernetes client. The properties are proved for any table with
  distinct attribute names; `ObjectMeta.InvertAt`, `ObjectMeta.InvertAfterForward`
  and `ObjectDecoder.ResourceVersionExampleFromTable` also assume distinct wire
  keys, which the client's table has but a dict alone does not guarantee.
- `Resource.Lower`: only ASCII letters are lowercased; Python's `str.lower()`
  also maps other Unicode letters.
- Python `assert` statements vanish under `python -O`; the model always
  performs the `apiVersion` and `kind` checks.
- A resource-name sanitiser and create, patch and watch helpers do not appear
  in `kubecrd/schemabase.py` or `schemabase.py`, so they are not modelled.
- The example programs and the release script are not part of this model.
