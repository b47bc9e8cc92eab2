/**
 * `OpenAPISchemaBase.install`: creates the CRD in the cluster and decides,
 * from the first API error of a failed creation, whether the failure is
 * swallowed (the CRD already exists, HTTP 409, and `exist_ok` is set) or
 * raised again. The creation call itself belongs to the Kubernetes client; its
 * outcome is a parameter here.
 */
module Installer {
  import opened Wrappers
  import opened Json
  import opened Resource
  import opened CrdFormat
  import KubeCrd

  /** One `ApiException` of a `FailToCreateError`: its body after `json.loads`, or None when that fails. */
  datatype ApiException = ApiException(body: Option<Json>)

  /** What `utils.create_from_yaml` did with the CRD. */
  datatype CreateOutcome = Created | FailToCreate(apiExceptions: seq<ApiException>)

  /** What `install` raises. */
  datatype InstallError =
    | Reraised(apiExceptions: seq<ApiException>)  // the `FailToCreateError` itself, by the bare `raise`
    | NoApiException                             // `e.api_exceptions[0]` on an empty list
    | BodyNotJson                                // `json.loads` rejects the body
    | BodyNotObject                              // `.get('code')` on a body that is not a dict

  /** `install` either returns `None` or raises. */
  datatype InstallOutcome = Returned | Raised(error: InstallError)

  /** `json.loads(e.api_exceptions[0].body).get('code')`. */
  function FirstErrorCode(excs: seq<ApiException>): (r: Result<Option<Json>, InstallError>)
    ensures excs == [] ==> r == Failure(NoApiException)
    ensures excs != [] && excs[0].body.None? ==> r == Failure(BodyNotJson)
    ensures excs != [] && excs[0].body.Some? && !excs[0].body.value.JObj? ==> r == Failure(BodyNotObject)
    ensures r.Success? <==> excs != [] && excs[0].body.Some? && excs[0].body.value.JObj?
    ensures r.Success? ==> r.value == Get(excs[0].body.value.members, "code")
  {
    if excs == [] then Failure(NoApiException)
    else match excs[0].body
      case None => Failure(BodyNotJson)
      case Some(JObj(ms)) => Success(Get(ms, "code"))
      case Some(_) => Failure(BodyNotObject)
  }

  /**
   * The `try`/`except` of `install`, given what the creation call did. It
   * returns normally exactly when the CRD was created, or when the creation
   * failed with first error code 409 and `exist_ok` is set; a failure whose
   * code can be read is otherwise raised unchanged.
   */
  function Install(created: CreateOutcome, existOk: bool := true): (r: InstallOutcome)
    ensures r.Returned? <==>
      || created.Created?
      || (existOk && created.FailToCreate? && FirstErrorCode(created.apiExceptions) == Success(Some(JInt(409))))
    ensures created.FailToCreate? && FirstErrorCode(created.apiExceptions).Success? && r.Raised? ==>
      r.error == Reraised(created.apiExceptions)
    ensures created.FailToCreate? && FirstErrorCode(created.apiExceptions).Failure? ==>
      r == Raised(FirstErrorCode(created.apiExceptions).error)
  {
    match created
    case Created => Returned
    case FailToCreate(excs) =>
      match FirstErrorCode(excs)
      case Failure(e) => Raised(e)
      case Success(code) => if code == Some(JInt(409)) && existOk then Returned else Raised(Reraised(excs))
  }

  /** The status body the API server sends when the object already exists. */
  function AlreadyExistsStatus(): (status: Json)
    ensures Field(status, "code") == Some(JInt(409))
  {
    var ms := [
      ("kind", JStr("Status")),
      ("apiVersion", JStr("v1")),
      ("status", JStr("Failure")),
      ("reason", JStr("AlreadyExists")),
      ("code", JInt(409))];
    GetMember(ms, 4);
    JObj(ms)
  }

  /**
   * A stand-in for the API server: creating a CRD whose name it already holds
   * fails with an `AlreadyExists` status, otherwise the CRD is stored.
   */
  function ClusterCreate(installed: set<string>, crd: Json): (set<string>, CreateOutcome) {
    match StrAt(crd, ["metadata", "name"])
    case Some(name) =>
      if name in installed then (installed, FailToCreate([ApiException(Some(AlreadyExistsStatus()))]))
      else (installed + {name}, Created)
    case None => (installed, FailToCreate([]))
  }

  /**
   * Installing the same class twice: the first call creates the CRD, and the
   * second succeeds when `exist_ok` is set and otherwise raises the conflict.
   */
  lemma InstallTwice(installed: set<string>, rt: ResourceType, schema: Json, existOk: bool)
    requires Plural(rt) + "." + rt.group !in installed
    ensures var crd := KubeCrd.CrdSchemaDict(rt, schema);
      var (afterFirst, first) := ClusterCreate(installed, crd);
      var (_, second) := ClusterCreate(afterFirst, crd);
      && Install(first, existOk) == Returned
      && (existOk <==> Install(second, existOk) == Returned)
      && (!existOk ==> Install(second, existOk) == Raised(Reraised(second.apiExceptions)))
  {
    KubeCrd.CrdHeader(rt, schema);
  }
}
