/**
 * JSON-like values as the Python code sees them once parsed: `dict`, `list`,
 * `str`, `int`, `bool` and `None`. A `dict` keeps the insertion order of its
 * keys, so an object is an ordered list of members; a dict cannot hold a key
 * twice, which `DistinctKeys` states.
 */
module Json {
  import opened Wrappers

  datatype Json =
    | JNull
    | JBool(b: bool)
    | JInt(i: int)
    | JStr(s: string)
    | JArr(items: seq<Json>)
    | JObj(members: seq<(string, Json)>)

  type Members = seq<(string, Json)>

  /** No key occurs twice among the members of an object. */
  predicate DistinctKeys(ms: Members) {
    forall i, j :: 0 <= i < j < |ms| ==> ms[i].0 != ms[j].0
  }

  /** `dict.get(key)`: the value stored under `key`, or None. */
  function Get(ms: Members, key: string): Option<Json> {
    if ms == [] then None
    else if ms[0].0 == key then Some(ms[0].1)
    else Get(ms[1..], key)
  }

  /** In an object without repeated keys, every member is what `get` finds under its key. */
  lemma {:induction false} GetMember(ms: Members, i: nat)
    requires DistinctKeys(ms)
    requires i < |ms|
    ensures Get(ms, ms[i].0) == Some(ms[i].1)
  {
    if i > 0 {
      assert ms[0].0 != ms[i].0;
      assert ms[1..][i - 1] == ms[i];
      GetMember(ms[1..], i - 1);
    }
  }

  /** `value.get(key)` on a dict; None on anything else. */
  function Field(j: Json, key: string): (r: Option<Json>)
    ensures r.Some? ==> j.JObj?
  {
    if j.JObj? then Get(j.members, key) else None
  }

  /** Follows a path of keys through nested dicts. */
  function At(j: Json, path: seq<string>): (r: Option<Json>)
    ensures path == [] ==> r == Some(j)
    ensures |path| == 1 ==> r == Field(j, path[0])
    decreases |path|
  {
    if path == [] then Some(j)
    else match Field(j, path[0])
      case None => None
      case Some(child) => At(child, path[1..])
  }

  /** The set of keys of an object. */
  function KeySet(ms: Members): (ks: set<string>)
    ensures forall i :: 0 <= i < |ms| ==> ms[i].0 in ks
    ensures forall k :: k in ks ==> exists i :: 0 <= i < |ms| && ms[i].0 == k
  {
    set i | 0 <= i < |ms| :: ms[i].0
  }

  /** `j` is a dict whose keys are exactly `ks`, none repeated. */
  predicate HasKeys(j: Json, ks: set<string>) {
    j.JObj? && DistinctKeys(j.members) && KeySet(j.members) == ks
  }

  /** The key set of a one-member object. */
  lemma Keys1(ms: Members, a: string)
    requires |ms| == 1 && ms[0].0 == a
    ensures HasKeys(JObj(ms), {a})
  {
    assert ms[0].0 in KeySet(ms);
  }

  /** The key set of a three-member object with distinct keys. */
  lemma Keys3(ms: Members, a: string, b: string, c: string)
    requires |ms| == 3 && ms[0].0 == a && ms[1].0 == b && ms[2].0 == c
    requires a != b && a != c && b != c
    ensures HasKeys(JObj(ms), {a, b, c})
  {
    forall k | k in KeySet(ms)
      ensures k in {a, b, c}
    {
      var i :| 0 <= i < |ms| && ms[i].0 == k;
    }
    assert ms[0].0 in KeySet(ms) && ms[1].0 in KeySet(ms) && ms[2].0 in KeySet(ms);
  }

  /** The key set of a four-member object with distinct keys. */
  lemma Keys4(ms: Members, a: string, b: string, c: string, d: string)
    requires |ms| == 4 && ms[0].0 == a && ms[1].0 == b && ms[2].0 == c && ms[3].0 == d
    requires a != b && a != c && a != d && b != c && b != d && c != d
    ensures HasKeys(JObj(ms), {a, b, c, d})
  {
    forall k | k in KeySet(ms)
      ensures k in {a, b, c, d}
    {
      var i :| 0 <= i < |ms| && ms[i].0 == k;
    }
    assert ms[0].0 in KeySet(ms) && ms[1].0 in KeySet(ms) && ms[2].0 in KeySet(ms) && ms[3].0 in KeySet(ms);
  }

  /** The dict an ordered member list stands for. */
  function ToMap(ms: Members): (m: map<string, Json>)
    requires DistinctKeys(ms)
    ensures m.Keys == KeySet(ms)
    ensures forall i :: 0 <= i < |ms| ==> m[ms[i].0] == ms[i].1
  {
    map i | 0 <= i < |ms| :: ms[i].0 := ms[i].1
  }

  /** A two-key path is two lookups. */
  lemma At2(j: Json, a: string, b: string, x: Json)
    requires Field(j, a) == Some(x)
    ensures At(j, [a, b]) == Field(x, b)
  {
    assert [a, b][1..] == [b];
  }

  /** A three-key path is three lookups. */
  lemma At3(j: Json, a: string, b: string, c: string, x: Json, y: Json)
    requires Field(j, a) == Some(x) && Field(x, b) == Some(y)
    ensures At(j, [a, b, c]) == Field(y, c)
  {
    assert [a, b, c][1..] == [b, c];
    At2(x, b, c, y);
  }
}
