/**
 * The table between Kubernetes `ObjectMeta` attribute names and their wire
 * (JSON) keys. The Kubernetes client exposes it as `V1ObjectMeta.attribute_map`
 * (attribute -> wire key); the package inverts it once, at import time, into
 * `ObjectMeta_attribute_map` (wire key -> attribute) with a dict comprehension
 * in which a later item overwrites an earlier one.
 */
module ObjectMeta {
  import opened Json

  /** A table as the ordered items of a dict: (attribute name, wire key). */
  type AttributeTable = seq<(string, string)>

  /** A dict cannot hold an attribute name twice. */
  predicate AttributesDistinct(t: AttributeTable) {
    forall i, j :: 0 <= i < j < |t| ==> t[i].0 != t[j].0
  }

  /** No two attributes share a wire key. */
  predicate WireKeysDistinct(t: AttributeTable) {
    forall i, j :: 0 <= i < j < |t| ==> t[i].1 != t[j].1
  }

  /** The attribute -> wire key dict the table stands for. */
  function Forward(t: AttributeTable): (m: map<string, string>)
    ensures m.Keys == set i | 0 <= i < |t| :: t[i].0
  {
    if t == [] then map[]
    else Forward(t[..|t| - 1])[t[|t| - 1].0 := t[|t| - 1].1]
  }

  /**
   * `{value: key for key, value in attribute_map.items()}`: every wire key maps
   * to the attribute of an item that carries it, the last such item
   * (`InvertLastWins`).
   */
  function Invert(t: AttributeTable): (inv: map<string, string>)
    ensures inv.Keys == set i | 0 <= i < |t| :: t[i].1
    ensures forall w :: w in inv ==> exists i :: 0 <= i < |t| && t[i] == (inv[w], w)
  {
    if t == [] then map[]
    else
      Invert(t[..|t| - 1])[t[|t| - 1].1 := t[|t| - 1].0]
  }

  /** With distinct attribute names, the forward dict maps each item's attribute to its wire key. */
  lemma {:induction false} ForwardAt(t: AttributeTable, i: nat)
    requires AttributesDistinct(t)
    requires i < |t|
    ensures Forward(t)[t[i].0] == t[i].1
  {
    if i < |t| - 1 {
      ForwardAt(t[..|t| - 1], i);
    }
  }

  /**
   * The comprehension keeps the last item: an item whose wire key no later item
   * carries is the one the inverted dict maps that wire key to.
   */
  lemma {:induction false} InvertLastWins(t: AttributeTable, i: nat)
    requires i < |t|
    requires forall j :: i < j < |t| ==> t[j].1 != t[i].1
    ensures Invert(t)[t[i].1] == t[i].0
  {
    if i < |t| - 1 {
      InvertLastWins(t[..|t| - 1], i);
    }
  }

  /** With distinct wire keys, the inverted dict maps each item's wire key back to its attribute. */
  lemma InvertAt(t: AttributeTable, i: nat)
    requires WireKeysDistinct(t)
    requires i < |t|
    ensures Invert(t)[t[i].1] == t[i].0
  {
    InvertLastWins(t, i);
  }

  /**
   * Inverting the client's table and then applying it forward gives back every
   * wire key. This needs only that attribute names are distinct, which any
   * dict guarantees; wire keys may repeat.
   */
  lemma ForwardAfterInvert(t: AttributeTable, w: string)
    requires AttributesDistinct(t)
    requires w in Invert(t)
    ensures Invert(t)[w] in Forward(t) && Forward(t)[Invert(t)[w]] == w
  {
    var i :| 0 <= i < |t| && t[i] == (Invert(t)[w], w);
    ForwardAt(t, i);
  }

  /** With distinct wire keys too, the inversion is also an inverse in the other direction. */
  lemma InvertAfterForward(t: AttributeTable, a: string)
    requires AttributesDistinct(t) && WireKeysDistinct(t)
    requires a in Forward(t)
    ensures Forward(t)[a] in Invert(t) && Invert(t)[Forward(t)[a]] == a
  {
    var i :| 0 <= i < |t| && t[i].0 == a;
    ForwardAt(t, i);
    InvertAt(t, i);
  }

  /** No two keys share a value. */
  predicate Injective(m: map<string, string>) {
    forall k1, k2 :: k1 in m && k2 in m && m[k1] == m[k2] ==> k1 == k2
  }

  /** The inverted dict never sends two wire keys to the same attribute. */
  lemma InvertIsInjective(t: AttributeTable)
    requires AttributesDistinct(t)
    ensures Injective(Invert(t))
  {
    forall w1, w2 | w1 in Invert(t) && w2 in Invert(t) && Invert(t)[w1] == Invert(t)[w2]
      ensures w1 == w2
    {
      ForwardAfterInvert(t, w1);
      ForwardAfterInvert(t, w2);
    }
  }

  /** `table` sends no two keys of `m` to the same new key. */
  predicate InjectiveOn<V>(m: map<string, V>, table: map<string, string>)
    requires m.Keys <= table.Keys
  {
    forall a1, a2 :: a1 in m && a2 in m && table[a1] == table[a2] ==> a1 == a2
  }

  /** Renames every key of `m` through `table`, keeping its value. */
  function RenameKeys(m: map<string, Json>, table: map<string, string>): (r: map<string, Json>)
    requires m.Keys <= table.Keys
    requires InjectiveOn(m, table)
    ensures r.Keys == set a | a in m :: table[a]
    ensures forall a :: a in m ==> r[table[a]] == m[a]
  {
    map a | a in m :: table[a] := m[a]
  }
}
