/**
 * A resource class as the CRD helpers see it: its Python class name and the
 * `__group__` and `__version__` class attributes, plus the names derived from
 * the class name (`singular`, `plural`).
 */
module Resource {

  /** The class name together with its `__group__` and `__version__`. */
  datatype ResourceType = ResourceType(name: string, group: string, version: string)

  predicate IsUpper(c: char) {
    'A' <= c <= 'Z'
  }

  /** Lowercases one character; only ASCII letters are mapped. */
  function LowerChar(c: char): (r: char)
    ensures !IsUpper(r)
    ensures IsUpper(c) ==> r as int == c as int + 32
    ensures !IsUpper(c) ==> r == c
  {
    if IsUpper(c) then (c as int + 32) as char else c
  }

  /** `str.lower()` restricted to ASCII: every character is lowercased in place. */
  function Lower(s: string): (r: string)
    ensures |r| == |s|
    ensures forall i :: 0 <= i < |s| ==> r[i] == LowerChar(s[i])
  {
    if s == [] then [] else [LowerChar(s[0])] + Lower(s[1..])
  }

  predicate NoUpper(s: string) {
    forall i :: 0 <= i < |s| ==> !IsUpper(s[i])
  }

  /** Lowercasing leaves no upper-case letter and does nothing to a lowercase string. */
  lemma LowerIsLowercase(s: string)
    ensures NoUpper(Lower(s))
    ensures NoUpper(s) ==> Lower(s) == s
    ensures Lower(Lower(s)) == Lower(s)
  {
  }

  /** `singular()`: the class name lowercased. */
  function Singular(rt: ResourceType): (r: string)
    ensures |r| == |rt.name|
    ensures NoUpper(r)
    ensures forall i :: 0 <= i < |r| ==> r[i] == LowerChar(rt.name[i])
  {
    LowerIsLowercase(rt.name);
    Lower(rt.name)
  }

  /** `plural()`: the singular name followed by `s`, whatever the word. */
  function Plural(rt: ResourceType): (r: string)
    ensures |r| == |rt.name| + 1
    ensures r[..|rt.name|] == Singular(rt) && r[|rt.name|] == 's'
    ensures NoUpper(r)
  {
    Singular(rt) + "s"
  }

  /**
   * There are no irregular plurals: two classes get the same plural exactly
   * when their names agree once lowercased, so names that differ only in
   * letter case collide.
   */
  lemma PluralIffSameLowercase(a: ResourceType, b: ResourceType)
    ensures Plural(a) == Plural(b) <==> Lower(a.name) == Lower(b.name)
  {
    if Plural(a) == Plural(b) {
      assert Singular(a) == Plural(a)[..|a.name|];
      assert Singular(b) == Plural(b)[..|b.name|];
    }
  }
}
