/** The object store as the console sees it: a map from `"<Class>.<id>"` keys
    to entities, the closed table of class names, and the per-class selection
    that `all` and `count` perform. */
module Store {
  import opened Text

  /** The class table `c_names`: every class the console can create. */
  const ClassNames: set<string> :=
    {"BaseModel", "User", "State", "City", "Amenity", "Place", "Review"}

  /** An instance: the name of its class and its attribute bag. The `id`
      attribute is set at creation; `update` may add or overwrite any
      attribute, `id` included, as `setattr` does. */
  datatype Entity = Entity(cls: string, attrs: map<string, string>)

  type Store = map<string, Entity>

  /** The key an instance is stored under: `"{}.{}".format(cls, id)`. */
  function Key(cls: string, id: string): (k: string)
    ensures |k| == |cls| + 1 + |id|
    ensures k[..|cls|] == cls && k[|cls|] == '.' && k[|cls| + 1..] == id
  {
    cls + "." + id
  }

  /** The class part of a key: `str(k).split(".")[0]`. */
  function KeyClass(k: string): (c: string)
    ensures |c| <= |k| && c == k[..|c|]
    ensures forall i :: 0 <= i < |c| ==> c[i] != '.'
    ensures |c| < |k| ==> k[|c|] == '.'
  {
    BeforeFirstDot(k)
  }

  /** A freshly created instance of class `cls` with identifier `id`. */
  function NewEntity(cls: string, id: string): (e: Entity)
    ensures e.cls == cls && "id" in e.attrs && e.attrs["id"] == id
  {
    Entity(cls, map["id" := id])
  }

  lemma ClassNamesHaveNoDot(c: string)
    requires c in ClassNames
    ensures forall i :: 0 <= i < |c| ==> c[i] != '.'
  {
  }

  /** A key built from a known class reads back as that class. */
  lemma KeyClassOfKey(c: string, id: string)
    requires c in ClassNames
    ensures KeyClass(Key(c, id)) == c
  {
    ClassNamesHaveNoDot(c);
    BeforeFirstDotOfJoin(c, id);
  }

  /** Distinct instances get distinct keys: for known classes the key
      determines both the class and the identifier. */
  lemma KeyInjective(c1: string, id1: string, c2: string, id2: string)
    requires c1 in ClassNames && c2 in ClassNames
    ensures Key(c1, id1) == Key(c2, id2) ==> c1 == c2 && id1 == id2
  {
    if Key(c1, id1) == Key(c2, id2) {
      KeyClassOfKey(c1, id1);
      KeyClassOfKey(c2, id2);
      assert Key(c1, id1)[|c1| + 1..] == id1;
    }
  }

  /** The store invariant the console keeps: every instance belongs to a known
      class and sits under a key whose class part names that class. */
  predicate WellFormed(s: Store) {
    forall k :: k in s ==> s[k].cls in ClassNames && KeyClass(k) == s[k].cls
  }

  /** The keys whose class part equals `c`. In a well-formed store these are
      exactly the keys of the instances of class `c`. */
  function ClassKeys(s: Store, c: string): (ks: set<string>)
    ensures ks <= s.Keys
    ensures forall k :: k in s ==> (k in ks <==> KeyClass(k) == c)
    ensures WellFormed(s) ==> forall k :: k in ks <==> k in s && s[k].cls == c
    ensures WellFormed(s) && c !in ClassNames ==> ks == {}
  {
    set k | k in s && KeyClass(k) == c
  }

  /** The entries of `s` whose key has class part `c`: a sub-map of `s`
      that, in a well-formed store, holds exactly the instances of class `c`. */
  function Select(s: Store, c: string): (m: Store)
    ensures m.Keys == ClassKeys(s, c)
    ensures forall k :: k in m ==> k in s && m[k] == s[k]
    ensures WellFormed(s) ==> forall k :: k in m <==> k in s && s[k].cls == c
  {
    map k | k in ClassKeys(s, c) :: s[k]
  }

  lemma SelectSize(s: Store, c: string)
    ensures |Select(s, c)| == |ClassKeys(s, c)|
  {
    assert Select(s, c).Keys == ClassKeys(s, c);
  }
}
