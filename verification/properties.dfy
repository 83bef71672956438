/** Properties that relate several console commands: what a later `show`
    sees after `create`, `destroy` or `update`, how `all` and `count` agree,
    how counts move, and the store invariant every command keeps. */
module Properties {
  import opened Text
  import opened Store
  import opened Console

  /** No class name contains a separator or a space. */
  lemma ClassNameIsToken(c: string)
    requires c in ClassNames
    ensures IsToken(c)
    ensures forall i :: 0 <= i < |c| ==> c[i] != ' '
  {
  }

  /** A class name on its own tokenises to itself. */
  lemma TokenizeClassName(c: string)
    requires c in ClassNames
    ensures Tokenize(c) == [c]
  {
    ClassNameIsToken(c);
    TokenizeJoin([c]);
  }

  lemma TokenizePair(a: string, b: string)
    requires IsToken(a) && IsToken(b)
    ensures Tokenize(a + " " + b) == [a, b]
  {
    assert Join([a, b]) == a + " " + b;
    TokenizeJoin([a, b]);
  }

  // ---------------------------------------------------------------------
  // create
  // ---------------------------------------------------------------------

  /** `create` compares the whole raw argument with the class table: a class
      name followed by anything is refused, although `show` accepts the same
      text because it looks only at the first token. */
  lemma CreateTakesWholeArgument(store: Store, c: string, rest: string, id: string)
    requires c in ClassNames && IsToken(rest)
    ensures Create(store, c + " " + rest, id) == Outcome(Failed(ClassDoesntExist), store, false)
    ensures Show(store, c + " " + rest).reply != Failed(ClassDoesntExist)
  {
    var arg := c + " " + rest;
    assert arg[|c|] == ' ';
    forall n | n in ClassNames
      ensures arg != n
    {
      ClassNameIsToken(n);
    }
    ClassNameIsToken(c);
    TokenizePair(c, rest);
  }

  /** After `create`, `show` finds the new instance under its identifier. */
  lemma CreateThenShow(store: Store, c: string, id: string)
    requires c in ClassNames && IsToken(id)
    ensures Show(Create(store, c, id).store, c + " " + id).reply == Shown(NewEntity(c, id))
  {
    ClassNameIsToken(c);
    TokenizePair(c, id);
  }

  // ---------------------------------------------------------------------
  // destroy
  // ---------------------------------------------------------------------

  /** After a successful `destroy`, `show` of the same instance reports that
      there is no such instance. */
  lemma DestroyThenShow(store: Store, arg: string)
    requires Destroy(store, arg).reply == Silent
    ensures Show(Destroy(store, arg).store, arg).reply == Failed(NoInstanceFound)
  {
  }

  /** `destroy` of a present instance removes exactly its key. */
  lemma DestroyRemovesOne(store: Store, c: string, id: string)
    requires c in ClassNames && IsToken(id)
    requires Key(c, id) in store
    ensures Destroy(store, c + " " + id) == Outcome(Silent, store - {Key(c, id)}, false)
  {
    ClassNameIsToken(c);
    TokenizePair(c, id);
  }

  // ---------------------------------------------------------------------
  // update
  // ---------------------------------------------------------------------

  /** After a successful `update`, `show` of the same instance prints the
      attribute with its new value. */
  lemma UpdateThenShow(store: Store, arg: string)
    requires Update(store, arg).reply == Silent
    ensures
      var toks := Tokenize(arg);
      var r := Show(Update(store, arg).store, arg).reply;
      r.Shown? && toks[2] in r.entity.attrs && r.entity.attrs[toks[2]] == toks[3]
  {
  }

  /** Tokens after the fourth have no effect on `update`. */
  lemma UpdateIgnoresExtraTokens(store: Store, toks: seq<string>)
    requires AllTokens(toks) && |toks| >= 4
    ensures Update(store, Join(toks)) == Update(store, Join(toks[..4]))
  {
    var short := toks[..4];
    assert short[0] == toks[0] && short[1] == toks[1];
    assert short[2] == toks[2] && short[3] == toks[3];
    GetClassArgsOfJoin(toks);
    GetClassArgsOfJoin(short);
    assert SetAttribute(store, toks) == SetAttribute(store, short);
  }

  /** The order of `update`'s checks: each failure is reported only when
      every earlier check passed. */
  lemma UpdateErrorOrder(store: Store, toks: seq<string>)
    requires AllTokens(toks) && |toks| > 0
    ensures toks[0] !in ClassNames ==>
      Update(store, Join(toks)).reply == Failed(ClassDoesntExist)
    ensures toks[0] in ClassNames && |toks| == 1 ==>
      Update(store, Join(toks)).reply == Failed(InstanceIdMissing)
    ensures toks[0] in ClassNames && |toks| >= 2 && Key(toks[0], toks[1]) !in store ==>
      Update(store, Join(toks)).reply == Failed(NoInstanceFound)
    ensures toks[0] in ClassNames && |toks| == 2 && Key(toks[0], toks[1]) in store ==>
      Update(store, Join(toks)).reply == Failed(AttributeNameMissing)
    ensures toks[0] in ClassNames && |toks| == 3 && Key(toks[0], toks[1]) in store ==>
      Update(store, Join(toks)).reply == Failed(ValueMissing)
    ensures Update(store, Join(toks)).reply != Silent ==> Update(store, Join(toks)).store == store
  {
    GetClassArgsOfJoin(toks);
  }

  // ---------------------------------------------------------------------
  // all and count
  // ---------------------------------------------------------------------

  /** `all` and `count` accept the same arguments, and `count` prints the
      number of instances `all` lists. */
  lemma AllAgreesWithCount(store: Store, arg: string)
    ensures All(store, arg).reply.Listed? <==> Count(store, arg).reply.Counted?
    ensures All(store, arg).reply.Listed? ==>
      |All(store, arg).reply.entries| == Count(store, arg).reply.n
    ensures !All(store, arg).reply.Listed? ==> All(store, arg).reply == Count(store, arg).reply
  {
    if arg != "" && GetClassArgs(arg).Parsed? {
      SelectSize(store, Tokenize(arg)[0]);
    }
  }

  lemma ClassCountIs(store: Store, c: string)
    requires c in ClassNames
    ensures Count(store, c).reply == Counted(|ClassKeys(store, c)|)
  {
    TokenizeClassName(c);
  }

  lemma ClassKeysInsert(store: Store, k: string, e: Entity, d: string)
    requires k !in store
    ensures |ClassKeys(store[k := e], d)| == |ClassKeys(store, d)| + if KeyClass(k) == d then 1 else 0
  {
    if KeyClass(k) == d {
      assert ClassKeys(store[k := e], d) == ClassKeys(store, d) + {k};
    } else {
      assert ClassKeys(store[k := e], d) == ClassKeys(store, d);
    }
  }

  lemma ClassKeysRemove(store: Store, k: string, d: string)
    requires k in store
    ensures |ClassKeys(store, d)| == |ClassKeys(store - {k}, d)| + if KeyClass(k) == d then 1 else 0
  {
    if KeyClass(k) == d {
      assert ClassKeys(store, d) == ClassKeys(store - {k}, d) + {k};
    } else {
      assert ClassKeys(store, d) == ClassKeys(store - {k}, d);
    }
  }

  /** `create` adds one to the count of its class and to the total, and
      leaves every other class's count alone. */
  lemma CountAfterCreate(store: Store, c: string, id: string, d: string)
    requires c in ClassNames && d in ClassNames
    requires Key(c, id) !in store
    ensures Count(Create(store, c, id).store, "").reply == Counted(|store| + 1)
    ensures Count(Create(store, c, id).store, d).reply ==
      Counted(|ClassKeys(store, d)| + if c == d then 1 else 0)
  {
    var s' := Create(store, c, id).store;
    assert s' == store[Key(c, id) := NewEntity(c, id)];
    ClassCountIs(s', d);
    KeyClassOfKey(c, id);
    ClassKeysInsert(store, Key(c, id), NewEntity(c, id), d);
  }

  /** A successful `destroy` takes one off the count of the destroyed
      instance's class and off the total. */
  lemma CountAfterDestroy(store: Store, arg: string, d: string)
    requires d in ClassNames
    requires Destroy(store, arg).reply == Silent
    ensures |store| == |Destroy(store, arg).store| + 1
    ensures |ClassKeys(store, d)| ==
      |ClassKeys(Destroy(store, arg).store, d)| + if Tokenize(arg)[0] == d then 1 else 0
    ensures Count(Destroy(store, arg).store, d).reply == Counted(|ClassKeys(Destroy(store, arg).store, d)|)
  {
    var toks := Tokenize(arg);
    var key := Key(toks[0], toks[1]);
    var s' := Destroy(store, arg).store;
    assert s' == store - {key};
    ClassCountIs(s', d);
    KeyClassOfKey(toks[0], toks[1]);
    ClassKeysRemove(store, key, d);
  }

  /** The class table as a list. */
  const ClassList: seq<string> := ["BaseModel", "User", "State", "City", "Amenity", "Place", "Review"]

  /** The list holds every class of the table, each exactly once. */
  lemma ClassListIsClassNames()
    ensures forall c :: c in ClassList <==> c in ClassNames
    ensures forall i, j :: 0 <= i < j < |ClassList| ==> ClassList[i] != ClassList[j]
  {
  }

  /** Sum of the per-class counts over a list of class names. */
  function SumCounts(store: Store, cs: seq<string>): nat {
    if cs == [] then 0 else |ClassKeys(store, cs[0])| + SumCounts(store, cs[1..])
  }

  /** The keys whose class part is one of `cs`. */
  function KeysOfClasses(store: Store, cs: seq<string>): set<string> {
    set k | k in store && KeyClass(k) in cs
  }

  lemma {:induction false} SumCountsIsUnion(store: Store, cs: seq<string>)
    requires forall i, j :: 0 <= i < j < |cs| ==> cs[i] != cs[j]
    ensures SumCounts(store, cs) == |KeysOfClasses(store, cs)|
  {
    if cs != [] {
      SumCountsIsUnion(store, cs[1..]);
      var a := ClassKeys(store, cs[0]);
      var b := KeysOfClasses(store, cs[1..]);
      assert KeysOfClasses(store, cs) == a + b;
      assert a * b == {};
    }
  }

  /** In a well-formed store the per-class counts add up to the plain
      `count`. */
  lemma CountsAddUp(store: Store)
    requires WellFormed(store)
    ensures SumCounts(store, ClassList) == Count(store, "").reply.n
  {
    ClassListIsClassNames();
    SumCountsIsUnion(store, ClassList);
    assert KeysOfClasses(store, ClassList) == store.Keys;
  }

  // ---------------------------------------------------------------------
  // The store invariant
  // ---------------------------------------------------------------------

  lemma CreateKeepsWellFormed(store: Store, arg: string, id: string)
    requires WellFormed(store)
    ensures WellFormed(Create(store, arg, id).store)
  {
    if arg in ClassNames {
      KeyClassOfKey(arg, id);
    }
  }

  lemma DestroyKeepsWellFormed(store: Store, arg: string)
    requires WellFormed(store)
    ensures WellFormed(Destroy(store, arg).store)
  {
  }

  lemma UpdateKeepsWellFormed(store: Store, arg: string)
    requires WellFormed(store)
    ensures WellFormed(Update(store, arg).store)
  {
  }
}
