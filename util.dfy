/**
  The reflection helpers of `syft/util.py`: deciding whether an attribute of a
  class is a static method, copying every static method of one class onto
  another, and naming the saved original of a replaced constructor.
 */
module Util {
  import opened PyObjects

  /**
    `attr in cls.__dict__` and the entry is a `staticmethod`: the own
    dictionary binds `attr` to a wrapper around some function, which a lookup
    on the class unwraps to that plain function.
   */
  predicate DeclaresStatic(own: map<Name, Member>, attr: Name): (r: bool)
    ensures r <==> attr in own && exists f :: own[attr] == StaticMethod(f)
    ensures r ==> Resolve(own[attr]) == Routine(own[attr].fn)
  {
    attr in own && own[attr].StaticMethod?
  }

  /**
    The walk over the MRO, most derived class first: true as soon as the
    resolved `value` is a routine and the class at hand declares `attr` as a
    `staticmethod`. A class that declares `attr` some other way does not stop
    the walk.
   */
  function MroWalk(mro: Mro, attr: Name, value: Member): (found: bool)
    ensures found <==> IsRoutine(value) && exists j :: 0 <= j < |mro| && DeclaresStatic(mro[j], attr)
  {
    if mro == [] then false
    else if IsRoutine(value) && DeclaresStatic(mro[0], attr) then true
    else
      var found := MroWalk(mro[1..], attr, value);
      assert forall j :: 0 <= j < |mro[1..]| ==> mro[1..][j] == mro[j + 1];
      found
  }

  /**
    `is_static_method(klass, attr)`: false for anything that is not a class and
    for a name the class does not have; otherwise true exactly when the value
    the name resolves to is a routine and some class of the MRO declares the
    name as a `staticmethod`.
   */
  function IsStaticMethod(klass: Klass, attr: Name): (r: bool)
    ensures klass.NotAClass? ==> !r
    ensures r ==> klass.Class? && Getattr(klass.mro, attr).Some? && IsRoutine(Getattr(klass.mro, attr).value)
  {
    if klass.NotAClass? then false
    else if Getattr(klass.mro, attr).None? then false
    else
      var value := Getattr(klass.mro, attr).value;
      // the lookup is repeated and must agree with the first one
      assert Getattr(klass.mro, attr) == Some(value);
      MroWalk(klass.mro, attr, value)
  }

  /**
    On a class, `attr` is a static method exactly when it resolves to a
    routine and some class of the MRO, not necessarily the nearest declaring
    one, binds it to a `staticmethod`.
   */
  lemma StaticIffRoutineAndDeclaredStatic(mro: Mro, attr: Name)
    ensures IsStaticMethod(Class(mro), attr) <==>
              && Getattr(mro, attr).Some?
              && IsRoutine(Getattr(mro, attr).value)
              && exists j :: 0 <= j < |mro| && DeclaresStatic(mro[j], attr)
  {
  }

  /**
    A subclass that overrides `attr` with a routine that is not a static method
    (an instance method, a class method) does not hide a `staticmethod`
    declared further up the MRO.
   */
  lemma OverriddenStaticIsStillStatic(mro: Mro, attr: Name, i: int, j: int)
    requires DeclaredFirstAt(mro, attr, i)
    requires IsRoutine(mro[i][attr])
    requires i < j < |mro| && DeclaresStatic(mro[j], attr)
    ensures IsStaticMethod(Class(mro), attr)
  {
    GetattrAt(mro, attr, i);
  }

  /**
    A subclass that shadows `attr` with plain data makes it not a static
    method, whatever its ancestors declare.
   */
  lemma DataShadowHidesStatic(mro: Mro, attr: Name, i: int)
    requires DeclaredFirstAt(mro, attr, i)
    requires mro[i][attr].Data?
    ensures !IsStaticMethod(Class(mro), attr)
  {
    GetattrAt(mro, attr, i);
  }

  /**
    The name is a static method of the class exactly when its nearest
    declaration is not plain data and some class of the MRO declares it static.
   */
  lemma StaticIffNearestIsRoutine(mro: Mro, attr: Name)
    ensures IsStaticMethod(Class(mro), attr) <==>
              && (exists i :: DeclaredFirstAt(mro, attr, i) && IsRoutine(mro[i][attr]))
              && (exists j :: 0 <= j < |mro| && DeclaresStatic(mro[j], attr))
  {
    if IsStaticMethod(Class(mro), attr) {
      GetattrFindsNearest(mro, attr);
      var i :| DeclaredFirstAt(mro, attr, i) && Getattr(mro, attr).value == Resolve(mro[i][attr]);
      assert IsRoutine(mro[i][attr]);
    }
    if exists i :: DeclaredFirstAt(mro, attr, i) && IsRoutine(mro[i][attr]) {
      var i :| DeclaredFirstAt(mro, attr, i) && IsRoutine(mro[i][attr]);
      GetattrAt(mro, attr, i);
    }
  }

  /**
    Class `B` overrides the static method `f` of its base `A` with an instance
    method; `f` still counts as static on `B`.
   */
  lemma OverrideScenario(a: FnId, b: FnId)
    ensures IsStaticMethod(Class([map["f" := Routine(b)], map["f" := StaticMethod(a)]]), "f")
  {
  }

  /**
    What `copy_static_methods` writes: every name of `dir(klass)` that is a
    static method, bound to the value `getattr` gives for it.
   */
  function StaticSurface(klass: Klass): (s: map<Name, Member>)
    ensures forall n :: n in s <==> IsStaticMethod(klass, n)
    ensures forall n :: n in s ==> klass.Class? && Getattr(klass.mro, n) == Some(s[n])
    ensures klass.NotAClass? ==> s == map[]
  {
    map n | n in Dir(klass) && IsStaticMethod(klass, n) :: Getattr(klass.mro, n).value
  }

  /** The part of `s` whose names are in `names`. */
  function Restrict(s: map<Name, Member>, names: set<Name>): (r: map<Name, Member>)
    ensures r.Keys == s.Keys * names
    ensures forall n :: n in r ==> r[n] == s[n]
  {
    map n | n in s && n in names :: s[n]
  }

  /**
    `copy_static_methods(fromClass, toClass)`: for every name `dir` lists on
    `fromClass` that is a static method there, assigns the value `getattr`
    gives for it onto `toClass`. The source class is left as it was; the
    target keeps every other attribute. Copying onto the source class or one of
    its ancestors would rewrite the hierarchy being inspected and is excluded.
   */
  method CopyStaticMethods(fromClass: PyObject, toClass: PyClass)
    requires fromClass.Type? ==> toClass !in fromClass.cls.Mro()
    modifies toClass
    ensures View(fromClass) == old(View(fromClass))
    ensures toClass.own == old(toClass.own) + StaticSurface(old(View(fromClass)))
  {
    var source := View(fromClass);
    ghost var surface := StaticSurface(source);
    var names := Dir(source);
    ghost var visited: set<Name> := {};
    while names != {}
      invariant Dir(source) <= names + visited
      invariant toClass.own == old(toClass.own) + Restrict(surface, visited)
      decreases names
    {
      var attr :| attr in names;
      RestrictStep(old(toClass.own), surface, visited, attr);
      CopyIfStatic(source, attr, toClass);
      names := names - {attr};
      visited := visited + {attr};
    }
    SurfaceWithinDir(source);
    RestrictToCovering(surface, visited);
    assert toClass !in Footprint(fromClass);
  }

  /**
    One turn of the copy loop: `setattr(toClass, attr, getattr(source, attr))`
    when `attr` is a static method of `source`, nothing otherwise.
   */
  method CopyIfStatic(source: Klass, attr: Name, toClass: PyClass)
    modifies toClass
    ensures var surface := StaticSurface(source);
            toClass.own == if attr in surface then old(toClass.own)[attr := surface[attr]] else old(toClass.own)
  {
    if IsStaticMethod(source, attr) {
      toClass.own := toClass.own[attr := Getattr(source.mro, attr).value];
    }
  }

  /** One more visited name extends the copied part of `s` by that name's entry, if it has one. */
  lemma RestrictStep(own: map<Name, Member>, s: map<Name, Member>, visited: set<Name>, attr: Name)
    ensures attr in s ==> (own + Restrict(s, visited))[attr := s[attr]] == own + Restrict(s, visited + {attr})
    ensures attr !in s ==> own + Restrict(s, visited) == own + Restrict(s, visited + {attr})
  {
  }

  /** Only names `dir` lists are copied. */
  lemma SurfaceWithinDir(klass: Klass)
    ensures StaticSurface(klass).Keys <= Dir(klass)
  {
  }

  /** Restricting to a set of names that covers the map leaves it whole. */
  lemma RestrictToCovering(s: map<Name, Member>, names: set<Name>)
    requires s.Keys <= names
    ensures Restrict(s, names) == s
  {
  }

  /**
    After the copy, every copied name is present on the target and resolves
    there, on the class itself, to the same routine as on the source: it can be
    called without an instance.
   */
  lemma CopiedResolvesOnTarget(klass: Klass, own: map<Name, Member>, bases: Mro, attr: Name)
    requires IsStaticMethod(klass, attr)
    ensures Getattr([own + StaticSurface(klass)] + bases, attr) == Getattr(klass.mro, attr)
    ensures IsRoutine(Getattr(klass.mro, attr).value)
  {
    var target := [own + StaticSurface(klass)] + bases;
    var v := StaticSurface(klass)[attr];
    assert DeclaredFirstAt(target, attr, 0);
    GetattrAt(target, attr, 0);
    ResolveIsIdempotent(v);
    GetattrFindsNearest(klass.mro, attr);
    var i :| DeclaredFirstAt(klass.mro, attr, i) && v == Resolve(klass.mro[i][attr]);
  }

  /**
    The copy stores the function a `staticmethod` wraps, not the wrapper: on a
    target none of whose ancestors declares the name static, the copied name is
    not a static method.
   */
  lemma CopiedIsNotStaticOnTarget(klass: Klass, own: map<Name, Member>, bases: Mro, attr: Name)
    requires IsStaticMethod(klass, attr)
    requires forall j :: 0 <= j < |bases| ==> !DeclaresStatic(bases[j], attr)
    ensures !IsStaticMethod(Class([own + StaticSurface(klass)] + bases), attr)
  {
    var target := [own + StaticSurface(klass)] + bases;
    GetattrFindsNearest(klass.mro, attr);
    assert !DeclaresStatic(target[0], attr);
    forall j | 0 <= j < |target| ensures !DeclaresStatic(target[j], attr) {
      if j > 0 {
        assert target[j] == bases[j - 1];
      }
    }
    StaticIffRoutineAndDeclaredStatic(target, attr);
  }

  /** Copying a second time changes nothing more. */
  lemma CopyIsIdempotent(klass: Klass, own: map<Name, Member>)
    ensures (own + StaticSurface(klass)) + StaticSurface(klass) == own + StaticSurface(klass)
  {
  }

  /** A source without static methods leaves the target as it was. */
  lemma CopyWithoutStaticsIsNoOp(klass: Klass, own: map<Name, Member>)
    requires forall n :: !IsStaticMethod(klass, n)
    ensures own + StaticSurface(klass) == own
  {
  }

  /** Handing in something that is not a class leaves the target as it was. */
  lemma CopyFromNonClassIsNoOp(attrs: set<Name>, own: map<Name, Member>)
    ensures own + StaticSurface(NotAClass(attrs)) == own
  {
  }

  /** `get_original_constructor_name(objectName)`: the name prefixed with `original_`. */
  function OriginalConstructorName(objectName: string): (r: string)
    ensures |r| == |objectName| + 9
    ensures r[..9] == "original_" && r[9..] == objectName
  {
    "original_" + objectName
  }

  /** Distinct constructor names give distinct names for their originals. */
  lemma OriginalConstructorNameIsInjective(a: string, b: string)
    requires OriginalConstructorName(a) == OriginalConstructorName(b)
    ensures a == b
  {
  }
}
