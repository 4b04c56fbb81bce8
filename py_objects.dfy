/**
  The part of Python's object model that the reflection helpers rely on.

  A class is seen through its method resolution order (MRO): the class itself
  first, then its ancestors, nearest first. Each class on it owns a dictionary
  (its `__dict__`) from attribute names to the members declared in its body.
  Attribute lookup on a class (`getattr`, `hasattr`) takes the first class of
  the MRO whose own dictionary binds the name and resolves that member through
  the descriptor protocol; `dir` lists every name bound anywhere on the MRO.
  How the MRO itself is built (C3 linearisation), metaclasses and the special
  names every class inherits from `object` are not part of this model.
 */
module PyObjects {

  type Name = string

  /** Identity of a function object, the code a `def` produced. */
  type FnId = nat

  datatype Option<T> = None | Some(value: T)

  /** What a class's own dictionary can bind a name to, and what a lookup yields. */
  datatype Member =
    | StaticMethod(fn: FnId)  // a `staticmethod` wrapper around a function
    | Routine(fn: FnId)       // a plain function (an instance method when reached through an instance)
    | ClassMethod(fn: FnId)   // a `classmethod` wrapper around a function
    | BoundMethod(fn: FnId)   // a method object already bound to a class
    | Data(obj: nat)          // any other value: numbers, strings, properties, nested classes, ...

  /** `inspect.isroutine`: functions, methods and method descriptors are routines, plain data is not. */
  predicate IsRoutine(v: Member): (r: bool)
    ensures r <==> v.StaticMethod? || v.Routine? || v.ClassMethod? || v.BoundMethod?
  {
    !v.Data?
  }

  /**
    The descriptor protocol for an access on the class itself:
    a `staticmethod` hands out the function it wraps, a `classmethod` a method
    bound to the class, and everything else (functions, bound methods, data) itself.
   */
  function Resolve(m: Member): (v: Member)
    ensures !v.StaticMethod? && !v.ClassMethod?
    ensures IsRoutine(v) <==> IsRoutine(m)
    ensures !m.Data? ==> v.fn == m.fn
  {
    match m
    case StaticMethod(f) => Routine(f)
    case ClassMethod(f) => BoundMethod(f)
    case _ => m
  }

  /** A resolved value stored back in a class dictionary resolves to itself. */
  lemma ResolveIsIdempotent(m: Member)
    ensures Resolve(Resolve(m)) == Resolve(m)
  {
  }

  /** The own dictionaries along an MRO, the class itself first. */
  type Mro = seq<map<Name, Member>>

  /** `j` is the first position of the MRO whose own dictionary binds `name`. */
  ghost predicate DeclaredFirstAt(mro: Mro, name: Name, j: int) {
    && 0 <= j < |mro|
    && name in mro[j]
    && forall k :: 0 <= k < j ==> name !in mro[k]
  }

  /**
    `getattr(cls, name)` on a class with the given MRO: `None` when `hasattr`
    is false, otherwise the member of the nearest declaring class, resolved.
   */
  function Getattr(mro: Mro, name: Name): (r: Option<Member>)
    ensures r.None? <==> forall j :: 0 <= j < |mro| ==> name !in mro[j]
  {
    if mro == [] then None
    else if name in mro[0] then Some(Resolve(mro[0][name]))
    else
      var r := Getattr(mro[1..], name);
      assert forall j :: 0 <= j < |mro[1..]| ==> mro[1..][j] == mro[j + 1];
      r
  }

  /** The nearest declaration decides the lookup, whatever the ancestors further up bind. */
  lemma {:induction false} GetattrAt(mro: Mro, name: Name, j: int)
    requires DeclaredFirstAt(mro, name, j)
    ensures Getattr(mro, name) == Some(Resolve(mro[j][name]))
  {
    if j > 0 {
      assert DeclaredFirstAt(mro[1..], name, j - 1);
      GetattrAt(mro[1..], name, j - 1);
    }
  }

  /** A name that resolves has a nearest declaring class, and the lookup yields its member. */
  lemma {:induction false} GetattrFindsNearest(mro: Mro, name: Name)
    requires Getattr(mro, name).Some?
    ensures exists j :: DeclaredFirstAt(mro, name, j) && Getattr(mro, name).value == Resolve(mro[j][name])
  {
    if name !in mro[0] {
      GetattrFindsNearest(mro[1..], name);
      var j :| DeclaredFirstAt(mro[1..], name, j) && Getattr(mro[1..], name).value == Resolve(mro[1..][j][name]);
      assert DeclaredFirstAt(mro, name, j + 1);
    } else {
      assert DeclaredFirstAt(mro, name, 0);
    }
  }

  /** Every name bound in some own dictionary along the MRO. */
  function MroKeys(mro: Mro): (names: set<Name>)
    ensures forall n :: n in names <==> exists j :: 0 <= j < |mro| && n in mro[j]
  {
    if mro == [] then {}
    else
      var rest := MroKeys(mro[1..]);
      assert forall n, j :: 0 <= j < |mro[1..]| && n in mro[1..][j] ==> n in mro[j + 1];
      mro[0].Keys + rest
  }

  /** A class, or something else passed where a class was expected (a function, say). */
  datatype Klass =
    | Class(mro: Mro)
    | NotAClass(attrs: set<Name>)  // the names `dir` lists for that object

  /**
    `dir(klass)`: for a class, every name bound on it or on an ancestor, which
    are exactly the names `hasattr` accepts; for anything else, the names that
    object lists.
   */
  function Dir(klass: Klass): (names: set<Name>)
    ensures klass.NotAClass? ==> names == klass.attrs
    ensures klass.Class? ==> forall n :: n in names <==> Getattr(klass.mro, n).Some?
  {
    match klass
    case Class(mro) => MroKeys(mro)
    case NotAClass(attrs) => attrs
  }

  /** A class object on the heap: its own dictionary changes in place under `setattr`. */
  class PyClass {
    var own: map<Name, Member>  // the class's `__dict__`
    const bases: seq<PyClass>   // the rest of its MRO, nearest ancestor first

    constructor (own: map<Name, Member>, bases: seq<PyClass>)
      ensures this.own == own && this.bases == bases
    {
      this.own := own;
      this.bases := bases;
    }

    /** The MRO as objects: the class itself, then its ancestors. */
    function Mro(): (classes: seq<PyClass>)
    {
      [this] + bases
    }
  }

  /** The current own dictionaries of a sequence of classes. */
  function Dicts(classes: seq<PyClass>): (mro: Mro)
    reads classes
    ensures |mro| == |classes|
    ensures forall j :: 0 <= j < |classes| ==> mro[j] == classes[j].own
  {
    if classes == [] then []
    else [classes[0].own] + Dicts(classes[1..])
  }

  /** Any Python object handed to the helpers: a class on the heap, or some other object. */
  datatype PyObject =
    | Type(cls: PyClass)
    | NonType(attrs: set<Name>)

  /** The objects whose state a lookup on `o` depends on. */
  function Footprint(o: PyObject): seq<PyClass>
  {
    if o.Type? then o.cls.Mro() else []
  }

  /** The current state of `o` as a value. */
  function View(o: PyObject): (k: Klass)
    reads Footprint(o)
    ensures o.Type? <==> k.Class?
  {
    match o
    case Type(c) => Class(Dicts(c.Mro()))
    case NonType(attrs) => NotAClass(attrs)
  }
}
