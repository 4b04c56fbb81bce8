# Static-method reflection helpers of `syft/util.py`, in Dafny

This project models the three helpers in `syft/util.py`:

- `is_static_method(klass, attr)` decides whether an attribute of a class is a static method.
- `copy_static_methods(from_class, to_class)` copies every static method of one class onto another, changing the target in place. The framework uses it when it swaps a library's constructor class for its own.
- `get_original_constructor_name(name)` forms the name under which the original constructor is saved.

Python's object model is reduced to what these helpers use (`py_objects.dfy`, module `PyObjects`):

- A class is seen through its method resolution order (MRO): a sequence of own dictionaries (`__dict__`), the class itself first.
- A dictionary entry is a `Member`. It is one of: a `staticmethod` wrapper, a plain function, a `classmethod` wrapper, a bound method, or other data.
- `getattr` and `hasattr` become `Getattr`. It takes the nearest class that binds the name and resolves that entry through the descriptor protocol. A `staticmethod` yields the function it wraps. A `classmethod` yields a bound method. Anything else yields itself.
- `dir` is the union of the names bound along the MRO.
- `inspect.isroutine` holds of everything except plain data.
- A class is also a heap object (`PyClass`). Its `own` dictionary is mutable and its ancestors are fixed. The helpers read a class through `View`, which turns it into a value. Anything passed where a class is expected that is not a class becomes `NotAClass`. It carries the names `dir` would list for it.

The helpers themselves are in `util.dfy` (module `Util`):

- `IsStaticMethod` is a pure function. It makes the same checks as the source and walks the MRO the same way (`MroWalk`).
- `CopyStaticMethods` is a method with a loop. It updates the target class's `own` map in place.
- `OriginalConstructorName` is a pure function.

A property the proofs bring out: the copy stores the function that a `staticmethod` wraps, not the wrapper. Calling the copied name through the target class works and reaches the same function (`CopiedResolvesOnTarget`). But the target's own dictionary does not declare it static. So unless an ancestor of the target declares the name static, `is_static_method` on the target rejects it (`CopiedIsNotStaticOnTarget`). When the copied function was written in Python with `def`, a call through an instance of the target would also pass the instance as the first argument; builtin functions, such as the C-level static methods of a tensor class, are not bound that way.

The walk over the MRO does not stop at the nearest class that declares the name. It stops only at a class that declares the name as a `staticmethod`. So a subclass that overrides a static method with an instance method still has it classified as static (`OverriddenStaticIsStillStatic`, `OverrideScenario`). The model keeps this behaviour exactly as the code has it.

## Model

| member | source | states |
|---|---|---|
| `PyObjects.IsRoutine` | syft/util.py:34 | `inspect.isroutine`: functions, method descriptors (`staticmethod`, `classmethod`) and bound methods are routines; plain data is not |
| `PyObjects.Resolve` | syft/util.py:27 | a lookup on the class never yields a `staticmethod` or `classmethod` wrapper; it yields a routine exactly when the declared member is one, wrapping the same function |
| `PyObjects.ResolveIsIdempotent` | syft/util.py:59 | a value `getattr` returned, stored back in a class dictionary, resolves to itself |
| `PyObjects.Getattr` | syft/util.py:26-29 | `hasattr` fails exactly when no class of the MRO binds the name in its own dictionary |
| `PyObjects.GetattrAt` | syft/util.py:26-27 | the lookup yields the resolved member of the nearest class that binds the name, whatever the classes further up bind |
| `PyObjects.GetattrFindsNearest` | syft/util.py:26-27 | when the name resolves, there is a nearest declaring class and the value is its member, resolved |
| `PyObjects.MroKeys` | syft/util.py:57 | the names listed are exactly those bound in some own dictionary along the MRO |
| `PyObjects.Dir` | syft/util.py:57 | on a class, `dir` lists exactly the names `hasattr` accepts; on anything else, the names that object lists |
| `PyObjects.Dicts` | syft/util.py:33-36 | the dictionaries read along the MRO are the current `__dict__`s of those classes, in MRO order |
| `PyObjects.View` | syft/util.py:23 | a heap object is seen as a class exactly when it is a type |
| `Util.DeclaresStatic` | syft/util.py:35-37 | the class's own dictionary binds the name to a `staticmethod` wrapper around some function, which a lookup on the class unwraps to that plain function |
| `Util.MroWalk` | syft/util.py:33-39 | the walk returns true exactly when the resolved value is a routine and some class of the MRO, at any position, binds the name to a `staticmethod` |
| `Util.IsStaticMethod` | syft/util.py:23-39 | false for anything that is not a class; true only when the name resolves on the class and resolves to a routine |
| `Util.StaticIffRoutineAndDeclaredStatic` | syft/util.py:26-39 | on a class: static exactly when the name resolves, to a routine, and some class of the MRO declares it a `staticmethod` |
| `Util.StaticIffNearestIsRoutine` | syft/util.py:26-39 | on a class: static exactly when the nearest declaration is not plain data and some class of the MRO declares it a `staticmethod` |
| `Util.OverriddenStaticIsStillStatic` | syft/util.py:33-38 | a subclass overriding the name with an instance or class method does not hide a `staticmethod` declared further up |
| `Util.DataShadowHidesStatic` | syft/util.py:34 | a subclass shadowing the name with plain data makes it not static, whatever the ancestors declare |
| `Util.OverrideScenario` | syft/util.py:33-38 | B overrides A's static `f` with an instance method; `f` is still static on B |
| `Util.StaticSurface` | syft/util.py:57-59 | the names copied are exactly the static methods of the source class, each bound to the value `getattr` gives; nothing for a non-class |
| `Util.SurfaceWithinDir` | syft/util.py:57-58 | every copied name is one that `dir` lists on the source |
| `Util.CopyStaticMethods` | syft/util.py:42-59 | the source class is unchanged; the target's own dictionary afterwards is its old one overridden by the static-method entries of the source, every other attribute kept |
| `Util.CopyIfStatic` | syft/util.py:58-59 | one turn of the loop: the name is bound on the target to the source's resolved value when it is a static method there, and nothing changes otherwise |
| `Util.CopiedResolvesOnTarget` | syft/util.py:59 | after the copy, each copied name resolves on the target class to the same routine as on the source class |
| `Util.CopiedIsNotStaticOnTarget` | syft/util.py:37-59 | the copy writes the wrapped function, not the `staticmethod` wrapper, so the name is not static on a target none of whose ancestors declares it static |
| `Util.CopyIsIdempotent` | syft/util.py:57-59 | copying a second time from the unchanged source changes nothing more |
| `Util.CopyWithoutStaticsIsNoOp` | syft/util.py:57-59 | a source without static methods leaves the target unchanged |
| `Util.CopyFromNonClassIsNoOp` | syft/util.py:55-59 | something that is not a class copies nothing |
| `Util.OriginalConstructorName` | syft/util.py:62-63 | the result is `original_` followed by the given name, 9 characters longer |
| `Util.OriginalConstructorNameIsInjective` | syft/util.py:63 | different constructor names give different names for their saved originals |

## Left out

- The `check.type_hints` decorator (syft/util.py:4, 41, 61): the module that defines it is not part of this model. Its effect shows only as the typed parameters.
- Python's real `inspect`, `dir`, `hasattr` and descriptor protocol are reduced to the five member kinds above. Properties and custom descriptors are plain data here. A `__getattr__` defined in a class body is an ordinary function (`Routine`); lookups on the class itself never call it. A metaclass `__getattr__`, which would answer lookups on the class, is not represented, and neither are other attributes supplied by the metaclass or the special names every class inherits from `object`.
- In the model a `staticmethod` or `classmethod` wrapper always wraps a function, so it always resolves to a routine. Python accepts any object there: `staticmethod(functools.partial(g))` resolves to a value that is not a routine, and `is_static_method` then returns False (syft/util.py:34). Such wrappers are not modelled.
- How the MRO is built (C3 linearisation) is not modelled. A class carries its MRO as a given sequence.
- IsStaticMethod: the assertion that two lookups agree (syft/util.py:31) always holds in the model, because lookup is a function and member equality is reflexive. In Python it can fail: a lookup with side effects can return a different value; a class attribute `x = float('nan')` compares unequal to itself and raises `AssertionError`; an array- or tensor-valued class attribute makes the `assert` raise because its truth value is ambiguous. None of these is modelled.
- CopyStaticMethods: because `copy_static_methods` calls `is_static_method` on every name `dir` lists (syft/util.py:57-58), one attribute of that kind anywhere on the source stops the copy part way, with the names visited before it already written to the target. The model's postcondition states the complete copy only; that partial state is not modelled.
- The order in which `dir` lists names is not modelled. The loop picks names in any order, and the final state does not depend on it, because each name is written at most once.
- CopyStaticMethods: the target may not be the source class or one of its ancestors (a precondition). Copying there would rewrite the hierarchy being inspected.
- CopyStaticMethods: it reads the source class once, before the loop. `copy_static_methods` re-reads it on every turn. Both give the same values, because the loop writes only to the target, which is not on the source's MRO.
- A `setattr` that the target refuses, and the exception it raises, is not modelled.
- Which names `dir` lists for an object that is not a class is a parameter (`NotAClass.attrs`). No such name is ever copied.
- The PyTorch constructor replacement described in the docstring (syft/util.py:45-48) is monkey-patching of an external library. It is not part of this model.
