/**
 * `util/imports.py`: resolving a class from its dotted name and collecting
 * the subclasses of a base type that a package's modules expose. The import
 * machinery itself (`importlib`, `pkgutil`, `getattr`, `issubclass`) is given
 * as data: the modules that import, their attributes and each class's
 * ancestry.
 */
module Imports {
  import opened Base
  import opened Text
  import opened PyValues

  /** A class: its qualified name, the qualified names of every class it derives from, and whether it is abstract. */
  datatype PyType = PyType(qualname: string, ancestors: set<string>, isAbstract: bool)

  /** An attribute of a module: a class, or anything else. */
  datatype Attr = ClassAttr(t: PyType) | OtherAttr(name: string)

  /** The exceptions `get_python_type_by_name` raises. */
  datatype LookupError =
    | ValueError(msg: string)
    | AttributeError(msg: string)
    | ModuleNotFound(moduleName: string)
    | TypeNotFound(className: string, moduleName: string)
    | TypeError(msg: string)

  /** `issubclass(t, base)`: a class is a subclass of itself and of its ancestors. */
  predicate IsSubclass(t: PyType, base: PyType) {
    t == base || base.qualname in t.ancestors
  }

  /** The split at lines 100-105: the module part and the class part of a dotted name. */
  function SplitTypeName(typeName: string): (r: Result<(string, string), LookupError>)
    ensures r.Err? <==> typeName == "" || '.' !in typeName
    ensures r.Ok? ==> r.value.0 + "." + r.value.1 == typeName
    ensures r.Ok? ==> '.' !in r.value.1
  {
    if typeName == "" then Err(ValueError("Invalid type_name provided"))
    else
      var parts := Split(typeName, '.');
      if |parts| < 2 then
        assert '.' !in typeName by {
          if '.' in typeName {
            SplitWithSeparator(typeName, '.');
          }
        }
        Err(ValueError("type_name must be in the format \"module.submodule.ClassName\""))
      else
        assert '.' in typeName by {
          if '.' !in typeName {
            SplitWithoutSeparator(typeName, '.');
          }
        }
        JoinSplit(typeName, '.');
        JoinSnoc(parts, ".");
        Ok((Join(parts[..|parts| - 1], "."), parts[|parts| - 1]))
  }

  /**
   * `get_python_type_by_name(type_name, expected_parent_type)`: `modules` maps
   * each importable module to its attributes. A falsy name raises
   * `ValueError`; a truthy name that is not a string has no `split`.
   */
  function TypeByName(typeName: Value, parent: PyType, modules: map<string, map<string, Attr>>): (r: Result<PyType, LookupError>)
    ensures !Truthy(typeName) ==> r.Err? && r.error.ValueError?
    ensures r.Ok? ==> typeName.Str? && IsSubclass(r.value, parent)
    ensures r.Ok? ==> SplitTypeName(typeName.s).Ok? && var (m, c) := SplitTypeName(typeName.s).value;
                      m in modules && c in modules[m] && modules[m][c] == ClassAttr(r.value)
  {
    if !Truthy(typeName) then Err(ValueError("Invalid type_name provided"))
    else if !typeName.Str? then Err(AttributeError("object has no attribute 'split'"))
    else
      var (m, c) :- SplitTypeName(typeName.s);
      if m !in modules then Err(ModuleNotFound(m))
      else if c !in modules[m] then Err(TypeNotFound(c, m))
      else match modules[m][c]
        case OtherAttr(_) => Err(TypeError("issubclass() arg 1 must be a class"))
        case ClassAttr(t) =>
          if !IsSubclass(t, parent) then Err(TypeError("Retrieved type '" + c + "' is not a subclass of " + parent.qualname))
          else Ok(t)
  }

  /** A dotted name resolves exactly to the matching class of an importable module, when it is a subclass. */
  lemma TypeByNameFound(moduleName: string, className: string, t: PyType, parent: PyType, modules: map<string, map<string, Attr>>)
    requires '.' !in className && moduleName in modules && className in modules[moduleName]
    requires modules[moduleName][className] == ClassAttr(t)
    ensures TypeByName(Str(moduleName + "." + className), parent, modules) == if IsSubclass(t, parent) then Ok(t) else Err(TypeError("Retrieved type '" + className + "' is not a subclass of " + parent.qualname))
  {
    var name := moduleName + "." + className;
    assert name[|moduleName|] == '.';
    var r := SplitTypeName(name);
    var (m, c) := r.value;
    SplitSuffixUnique(moduleName, className, m, c);
  }

  /** In `m + "." + c` the dot sits at `|m|` and is followed by `c`, which has none. */
  lemma DottedAt(m: string, c: string, k: int)
    requires '.' !in c && -1 <= k < |c|
    ensures (m + "." + c)[|m| + 1 + k] == if k == -1 then '.' else c[k]
    ensures k >= 0 ==> (m + "." + c)[|m| + 1 + k] != '.'
  {
  }

  /** Splitting at the last dot is unique: a name has one module part and one dot-free class part. */
  lemma SplitSuffixUnique(m1: string, c1: string, m2: string, c2: string)
    requires '.' !in c1 && '.' !in c2 && m1 + "." + c1 == m2 + "." + c2
    ensures m1 == m2 && c1 == c2
  {
    var s := m1 + "." + c1;
    if |c1| < |c2| {
      DottedAt(m2, c2, |c2| - |c1| - 1);
      DottedAt(m1, c1, -1);
      assert false;
    } else if |c2| < |c1| {
      DottedAt(m1, c1, |c1| - |c2| - 1);
      DottedAt(m2, c2, -1);
      assert false;
    } else {
      assert c1 == s[|s| - |c1|..] == c2;
      assert m1 == s[..|m1|] == m2;
    }
  }

  /** The test of lines 76-78 on one class, before the history check. */
  predicate Wanted(t: PyType, base: PyType, excludeAbstract: bool, excludeBase: bool) {
    IsSubclass(t, base) && !(excludeAbstract && t.isAbstract) && !(excludeBase && t == base)
  }

  /** The attributes of the modules, module by module, each in `dir` order. */
  function Flatten(modules: seq<seq<Attr>>): seq<Attr> {
    if modules == [] then [] else Flatten(modules[..|modules| - 1]) + modules[|modules| - 1]
  }

  /** What the generator has yielded after scanning `attrs`: each wanted class once, at its first occurrence. */
  function Found(attrs: seq<Attr>, base: PyType, excludeAbstract: bool, excludeBase: bool): seq<PyType> {
    if attrs == [] then []
    else
      var prev := Found(attrs[..|attrs| - 1], base, excludeAbstract, excludeBase);
      match attrs[|attrs| - 1]
      case OtherAttr(_) => prev
      case ClassAttr(t) => if Wanted(t, base, excludeAbstract, excludeBase) && t !in prev then prev + [t] else prev
  }

  /** No class is yielded twice. */
  lemma {:induction false} FoundNoDuplicates(attrs: seq<Attr>, base: PyType, excludeAbstract: bool, excludeBase: bool)
    ensures NoDuplicates(Found(attrs, base, excludeAbstract, excludeBase))
  {
    if attrs != [] {
      FoundNoDuplicates(attrs[..|attrs| - 1], base, excludeAbstract, excludeBase);
    }
  }

  /** A class is yielded exactly when some module exposes it and it passes the filter. */
  lemma {:induction false} FoundMembers(attrs: seq<Attr>, base: PyType, excludeAbstract: bool, excludeBase: bool, t: PyType)
    ensures (t in Found(attrs, base, excludeAbstract, excludeBase))
              <==> ClassAttr(t) in attrs && Wanted(t, base, excludeAbstract, excludeBase)
  {
    if attrs != [] {
      var init := attrs[..|attrs| - 1];
      FoundMembers(init, base, excludeAbstract, excludeBase, t);
      assert attrs == init + [attrs[|attrs| - 1]];
      assert ClassAttr(t) in attrs <==> ClassAttr(t) in init || attrs[|attrs| - 1] == ClassAttr(t);
    }
  }

  /** With `exclude_base_type`, the base type itself is never yielded; without it, it is yielded whenever a module exposes it (and it is concrete or abstract classes are kept). */
  lemma BaseTypeExclusion(attrs: seq<Attr>, base: PyType, excludeAbstract: bool)
    ensures base !in Found(attrs, base, excludeAbstract, true)
    ensures ClassAttr(base) in attrs && !(excludeAbstract && base.isAbstract) ==> base in Found(attrs, base, excludeAbstract, false)
  {
    FoundMembers(attrs, base, excludeAbstract, true, base);
    FoundMembers(attrs, base, excludeAbstract, false, base);
  }

  /**
   * `find_types_in_modules`: `modules` lists what `import_modules` yields,
   * each module as its attributes in `dir` order; `history` records what was
   * yielded.
   */
  method FindTypesInModules(modules: seq<seq<Attr>>, base: PyType, excludeBase: bool, excludeAbstract: bool)
    returns (yielded: seq<PyType>)
    ensures yielded == Found(Flatten(modules), base, excludeAbstract, excludeBase)
  {
    var history: set<PyType> := {};
    yielded := [];
    var i := 0;
    while i < |modules|
      invariant 0 <= i <= |modules|
      invariant yielded == Found(Flatten(modules[..i]), base, excludeAbstract, excludeBase)
      invariant forall t :: t in history <==> t in yielded
    {
      var attrs := modules[i];
      ghost var before := Flatten(modules[..i]);
      var j := 0;
      assert before + attrs[..0] == before;
      while j < |attrs|
        invariant 0 <= j <= |attrs|
        invariant yielded == Found(before + attrs[..j], base, excludeAbstract, excludeBase)
        invariant forall t :: t in history <==> t in yielded
      {
        assert (before + attrs[..j + 1])[..|before + attrs[..j + 1]| - 1] == before + attrs[..j];
        match attrs[j] {
          case OtherAttr(_) =>
          case ClassAttr(t) =>
            if IsSubclass(t, base) && !(excludeAbstract && t.isAbstract) && !(excludeBase && t == base) && t !in history {
              yielded := yielded + [t];
              history := history + {t};
            }
        }
        j := j + 1;
      }
      assert modules[..i + 1][..i] == modules[..i];
      assert attrs[..|attrs|] == attrs;
      i := i + 1;
    }
    assert modules[..|modules|] == modules;
  }
}
