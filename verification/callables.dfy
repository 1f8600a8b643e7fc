/** The runtime object model: the callable capability, `LoxFunction.bind`
    and `arity`, `LoxClass.findMethod` and `arity`, `LoxInstance.get` and
    `set`, and the `toString` of each. Calling a function or a class needs
    the interpreter and lives there. */
module Callables {
  import opened Common
  import opened Tokens
  import opened Ast
  import opened Runtime
  import opened Environments

  /** An object has a `call` member: functions and classes do, instances
      do not. */
  predicate HasCallMember(o: Object) {
    o.FunctionObj? || o.ClassObj?
  }

  /** `isCallable(value)`: only objects pass `instanceof Object`, and of
      those only the ones with a `call` member. */
  predicate IsCallable(h: Heap, v: Value)
    requires ValueOk(h, v)
  {
    v.Obj? && HasCallMember(h.objects[v.ref])
  }

  /** nil, booleans, numbers and strings are never callable; instances are
      not; functions and classes are. */
  lemma CallableKinds(h: Heap, v: Value)
    requires ValueOk(h, v)
    ensures (v.Nil? || v.Bool? || v.Num? || v.Str?) ==> !IsCallable(h, v)
    ensures v.Obj? && h.objects[v.ref].InstanceObj? ==> !IsCallable(h, v)
    ensures v.Obj? && (h.objects[v.ref].FunctionObj? || h.objects[v.ref].ClassObj?) ==> IsCallable(h, v)
  {
  }

  /** `LoxFunction.arity()`: the number of declared parameters. */
  function FunctionArity(f: LoxFunction): nat {
    |f.declaration.params|
  }

  /** Number of superclass links above class `c`. */
  function ClassDepth(h: Heap, c: nat): nat
    requires WellFormed(h) && IsClass(h, c)
    decreases c
  {
    match ClassAt(h, c).superclass
    case None => 0
    case Some(s) => 1 + ClassDepth(h, s)
  }

  /** The class `k` superclass links above `c`. */
  function SuperAt(h: Heap, c: nat, k: nat): (s: nat)
    requires WellFormed(h) && IsClass(h, c) && k <= ClassDepth(h, c)
    ensures IsClass(h, s) && s <= c
    decreases k
  {
    if k == 0 then c else SuperAt(h, ClassAt(h, c).superclass.value, k - 1)
  }

  /** The class `k` links above `c` declares a method called `name`. */
  predicate DeclaresAt(h: Heap, c: nat, k: nat, name: string)
    requires WellFormed(h) && IsClass(h, c)
  {
    k <= ClassDepth(h, c) && name in h.objects[SuperAt(h, c, k)].cls.methods
  }

  /** `findMethod(name)`: the class's own method, else the superclass's
      `findMethod`, else `null`. */
  function FindMethod(h: Heap, c: nat, name: string): (r: Option<LoxFunction>)
    requires WellFormed(h) && IsClass(h, c)
    ensures r.Some? ==> FunctionOk(h, r.value)
    ensures name in h.objects[c].cls.methods ==> r == Some(h.objects[c].cls.methods[name])
    decreases c
  {
    var k := ClassAt(h, c);
    if name in k.methods then Some(k.methods[name])
    else match k.superclass
      case Some(s) => FindMethod(h, s, name)
      case None => None
  }

  /** `findMethod` returns `null` exactly when no class on the superclass
      chain declares the name, and otherwise the method of the nearest class
      that does. */
  lemma {:induction false} FindMethodNearest(h: Heap, c: nat, name: string)
    requires WellFormed(h) && IsClass(h, c)
    ensures FindMethod(h, c, name).Some? <==> exists k: nat :: DeclaresAt(h, c, k, name)
    ensures FindMethod(h, c, name).Some? ==>
      exists k: nat :: && DeclaresAt(h, c, k, name)
                       && (forall k': nat | k' < k :: !DeclaresAt(h, c, k', name))
                       && FindMethod(h, c, name).value == h.objects[SuperAt(h, c, k)].cls.methods[name]
    decreases c
  {
    var kl := ClassAt(h, c);
    if name in kl.methods {
      assert DeclaresAt(h, c, 0, name);
    } else {
      assert !DeclaresAt(h, c, 0, name);
      match kl.superclass
      case None =>
        forall k: nat | DeclaresAt(h, c, k, name) ensures false {
        }
      case Some(s) =>
        FindMethodNearest(h, s, name);
        forall k: nat | DeclaresAt(h, s, k, name) ensures DeclaresAt(h, c, k + 1, name) {
        }
        forall k: nat | DeclaresAt(h, c, k, name) ensures DeclaresAt(h, s, k - 1, name) {
        }
        if FindMethod(h, c, name).Some? {
          var k: nat :| && DeclaresAt(h, s, k, name)
                        && (forall k': nat | k' < k :: !DeclaresAt(h, s, k', name))
                        && FindMethod(h, s, name).value == h.objects[SuperAt(h, s, k)].cls.methods[name];
          assert DeclaresAt(h, c, k + 1, name);
          forall k': nat | k' < k + 1 ensures !DeclaresAt(h, c, k', name) {
            if k' > 0 { assert !DeclaresAt(h, s, k' - 1, name); }
          }
        }
    }
  }

  /** `LoxClass.arity()`: the arity of `init` as found by `findMethod`, or 0. */
  function ClassArity(h: Heap, c: nat): (n: nat)
    requires WellFormed(h) && IsClass(h, c)
    ensures FindMethod(h, c, "init").None? ==> n == 0
    ensures FindMethod(h, c, "init").Some? ==> n == FunctionArity(FindMethod(h, c, "init").value)
  {
    match FindMethod(h, c, "init")
    case None => 0
    case Some(f) => FunctionArity(f)
  }

  /** A class takes the arguments of its own `init`; a class without one
      takes those of its superclass, and a class with neither takes none. */
  lemma ClassArityInherited(h: Heap, c: nat)
    requires WellFormed(h) && IsClass(h, c)
    ensures "init" in h.objects[c].cls.methods ==> ClassArity(h, c) == FunctionArity(h.objects[c].cls.methods["init"])
    ensures "init" !in h.objects[c].cls.methods && h.objects[c].cls.superclass.Some? ==>
              var s := h.objects[c].cls.superclass.value;
              IsClass(h, s) && ClassArity(h, c) == ClassArity(h, s)
    ensures "init" !in h.objects[c].cls.methods && h.objects[c].cls.superclass.None? ==> ClassArity(h, c) == 0
  {
    assert ClassAt(h, c) == h.objects[c].cls;
  }

  /** `arity()` of any callable value. */
  function Arity(h: Heap, v: Value): nat
    requires WellFormed(h) && ValueOk(h, v) && IsCallable(h, v)
  {
    match h.objects[v.ref]
    case FunctionObj(f) => FunctionArity(f)
    case ClassObj(_) => ClassArity(h, v.ref)
  }

  /** `bind(instance)`: a new function with the same declaration and
      initializer flag whose closure is a fresh frame, enclosing the old
      closure, that binds only `this`. Nothing already in the heap changes. */
  function Bind(h: Heap, f: LoxFunction, self: Value): (r: (Heap, LoxFunction))
    requires WellFormed(h) && FunctionOk(h, f) && ValueOk(h, self)
    ensures WellFormed(r.0) && FunctionOk(r.0, r.1)
    ensures r.1.declaration == f.declaration && r.1.isInitializer == f.isInitializer
    ensures r.1.closure == |h.frames|
    ensures r.0.frames == h.frames + [Frame(map["this" := self], Some(f.closure))]
    ensures r.0.objects == h.objects && Evolves(h, r.0)
  {
    var (h', env) := NewFrame(h, map["this" := self], Some(f.closure));
    (h', LoxFunction(f.declaration, env, f.isInitializer))
  }

  /** The bound function's closure reads `this` at distance 0 and sees the
      old closure one link further up. */
  lemma BindScopes(h: Heap, f: LoxFunction, self: Value)
    requires WellFormed(h) && FunctionOk(h, f) && ValueOk(h, self)
    ensures var (h', g) := Bind(h, f, self);
      && Live(h', g.closure)
      && GetAt(h', g.closure, 0, "this") == Some(self)
      && 1 <= Depth(h', g.closure)
      && Ancestor(h', g.closure, 1) == f.closure
  {
  }

  /** The class of instance `i`. */
  function ClassOf(h: Heap, i: nat): (c: nat)
    requires WellFormed(h) && IsInstance(h, i)
    ensures c == h.objects[i].klass && IsClass(h, c)
  {
    assert ObjectOk(h, i);
    h.objects[i].klass
  }

  /** `LoxInstance.get(name)`: a field if present (even when a method has
      the same name), else the class's method bound to this instance, else
      the "Undefined property" error. */
  function InstanceGet(h: Heap, i: nat, name: Token): (r: Result<(Heap, Value), RuntimeError>)
    requires WellFormed(h) && IsInstance(h, i)
    ensures r.Ok? ==> WellFormed(r.value.0) && Evolves(h, r.value.0) && ValueOk(r.value.0, r.value.1)
    ensures name.lexeme in h.objects[i].fields ==> r == Ok((h, h.objects[i].fields[name.lexeme]))
    ensures name.lexeme !in h.objects[i].fields ==>
      (r.Err? <==> FindMethod(h, ClassOf(h, i), name.lexeme).None?)
    ensures r.Err? ==> r.error == RuntimeError(name, "Undefined property '" + name.lexeme + "'.")
  {
    assert ObjectOk(h, i);
    var inst := h.objects[i];
    if name.lexeme in inst.fields then Ok((h, inst.fields[name.lexeme]))
    else match FindMethod(h, inst.klass, name.lexeme)
      case Some(m) =>
        var (h1, bound) := Bind(h, m, Obj(i));
        var (h2, ref) := Alloc(h1, FunctionObj(bound));
        Ok((h2, Obj(ref)))
      case None => Err(RuntimeError(name, "Undefined property '" + name.lexeme + "'."))
  }

  /** A method found through `get` is the class's `findMethod` result bound to
      the instance: same declaration, closure binding `this` to it. */
  lemma InstanceGetBindsMethod(h: Heap, i: nat, name: Token)
    requires WellFormed(h) && IsInstance(h, i)
    requires name.lexeme !in h.objects[i].fields
    requires FindMethod(h, ClassOf(h, i), name.lexeme).Some?
    ensures var r := InstanceGet(h, i, name);
      && r.Ok? && r.value.1.Obj?
      && r.value.1.ref == |h.objects| && r.value.0.objects[r.value.1.ref].FunctionObj?
      && var g := r.value.0.objects[r.value.1.ref].fn;
         && g.declaration == FindMethod(h, ClassOf(h, i), name.lexeme).value.declaration
         && r.value.0.frames[g.closure].values == map["this" := Obj(i)]
  {
    var m := FindMethod(h, ClassOf(h, i), name.lexeme).value;
    var (h1, bound) := Bind(h, m, Obj(i));
    var (h2, ref) := Alloc(h1, FunctionObj(bound));
    assert InstanceGet(h, i, name) == Ok((h2, Obj(ref)));
  }

  /** `LoxInstance.set(name, value)`: writes the field, with no check against
      the class; other fields, the class and every other object are kept. */
  function InstanceSet(h: Heap, i: nat, name: string, v: Value): (h': Heap)
    requires WellFormed(h) && IsInstance(h, i) && ValueOk(h, v)
    ensures WellFormed(h') && IsInstance(h', i) && Evolves(h, h')
    ensures h'.frames == h.frames && |h'.objects| == |h.objects|
    ensures h'.objects[i].klass == h.objects[i].klass
    ensures h'.objects[i].fields.Keys == h.objects[i].fields.Keys + {name}
    ensures forall k | k in h.objects[i].fields && k != name ::
              h'.objects[i].fields[k] == h.objects[i].fields[k]
    ensures forall j | 0 <= j < |h.objects| && j != i :: h'.objects[j] == h.objects[j]
  {
    assert ObjectOk(h, i);
    PutFields(h, i, h.objects[i].fields[name := v])
  }

  /** `set(name, v)` then `get(name)` yields `v`, whatever methods the class
      has: fields shadow methods. */
  lemma SetThenGet(h: Heap, i: nat, name: Token, v: Value)
    requires WellFormed(h) && IsInstance(h, i) && ValueOk(h, v)
    ensures var h' := InstanceSet(h, i, name.lexeme, v);
      InstanceGet(h', i, name) == Ok((h', v))
  {
  }

  /** `toString()` of a function: `<fn name>`. */
  function FunctionText(f: LoxFunction): string {
    "<fn " + f.declaration.name.lexeme + ">"
  }

  /** `toString()` of a class is its name; of an instance, its class's name
      followed by " instance". */
  function ObjectText(h: Heap, i: nat): (s: string)
    requires WellFormed(h) && i < |h.objects|
    ensures h.objects[i].ClassObj? ==> s == h.objects[i].cls.name
    ensures h.objects[i].InstanceObj? ==> s == h.objects[h.objects[i].klass].cls.name + " instance"
  {
    assert ObjectOk(h, i);
    match h.objects[i]
    case FunctionObj(f) => FunctionText(f)
    case ClassObj(c) => c.name
    case InstanceObj(k, _) => h.objects[k].cls.name + " instance"
  }

  /** An instance prints as its class prints, followed by " instance". */
  lemma InstanceText(h: Heap, i: nat)
    requires WellFormed(h) && i < |h.objects| && h.objects[i].InstanceObj?
    ensures h.objects[i].klass < |h.objects| && h.objects[h.objects[i].klass].ClassObj?
    ensures ObjectText(h, i) == ObjectText(h, h.objects[i].klass) + " instance"
  {
    assert ObjectOk(h, i);
  }
}
