/** Runtime values and the store that stands for the JavaScript object graph.

    Environments (scopes) and objects (functions, classes, instances) live in
    a heap and are named by their index, so that closures can share and
    mutate frames and so that `===` on objects is comparison of indices.
    Frames only ever enclose older frames and a class's superclass is always
    an older class object: both chains are acyclic by construction, which is
    what `WellFormed` records. */
module Runtime {
  import opened Common
  import opened Tokens
  import opened Ast

  /** A Lox value: nil, boolean, number, string or a heap object (function,
      class or instance). */
  datatype Value = Nil | Bool(b: bool) | Num(n: real) | Str(s: string) | Obj(ref: nat)

  /** `LoxFunction`: a declaration, the frame it closes over, and whether it
      is a class's `init`. */
  datatype LoxFunction = LoxFunction(declaration: FuncDecl, closure: nat, isInitializer: bool)

  /** `LoxClass`: name, optional superclass object, unbound methods. */
  datatype LoxClass = LoxClass(name: string, superclass: Option<nat>, methods: map<string, LoxFunction>)

  datatype Object =
    | FunctionObj(fn: LoxFunction)
    | ClassObj(cls: LoxClass)
    | InstanceObj(klass: nat, fields: map<string, Value>)

  /** An `Environment`: its own bindings and its enclosing frame. */
  datatype Frame = Frame(values: map<string, Value>, enclosing: Option<nat>)

  datatype Heap = Heap(frames: seq<Frame>, objects: seq<Object>)

  /** A Lox runtime error: the offending token and the message. */
  datatype RuntimeError = RuntimeError(token: Token, message: string)

  predicate ValueOk(h: Heap, v: Value) {
    v.Obj? ==> v.ref < |h.objects|
  }

  predicate ValuesOk(h: Heap, m: map<string, Value>) {
    forall k | k in m :: ValueOk(h, m[k])
  }

  predicate SeqValuesOk(h: Heap, vs: seq<Value>) {
    forall i | 0 <= i < |vs| :: ValueOk(h, vs[i])
  }

  predicate FunctionOk(h: Heap, f: LoxFunction) {
    f.closure < |h.frames|
  }

  /** The frame at `i` encloses only an older frame and holds valid values. */
  predicate FrameOk(h: Heap, i: nat)
    requires i < |h.frames|
  {
    (h.frames[i].enclosing.Some? ==> h.frames[i].enclosing.value < i)
    && ValuesOk(h, h.frames[i].values)
  }

  /** A class stored at index `i`: its superclass is an older class. */
  predicate ClassOk(h: Heap, i: nat, c: LoxClass) {
    && (c.superclass.Some? ==>
          c.superclass.value < i && c.superclass.value < |h.objects|
          && h.objects[c.superclass.value].ClassObj?)
    && (forall m | m in c.methods :: FunctionOk(h, c.methods[m]))
  }

  predicate ObjectOkAt(h: Heap, i: nat, o: Object) {
    match o
    case FunctionObj(f) => FunctionOk(h, f)
    case ClassObj(c) => ClassOk(h, i, c)
    case InstanceObj(k, fields) => k < |h.objects| && h.objects[k].ClassObj? && ValuesOk(h, fields)
  }

  predicate ObjectOk(h: Heap, i: nat)
    requires i < |h.objects|
  {
    ObjectOkAt(h, i, h.objects[i])
  }

  predicate WellFormed(h: Heap) {
    && (forall i | 0 <= i < |h.frames| :: FrameOk(h, i))
    && (forall i | 0 <= i < |h.objects| :: ObjectOk(h, i))
  }

  /** A frame index that can be used as an environment. */
  predicate Live(h: Heap, env: nat) {
    WellFormed(h) && env < |h.frames|
  }

  predicate IsClass(h: Heap, c: nat) {
    c < |h.objects| && h.objects[c].ClassObj?
  }

  predicate IsInstance(h: Heap, i: nat) {
    i < |h.objects| && h.objects[i].InstanceObj?
  }

  /** What running Lox code may do to an object already allocated:
      functions and classes never change, an instance keeps its class and
      only its fields change. */
  predicate Persists(o: Object, o': Object) {
    match o
    case InstanceObj(k, _) => o'.InstanceObj? && o'.klass == k
    case _ => o' == o
  }

  /** The heap only evolved: nothing was deallocated, no scope was
      re-linked and every object persists. */
  predicate Evolves(h: Heap, h': Heap) {
    && |h.frames| <= |h'.frames| && |h.objects| <= |h'.objects|
    && (forall i | 0 <= i < |h.frames| :: h'.frames[i].enclosing == h.frames[i].enclosing)
    && (forall i | 0 <= i < |h.objects| :: Persists(h.objects[i], h'.objects[i]))
  }

  lemma EvolvesTransitive(h1: Heap, h2: Heap, h3: Heap)
    requires Evolves(h1, h2) && Evolves(h2, h3)
    ensures Evolves(h1, h3)
  {
    forall i | 0 <= i < |h1.objects| ensures Persists(h1.objects[i], h3.objects[i]) {
      assert Persists(h1.objects[i], h2.objects[i]);
      assert Persists(h2.objects[i], h3.objects[i]);
    }
  }

  /** The frame enclosing `env`, always an older frame. */
  function Enclosing(h: Heap, env: nat): (p: Option<nat>)
    requires Live(h, env)
    ensures p == h.frames[env].enclosing
    ensures p.Some? ==> p.value < env
  {
    assert FrameOk(h, env);
    h.frames[env].enclosing
  }

  function FrameValues(h: Heap, env: nat): (m: map<string, Value>)
    requires Live(h, env)
    ensures m == h.frames[env].values
    ensures ValuesOk(h, m)
  {
    assert FrameOk(h, env);
    h.frames[env].values
  }

  function ClassAt(h: Heap, c: nat): (k: LoxClass)
    requires WellFormed(h) && IsClass(h, c)
    ensures k == h.objects[c].cls
    ensures ClassOk(h, c, k)
  {
    assert ObjectOk(h, c);
    h.objects[c].cls
  }

  /** Allocates a frame: `new Environment(enclosing)` followed by `define`s. */
  function NewFrame(h: Heap, values: map<string, Value>, enclosing: Option<nat>): (r: (Heap, nat))
    requires WellFormed(h) && ValuesOk(h, values)
    requires enclosing.Some? ==> enclosing.value < |h.frames|
    ensures r.1 == |h.frames| && Live(r.0, r.1)
    ensures r.0 == Heap(h.frames + [Frame(values, enclosing)], h.objects)
    ensures Evolves(h, r.0)
  {
    var h' := Heap(h.frames + [Frame(values, enclosing)], h.objects);
    assert WellFormed(h') by {
      forall i | 0 <= i < |h'.frames| ensures FrameOk(h', i) {
        if i < |h.frames| { assert FrameOk(h, i); }
      }
      forall i | 0 <= i < |h'.objects| ensures ObjectOk(h', i) {
        assert ObjectOk(h, i);
      }
    }
    (h', |h.frames|)
  }

  /** The object `o` may be stored at the next free index of `h`. */
  predicate Allocatable(h: Heap, o: Object) {
    ObjectOkAt(h, |h.objects|, o)
  }

  /** Allocates an object (`new LoxFunction`, `new LoxClass`, `new LoxInstance`). */
  function Alloc(h: Heap, o: Object): (r: (Heap, nat))
    requires WellFormed(h) && Allocatable(h, o)
    ensures r.1 == |h.objects| && WellFormed(r.0)
    ensures r.0 == Heap(h.frames, h.objects + [o])
    ensures Evolves(h, r.0)
  {
    var h' := Heap(h.frames, h.objects + [o]);
    assert WellFormed(h') by {
      forall i | 0 <= i < |h'.frames| ensures FrameOk(h', i) {
        assert FrameOk(h, i);
      }
      forall i | 0 <= i < |h'.objects| ensures ObjectOk(h', i) {
        if i < |h.objects| { assert ObjectOk(h, i); }
      }
    }
    (h', |h.objects|)
  }

  /** Replaces the bindings of one frame, keeping its enclosing link. */
  function PutValues(h: Heap, env: nat, values: map<string, Value>): (h': Heap)
    requires Live(h, env) && ValuesOk(h, values)
    ensures Live(h', env)
    ensures h' == Heap(h.frames[env := Frame(values, h.frames[env].enclosing)], h.objects)
    ensures Evolves(h, h')
  {
    var h' := Heap(h.frames[env := Frame(values, h.frames[env].enclosing)], h.objects);
    assert WellFormed(h') by {
      forall i | 0 <= i < |h'.frames| ensures FrameOk(h', i) {
        assert FrameOk(h, i);
      }
      forall i | 0 <= i < |h'.objects| ensures ObjectOk(h', i) {
        assert ObjectOk(h, i);
      }
    }
    h'
  }

  /** Replaces the fields of one instance, keeping its class. */
  function PutFields(h: Heap, i: nat, fields: map<string, Value>): (h': Heap)
    requires WellFormed(h) && IsInstance(h, i) && ValuesOk(h, fields)
    ensures WellFormed(h') && IsInstance(h', i)
    ensures h' == Heap(h.frames, h.objects[i := InstanceObj(h.objects[i].klass, fields)])
    ensures Evolves(h, h')
  {
    var h' := Heap(h.frames, h.objects[i := InstanceObj(h.objects[i].klass, fields)]);
    assert WellFormed(h') by {
      forall j | 0 <= j < |h'.frames| ensures FrameOk(h', j) {
        assert FrameOk(h, j);
      }
      forall j | 0 <= j < |h'.objects| ensures ObjectOk(h', j) {
        assert ObjectOk(h, j);
        assert ObjectOk(h, i);
      }
    }
    h'
  }
}
