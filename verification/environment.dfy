/** `Environment`: a chain of frames, each with its own bindings and an
    optional enclosing frame. `define` writes the current frame; `get` and
    `assign` search the chain by name; `getAt` and `assignAt` go straight to
    the frame a resolved distance away. */
module Environments {
  import opened Common
  import opened Tokens
  import opened Runtime

  /** Number of enclosing links from `env` to the outermost frame. */
  function Depth(h: Heap, env: nat): nat
    requires Live(h, env)
    decreases env
  {
    match Enclosing(h, env)
    case None => 0
    case Some(p) => 1 + Depth(h, p)
  }

  /** `ancestor(distance)`: follows exactly `d` enclosing links; the chain
      must be at least that long. */
  function Ancestor(h: Heap, env: nat, d: nat): (a: nat)
    requires Live(h, env) && d <= Depth(h, env)
    ensures Live(h, a) && a <= env
    ensures Depth(h, a) == Depth(h, env) - d
    ensures d == 0 ==> a == env
    decreases d
  {
    if d == 0 then env else Ancestor(h, Enclosing(h, env).value, d - 1)
  }

  /** The frame `d` links up from `env` binds `name`. */
  predicate HoldsAt(h: Heap, env: nat, d: nat, name: string)
    requires Live(h, env)
  {
    d <= Depth(h, env) && name in h.frames[Ancestor(h, env, d)].values
  }

  /** `define`: binds `name` in this frame, overwriting any earlier binding. */
  function Define(h: Heap, env: nat, name: string, v: Value): (h': Heap)
    requires Live(h, env) && ValueOk(h, v)
    ensures Live(h', env) && |h'.frames| == |h.frames| && h'.objects == h.objects
    ensures Evolves(h, h')
    ensures forall i | 0 <= i < |h.frames| && i != env :: h'.frames[i] == h.frames[i]
    ensures h'.frames[env].enclosing == h.frames[env].enclosing
    ensures h'.frames[env].values.Keys == h.frames[env].values.Keys + {name}
    ensures h'.frames[env].values[name] == v
    ensures forall k | k in h.frames[env].values && k != name ::
              h'.frames[env].values[k] == h.frames[env].values[k]
  {
    PutValues(h, env, FrameValues(h, env)[name := v])
  }

  /** `getAt(distance, name)`: reads only the frame `d` links up; a missing
      binding there is `undefined` in the source, here `None`. */
  function GetAt(h: Heap, env: nat, d: nat, name: string): (r: Option<Value>)
    requires Live(h, env) && d <= Depth(h, env)
    ensures r.Some? <==> HoldsAt(h, env, d, name)
    ensures r.Some? ==> r.value == h.frames[Ancestor(h, env, d)].values[name] && ValueOk(h, r.value)
  {
    var a := Ancestor(h, env, d);
    var m := FrameValues(h, a);
    if name in m then Some(m[name]) else None
  }

  /** `assignAt(distance, name, value)`: writes into the frame `d` links up,
      creating the binding there if it is absent. */
  function AssignAt(h: Heap, env: nat, d: nat, name: string, v: Value): (h': Heap)
    requires Live(h, env) && d <= Depth(h, env) && ValueOk(h, v)
    ensures Live(h', env) && |h'.frames| == |h.frames| && h'.objects == h.objects
    ensures Evolves(h, h')
    ensures var a := Ancestor(h, env, d);
      && (forall i | 0 <= i < |h.frames| && i != a :: h'.frames[i] == h.frames[i])
      && h'.frames[a].enclosing == h.frames[a].enclosing
      && h'.frames[a].values == h.frames[a].values[name := v]
  {
    Define(h, Ancestor(h, env, d), name, v)
  }

  /** `get(name)`: the binding in the innermost frame on the chain that holds
      the name, or the "undefined variable" error. */
  function Get(h: Heap, env: nat, name: Token): (r: Result<Value, RuntimeError>)
    requires Live(h, env)
    ensures r.Ok? ==> ValueOk(h, r.value)
    ensures r.Err? ==> r.error == RuntimeError(name, "undefined variable '" + name.lexeme + "'.")
    decreases env
  {
    var m := FrameValues(h, env);
    if name.lexeme in m then Ok(m[name.lexeme])
    else match Enclosing(h, env)
      case Some(p) => Get(h, p, name)
      case None => Err(RuntimeError(name, "undefined variable '" + name.lexeme + "'."))
  }

  /** `assign(name, value)`: overwrites the binding in the innermost frame on
      the chain that holds the name; never creates one. */
  function Assign(h: Heap, env: nat, name: Token, v: Value): (r: Result<Heap, RuntimeError>)
    requires Live(h, env) && ValueOk(h, v)
    ensures r.Ok? ==> Live(r.value, env) && |r.value.frames| == |h.frames| && r.value.objects == h.objects
    ensures r.Ok? ==> Evolves(h, r.value)
    ensures r.Err? ==> r.error == RuntimeError(name, "Undefined variable '" + name.lexeme + "'.")
    decreases env
  {
    if name.lexeme in FrameValues(h, env) then Ok(Define(h, env, name.lexeme, v))
    else match Enclosing(h, env)
      case Some(p) =>
        (match Assign(h, p, name, v)
         case Ok(h') => Ok(h')
         case Err(e) => Err(e))
      case None => Err(RuntimeError(name, "Undefined variable '" + name.lexeme + "'."))
  }

  // ---------------------------------------------------------------------
  // Properties

  /** Following `a` links and then `b` more is following `a + b`. */
  lemma {:induction false} AncestorAdd(h: Heap, env: nat, a: nat, b: nat)
    requires Live(h, env) && a + b <= Depth(h, env)
    ensures Ancestor(h, Ancestor(h, env, a), b) == Ancestor(h, env, a + b)
    decreases a
  {
    if a > 0 {
      AncestorAdd(h, Enclosing(h, env).value, a - 1, b);
    }
  }

  /** One link up from `env` the distances shift by one. */
  lemma HoldsAtStep(h: Heap, env: nat, p: nat, d: nat, name: string)
    requires Live(h, env) && Enclosing(h, env) == Some(p)
    ensures HoldsAt(h, env, d + 1, name) <==> HoldsAt(h, p, d, name)
  {
  }

  /** `get` succeeds exactly when some frame on the chain holds the name, and
      then returns the binding of the innermost such frame. */
  lemma {:induction false} GetFindsInnermost(h: Heap, env: nat, name: Token)
    requires Live(h, env)
    ensures Get(h, env, name).Ok? <==> exists d: nat :: HoldsAt(h, env, d, name.lexeme)
    ensures Get(h, env, name).Ok? ==>
      exists d: nat :: && HoldsAt(h, env, d, name.lexeme)
                  && (forall d': nat | d' < d :: !HoldsAt(h, env, d', name.lexeme))
                  && GetAt(h, env, d, name.lexeme) == Some(Get(h, env, name).value)
    decreases env
  {
    var n := name.lexeme;
    if n in h.frames[env].values {
      assert HoldsAt(h, env, 0, n);
    } else {
      assert !HoldsAt(h, env, 0, n);
      match Enclosing(h, env)
      case None =>
        forall d: nat | HoldsAt(h, env, d, n) ensures false {
        }
      case Some(p) =>
        GetFindsInnermost(h, p, name);
        forall d: nat | HoldsAt(h, p, d, n) ensures HoldsAt(h, env, d + 1, n) {
          HoldsAtStep(h, env, p, d, n);
        }
        forall d: nat | HoldsAt(h, env, d, n) ensures HoldsAt(h, p, d - 1, n) {
          HoldsAtStep(h, env, p, d - 1, n);
        }
        if Get(h, env, name).Ok? {
          var d: nat :| && HoldsAt(h, p, d, n)
                   && (forall d': nat | d' < d :: !HoldsAt(h, p, d', n))
                   && GetAt(h, p, d, n) == Some(Get(h, p, name).value);
          HoldsAtStep(h, env, p, d, n);
          forall d': nat | d' < d + 1 ensures !HoldsAt(h, env, d', n) {
            if d' > 0 { HoldsAtStep(h, env, p, d' - 1, n); }
          }
          assert GetAt(h, env, d + 1, n) == GetAt(h, p, d, n);
        }
    }
  }

  /** `assign` fails exactly when `get` fails, and otherwise is `assignAt`
      at the distance of the innermost frame holding the name. */
  lemma {:induction false} AssignIsAssignAtInnermost(h: Heap, env: nat, name: Token, v: Value)
    requires Live(h, env) && ValueOk(h, v)
    ensures Assign(h, env, name, v).Err? <==> Get(h, env, name).Err?
    ensures Assign(h, env, name, v).Ok? ==>
      exists d: nat :: && HoldsAt(h, env, d, name.lexeme)
                  && (forall d': nat | d' < d :: !HoldsAt(h, env, d', name.lexeme))
                  && Assign(h, env, name, v).value == AssignAt(h, env, d, name.lexeme, v)
    decreases env
  {
    var n := name.lexeme;
    if n in h.frames[env].values {
      assert HoldsAt(h, env, 0, n);
      assert Assign(h, env, name, v).value == AssignAt(h, env, 0, n, v);
    } else {
      match Enclosing(h, env)
      case None =>
      case Some(p) =>
        AssignIsAssignAtInnermost(h, p, name, v);
        if Assign(h, env, name, v).Ok? {
          var d: nat :| && HoldsAt(h, p, d, n)
                   && (forall d': nat | d' < d :: !HoldsAt(h, p, d', n))
                   && Assign(h, p, name, v).value == AssignAt(h, p, d, n, v);
          HoldsAtStep(h, env, p, d, n);
          forall d': nat | d' < d + 1 ensures !HoldsAt(h, env, d', n) {
            if d' > 0 { HoldsAtStep(h, env, p, d' - 1, n); }
          }
          assert Ancestor(h, env, d + 1) == Ancestor(h, p, d);
        }
    }
  }

  /** `assign` never creates a binding: every frame keeps its set of names. */
  lemma AssignKeepsNames(h: Heap, env: nat, name: Token, v: Value)
    requires Live(h, env) && ValueOk(h, v) && Assign(h, env, name, v).Ok?
    ensures forall i | 0 <= i < |h.frames| ::
      Assign(h, env, name, v).value.frames[i].values.Keys == h.frames[i].values.Keys
  {
    AssignIsAssignAtInnermost(h, env, name, v);
  }

  /** `get` from a frame depends only on that frame and older frames. */
  lemma {:induction false} GetReadsOlderFrames(h: Heap, h': Heap, env: nat, name: Token)
    requires Live(h, env) && Live(h', env)
    requires forall i | 0 <= i <= env :: h'.frames[i] == h.frames[i]
    ensures Get(h', env, name) == Get(h, env, name)
    decreases env
  {
    if name.lexeme !in h.frames[env].values {
      match Enclosing(h, env)
      case None =>
      case Some(p) => GetReadsOlderFrames(h, h', p, name);
    }
  }

  /** After `define(name, v)`, `get(name)` from that frame yields `v`, and
      every other name reads as before. */
  lemma DefineThenGet(h: Heap, env: nat, name: Token, other: Token, v: Value)
    requires Live(h, env) && ValueOk(h, v) && other.lexeme != name.lexeme
    ensures Get(Define(h, env, name.lexeme, v), env, name) == Ok(v)
    ensures Get(Define(h, env, name.lexeme, v), env, other) == Get(h, env, other)
  {
    var h' := Define(h, env, name.lexeme, v);
    if other.lexeme !in h.frames[env].values {
      match Enclosing(h, env)
      case None =>
      case Some(p) => GetReadsOlderFrames(h, h', p, other);
    }
  }

  /** The enclosing structure is untouched by writes, so distances mean the
      same frames before and after. */
  lemma {:induction false} AncestorUnchanged(h: Heap, h': Heap, env: nat, d: nat)
    requires Live(h, env) && Live(h', env) && |h.frames| <= |h'.frames|
    requires forall i | 0 <= i < |h.frames| :: h'.frames[i].enclosing == h.frames[i].enclosing
    ensures Depth(h', env) == Depth(h, env)
    ensures d <= Depth(h, env) ==> Ancestor(h', env, d) == Ancestor(h, env, d)
    decreases env
  {
    match Enclosing(h, env)
    case None =>
    case Some(p) =>
      AncestorUnchanged(h, h', p, if d > 0 then d - 1 else 0);
  }

  /** `assignAt(d, name, v)` followed by `getAt(d, name)` yields `v`. */
  lemma AssignAtThenGetAt(h: Heap, env: nat, d: nat, name: string, v: Value)
    requires Live(h, env) && d <= Depth(h, env) && ValueOk(h, v)
    ensures var h' := AssignAt(h, env, d, name, v);
      d <= Depth(h', env) && GetAt(h', env, d, name) == Some(v)
  {
    var h' := AssignAt(h, env, d, name, v);
    AncestorUnchanged(h, h', env, d);
  }

  /** `getAt(d, name)` ignores a binding of the same name in a closer frame. */
  lemma GetAtIgnoresCloserFrames(h: Heap, env: nat, d: nat, name: string, v: Value)
    requires Live(h, env) && 0 < d <= Depth(h, env) && ValueOk(h, v)
    ensures var h' := Define(h, env, name, v);
      d <= Depth(h', env) && GetAt(h', env, d, name) == GetAt(h, env, d, name)
  {
    var h' := Define(h, env, name, v);
    AncestorUnchanged(h, h', env, d);
    assert Ancestor(h, env, d) < env by {
      AncestorAdd(h, env, 1, d - 1);
    }
  }
}
