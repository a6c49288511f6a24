/** The type environment of the static pass: a flat table of function
    signatures and a stack of name-to-type frames. This is the `Env` of
    Lab3/Env.java; the private `Env` inside Lab2/TypeChecker.java is the
    same code and the checker below uses this class for it. */
module TypeScopes {
  import opened Wrappers
  import opened Scopes
  import opened Types

  class Env {
    var signature: map<string, FunType>
    var contexts: Frames<Type>

    /** `Env.empty()`: no signatures, no frames. */
    constructor Empty()
      ensures signature == map[] && contexts == []
    {
      signature := map[];
      contexts := [];
    }

    /** The registered signature, or "not defined". */
    method LookupFun(id: string) returns (r: Result<FunType, TypeError>)
      ensures r.Ok? <==> id in signature
      ensures r.Ok? ==> r.value == signature[id]
      ensures r.Err? ==> r.error == UndefinedFunction(id)
    {
      if id in signature {
        r := Ok(signature[id]);
      } else {
        r := Err(UndefinedFunction(id));
      }
    }

    /** Scans the frames from the innermost outwards; the first frame that
        binds `id` gives the answer, and no such frame is an error. */
    method LookupVar(id: string) returns (r: Result<Type, TypeError>)
      ensures Lookup(contexts, id).Some? ==> r == Ok(Lookup(contexts, id).value)
      ensures Lookup(contexts, id).None? ==> r == Err(UndeclaredVar(id))
    {
      var i := |contexts|;
      while i > 0
        invariant 0 <= i <= |contexts|
        invariant forall j :: i <= j < |contexts| ==> id !in contexts[j]
      {
        if id in contexts[i - 1] {
          InnermostUnique(contexts, id, i - 1);
          return Ok(contexts[i - 1][id]);
        }
        i := i - 1;
      }
      return Err(UndeclaredVar(id));
    }

    /** Declares `id` in the innermost frame, failing when that frame
        already binds it; outer frames do not matter (shadowing). With no
        frame at all there is no innermost frame and it fails too. */
    method UpdateVar(id: string, t: Type) returns (r: Outcome<TypeError>)
      modifies this
      ensures |old(contexts)| == 0 ==> r == Fail(NoFrame)
      ensures |old(contexts)| > 0 ==> (r.Fail? <==> InCurrent(old(contexts), id))
      ensures |old(contexts)| > 0 && r.Fail? ==> r.error == DuplicateVar(id)
      ensures r.Fail? ==> contexts == old(contexts)
      ensures r.Pass? ==> contexts == Declare(old(contexts), id, t)
      ensures signature == old(signature)
    {
      if |contexts| == 0 {
        r := Fail(NoFrame);
      } else if id in contexts[|contexts| - 1] {
        r := Fail(DuplicateVar(id));
      } else {
        contexts := contexts[|contexts| - 1 := contexts[|contexts| - 1][id := t]];
        r := Pass;
      }
    }

    /** Registers a signature, failing when the name is already taken. */
    method UpdateFun(id: string, ft: FunType) returns (r: Outcome<TypeError>)
      modifies this
      ensures r.Fail? <==> id in old(signature)
      ensures r.Fail? ==> r.error == DuplicateFunction(id) && signature == old(signature)
      ensures r.Pass? ==> signature == old(signature)[id := ft]
      ensures contexts == old(contexts)
    {
      if id in signature {
        r := Fail(DuplicateFunction(id));
      } else {
        signature := signature[id := ft];
        r := Pass;
      }
    }

    method NewBlock()
      modifies this
      ensures contexts == Push(old(contexts)) && signature == old(signature)
    {
      contexts := contexts + [map[]];
    }

    /** Drops the innermost frame; with no frame it does nothing. */
    method ExitBlock()
      modifies this
      ensures contexts == Pop(old(contexts)) && signature == old(signature)
    {
      if |contexts| > 0 {
        contexts := contexts[..|contexts| - 1];
      }
    }
  }

  /** A client of the class: after `NewBlock`, a name bound further out can
      be declared again and lookup sees the new type; after `ExitBlock`,
      the stack is exactly what it was and lookup sees the outer type. */
  method ShadowThenExit(env: Env, id: string, t: Type) returns (inner: Result<Type, TypeError>, outer: Result<Type, TypeError>)
    modifies env
    ensures inner == Ok(t)
    ensures env.contexts == old(env.contexts) && env.signature == old(env.signature)
    ensures outer == (if Lookup(old(env.contexts), id).Some? then Ok(Lookup(old(env.contexts), id).value) else Err(UndeclaredVar(id)))
  {
    ghost var before := env.contexts;
    env.NewBlock();
    var r := env.UpdateVar(id, t);
    Shadowing(before, id, t);
    inner := env.LookupVar(id);
    env.ExitBlock();
    outer := env.LookupVar(id);
  }
}
