/** The environment of Lab2/Env.java, written for a checker and an
    interpreter at once: a signature table and a stack of type frames for
    the static pass, a stack of value frames and a table of function
    bodies for the run, a flag saying whether a `return` was executed, and
    the name of the function the environment belongs to. The value type
    is a parameter (`Object` in Java). */
module CombinedEnv {
  import opened Wrappers
  import opened Scopes
  import opened Types
  import opened Syntax

  /** `Env.Flow`. */
  datatype Flow = Normal | Return

  /** Lab2/Function.java: parameter names, body and the definition. */
  datatype Function = Function(params: seq<string>, stmts: seq<Stm>, decl: Def)

  /** The exception a method throws, with the condition it reports. */
  datatype Thrown =
    | TypeException(cause: TypeError)
    | RuntimeException(cause: TypeError)
    | NoSuchElement                      // `getLast` on an empty list

  /** The function table; environments made by `newFunction` share one
      table object with their creator. */
  class FunctionTable {
    var entries: map<string, Function>

    constructor ()
      ensures entries == map[]
    {
      entries := map[];
    }
  }

  const NoFunctionName := "NoFunctionGivenForThisContext"

  class Env<V> {
    var signature: map<string, FunType>
    var contexts: Frames<Type>
    var varContexts: Frames<V>
    var declFunctions: FunctionTable
    var flow: Flow
    const functionName: string

    /** `Env.empty()`: empty tables and stacks, normal flow, no function. */
    constructor Empty()
      ensures signature == map[] && contexts == [] && varContexts == []
      ensures fresh(declFunctions) && declFunctions.entries == map[]
      ensures flow == Normal && functionName == NoFunctionName
    {
      signature := map[];
      contexts := [];
      varContexts := [];
      declFunctions := new FunctionTable();
      flow := Normal;
      functionName := NoFunctionName;
    }

    /** The private constructor `Env(String)` followed by the body of
        `newFunction`: a new environment for `name` sharing this table. */
    constructor ForFunction(name: string, table: FunctionTable)
      ensures signature == map[] && contexts == [map[]] && varContexts == [map[]]
      ensures declFunctions == table && flow == Normal && functionName == name
    {
      signature := map[];
      contexts := [map[]];
      varContexts := [map[]];
      declFunctions := table;
      flow := Normal;
      functionName := name;
    }

    /** The registered signature; an unknown name throws. */
    method LookupFun(id: string) returns (r: Result<FunType, Thrown>)
      ensures r.Ok? <==> id in signature
      ensures r.Ok? ==> r.value == signature[id]
      ensures r.Err? ==> r.error == TypeException(UndefinedFunction(id))
    {
      if id in signature {
        r := Ok(signature[id]);
      } else {
        r := Err(TypeException(UndefinedFunction(id)));
      }
    }

    /** The registered body, from the shared table; an unknown name throws. */
    method LookupFunction(id: string) returns (r: Result<Function, Thrown>)
      ensures r.Ok? <==> id in declFunctions.entries
      ensures r.Ok? ==> r.value == declFunctions.entries[id]
      ensures r.Err? ==> r.error == RuntimeException(UndefinedFunction(id))
    {
      if id in declFunctions.entries {
        r := Ok(declFunctions.entries[id]);
      } else {
        r := Err(RuntimeException(UndefinedFunction(id)));
      }
    }

    /** The type in the innermost type frame holding `id`; none throws. */
    method GetTypeOfVar(id: string) returns (r: Result<Type, Thrown>)
      ensures Lookup(contexts, id).Some? ==> r == Ok(Lookup(contexts, id).value)
      ensures Lookup(contexts, id).None? ==> r == Err(TypeException(UndeclaredVar(id)))
    {
      var i := |contexts|;
      while i > 0
        invariant 0 <= i <= |contexts|
        invariant forall j :: i <= j < |contexts| ==> id !in contexts[j]
      {
        if id in contexts[i - 1] {
          InnermostUnique(contexts, id, i - 1);
          return Ok(contexts[i - 1][id]);
        }
        i := i - 1;
      }
      return Err(TypeException(UndeclaredVar(id)));
    }

    /** The value in the innermost value frame holding `id`; none throws. */
    method LookupVar(id: string) returns (r: Result<V, Thrown>)
      ensures Lookup(varContexts, id).Some? ==> r == Ok(Lookup(varContexts, id).value)
      ensures Lookup(varContexts, id).None? ==> r == Err(RuntimeException(UndeclaredVar(id)))
    {
      var i := |varContexts|;
      while i > 0
        invariant 0 <= i <= |varContexts|
        invariant forall j :: i <= j < |varContexts| ==> id !in varContexts[j]
      {
        if id in varContexts[i - 1] {
          InnermostUnique(varContexts, id, i - 1);
          return Ok(varContexts[i - 1][id]);
        }
        i := i - 1;
      }
      return Err(RuntimeException(UndeclaredVar(id)));
    }

    /** Binds a value in the innermost value frame; a name already bound
        there throws, and so does an empty stack. */
    method DeclareVar(id: string, v: V) returns (r: Outcome<Thrown>)
      modifies this`varContexts
      ensures |old(varContexts)| == 0 ==> r == Fail(NoSuchElement)
      ensures InCurrent(old(varContexts), id) ==> r == Fail(RuntimeException(DuplicateVar(id)))
      ensures r.Fail? ==> varContexts == old(varContexts)
      ensures |old(varContexts)| > 0 && !InCurrent(old(varContexts), id) ==>
                r == Pass && varContexts == Declare(old(varContexts), id, v)
    {
      if |varContexts| == 0 {
        return Fail(NoSuchElement);
      }
      if id in varContexts[|varContexts| - 1] {
        return Fail(RuntimeException(DuplicateVar(id)));
      }
      varContexts := varContexts[|varContexts| - 1 := varContexts[|varContexts| - 1][id := v]];
      return Pass;
    }

    /** `updateVar(String, Type)`: binds a type in the innermost type
        frame; a name already bound there throws, and so does an empty
        stack. */
    method UpdateVarType(id: string, t: Type) returns (r: Outcome<Thrown>)
      modifies this`contexts
      ensures |old(contexts)| == 0 ==> r == Fail(NoSuchElement)
      ensures InCurrent(old(contexts), id) ==> r == Fail(TypeException(DuplicateVar(id)))
      ensures r.Fail? ==> contexts == old(contexts)
      ensures |old(contexts)| > 0 && !InCurrent(old(contexts), id) ==>
                r == Pass && contexts == Declare(old(contexts), id, t)
    {
      if |contexts| == 0 {
        return Fail(NoSuchElement);
      }
      if id in contexts[|contexts| - 1] {
        return Fail(TypeException(DuplicateVar(id)));
      }
      contexts := contexts[|contexts| - 1 := contexts[|contexts| - 1][id := t]];
      return Pass;
    }

    /** `updateVar(String, Object)`: overwrites the value in the nearest
        value frame holding `id`; when no frame holds it, it throws. */
    method UpdateVar(id: string, v: V) returns (r: Outcome<Thrown>)
      modifies this`varContexts
      ensures r.Pass? <==> Lookup(old(varContexts), id).Some?
      ensures r.Pass? ==> varContexts == Rebind(old(varContexts), id, v)
      ensures r.Fail? ==> r.error == RuntimeException(UndeclaredVar(id)) && varContexts == old(varContexts)
    {
      var i := |varContexts|;
      while i > 0
        invariant 0 <= i <= |varContexts|
        invariant forall j :: i <= j < |varContexts| ==> id !in varContexts[j]
      {
        if id in varContexts[i - 1] {
          InnermostUnique(varContexts, id, i - 1);
          varContexts := varContexts[i - 1 := varContexts[i - 1][id := v]];
          return Pass;
        }
        i := i - 1;
      }
      return Fail(RuntimeException(UndeclaredVar(id)));
    }

    /** Registers a signature; a name already registered throws. */
    method UpdateFun(id: string, ft: FunType) returns (r: Outcome<Thrown>)
      modifies this`signature
      ensures r.Fail? <==> id in old(signature)
      ensures r.Fail? ==> r.error == TypeException(DuplicateFunction(id)) && signature == old(signature)
      ensures r.Pass? ==> signature == old(signature)[id := ft]
    {
      if id in signature {
        return Fail(TypeException(DuplicateFunction(id)));
      }
      signature := signature[id := ft];
      return Pass;
    }

    /** Registers a body in the shared table; a name already registered
        throws. Every environment sharing the table sees the new entry. */
    method UpdateFunction(id: string, f: Function) returns (r: Outcome<Thrown>)
      modifies declFunctions
      ensures r.Fail? <==> id in old(declFunctions.entries)
      ensures r.Fail? ==> r.error == TypeException(DuplicateFunction(id)) && declFunctions.entries == old(declFunctions.entries)
      ensures r.Pass? ==> declFunctions.entries == old(declFunctions.entries)[id := f]
    {
      if id in declFunctions.entries {
        return Fail(TypeException(DuplicateFunction(id)));
      }
      declFunctions.entries := declFunctions.entries[id := f];
      return Pass;
    }

    /** The environment of a call of `name`: a new object sharing this
        function table, with one empty frame on each stack, no signatures
        and normal flow. Nothing of this environment changes. */
    method NewFunction(name: string) returns (e: Env<V>)
      ensures fresh(e)
      ensures e.declFunctions == declFunctions && e.functionName == name
      ensures e.contexts == [map[]] && e.varContexts == [map[]]
      ensures e.signature == map[] && e.flow == Normal
    {
      e := new Env<V>.ForFunction(name, declFunctions);
    }

    /** One empty frame on each stack. */
    method NewBlock()
      modifies this`contexts, this`varContexts
      ensures contexts == Push(old(contexts)) && varContexts == Push(old(varContexts))
      ensures |contexts| - |varContexts| == |old(contexts)| - |old(varContexts)|
    {
      contexts := contexts + [map[]];
      varContexts := varContexts + [map[]];
    }

    /** One frame off each stack; an empty stack is left as it is. */
    method ExitBlock()
      modifies this`contexts, this`varContexts
      ensures contexts == Pop(old(contexts)) && varContexts == Pop(old(varContexts))
      ensures |old(contexts)| == |old(varContexts)| ==> |contexts| == |varContexts|
    {
      if |contexts| > 0 {
        contexts := contexts[..|contexts| - 1];
      }
      if |varContexts| > 0 {
        varContexts := varContexts[..|varContexts| - 1];
      }
    }

    method GetFlow() returns (f: Flow)
      ensures f == flow
    {
      f := flow;
    }

    method SetFlow(f: Flow)
      modifies this`flow
      ensures flow == f
    {
      flow := f;
    }
  }

  /** A client of the class: a body registered through the environment of
      a call is visible from the caller's environment too, because the
      two share one table; a name already taken keeps its first body. */
  method RegisterFromCallee<V>(env: Env<V>, name: string, id: string, f: Function) returns (seen: Result<Function, Thrown>)
    modifies env.declFunctions
    ensures seen == Ok(if id in old(env.declFunctions.entries) then old(env.declFunctions.entries[id]) else f)
  {
    var callee := env.NewFunction(name);
    var r := callee.UpdateFunction(id, f);
    seen := env.LookupFunction(id);
  }

  /** A client of the class: the flag reads back what was last set, and a
      new call environment starts with normal flow whatever the caller's. */
  method FlowAcrossCalls<V>(env: Env<V>, name: string) returns (mine: Flow, theirs: Flow)
    modifies env`flow
    ensures mine == Return && theirs == Normal
  {
    env.SetFlow(Return);
    var callee := env.NewFunction(name);
    mine := env.GetFlow();
    theirs := callee.GetFlow();
  }
}
