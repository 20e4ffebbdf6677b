/** The native-call boundary of the "Builtin" module: a call names a
    registered native and passes its arguments; the arguments are checked
    against the native's signature before the C function bound to it runs. */
module Builtin {
  import opened Wrappers
  import opened Values
  import opened Collaborators
  import opened Signatures
  import Lenses
  import Engine
  import TreeEdit
  import Xform
  import Symbols

  /** What a call produces: a value, no value (gensym when asprintf fails),
      or a contract violation where the C code would fail an assert. */
  datatype CallResult =
    | Returned(value: Value)
    | NoValue
    | ContractViolation(violation: Violation)

  /** The tree values among the arguments: the only objects a call edits. */
  function TreesOf(args: seq<Value>): set<TreeValue> {
    set i | 0 <= i < |args| && args[i].VTree? :: args[i].tv
  }

  /** A native's result: a value carrying the declared result tag, or an
      exception. */
  predicate Conforms(n: Registered, v: Value) {
    v.VExn? || TagOf(v) == ResultTag(n)
  }

  /** The natives that only build a value from their arguments. */
  predicate BuildsValue(p: Prim) {
    p in {PDel, PStore, PKey, PLabel, PSeq, PCounter, PIncl, PExcl, PTransform}
  }

  /** The natives that edit the tree value they are given. */
  predicate EditsTree(p: Prim) {
    p in {PSet, PRm, PInsa, PInsb}
  }

  /** The lens, filter and transform natives: each is bound to the primitive
      of the same name. */
  function ApplyBuilder(n: Registered, info: Info, args: seq<Value>): (v: Value)
    requires Matches(n, args) && BuildsValue(n.prim)
    ensures Conforms(n, v)
    ensures n.prim == PDel ==> v == Lenses.LnsDel(info, args[0], args[1])
    ensures n.prim == PStore ==> v == Lenses.LnsStore(info, args[0])
    ensures n.prim == PKey ==> v == Lenses.LnsKey(info, args[0])
    ensures n.prim == PLabel ==> v == Lenses.LnsLabel(info, args[0])
    ensures n.prim == PSeq ==> v == Lenses.LnsSeq(info, args[0])
    ensures n.prim == PCounter ==> v == Lenses.LnsCounter(info, args[0])
    ensures n.prim == PIncl ==> v == Xform.XformIncl(info, args[0])
    ensures n.prim == PExcl ==> v == Xform.XformExcl(info, args[0])
    ensures n.prim == PTransform ==> v == Xform.XformTransform(info, args[0], args[1])
  {
    match n.prim
    case PDel => Lenses.LnsDel(info, args[0], args[1])
    case PStore => Lenses.LnsStore(info, args[0])
    case PKey => Lenses.LnsKey(info, args[0])
    case PLabel => Lenses.LnsLabel(info, args[0])
    case PSeq => Lenses.LnsSeq(info, args[0])
    case PCounter => Lenses.LnsCounter(info, args[0])
    case PIncl => Xform.XformIncl(info, args[0])
    case PExcl => Xform.XformExcl(info, args[0])
    case PTransform => Xform.XformTransform(info, args[0], args[1])
  }

  /** What get and put return: lens_get on the lens and the text, lens_put
      on the lens, the tree as it was passed, and the text. */
  twostate predicate EngineResult(n: Registered, info: Info, args: seq<Value>, env: Externals,
                                  new v: Value)
    requires Matches(n, args) && (n.prim == PGet || n.prim == PPut)
    reads if v.VTree? then {v.tv} else {}
  {
    if n.prim == PGet then
      Engine.LensGetResult(info, args[0].lens, args[1].str, env, v)
    else
      Engine.LensPutResult(info, args[0].lens, old(args[1].tv.tree), args[2].str, env, v)
  }

  method ApplyEngine(n: Registered, info: Info, args: seq<Value>, env: Externals) returns (v: Value)
    requires Matches(n, args) && (n.prim == PGet || n.prim == PPut)
    ensures Conforms(n, v)
    ensures EngineResult(n, info, args, env, v)
  {
    if n.prim == PGet {
      v := Engine.LensGet(info, args[0], args[1], env);
    } else {
      v := Engine.LensPut(info, args[0], args[1], args[2], env);
    }
  }

  /** What set, rm, insa and insb do to the tree argument and return:
      tree_set_glue, tree_rm_glue, and tree_insert_glue inserting after
      (insa) or before (insb). */
  twostate predicate EditResult(n: Registered, info: Info, args: seq<Value>, env: Externals,
                                new v: Value)
    requires Matches(n, args) && EditsTree(n.prim)
    reads TreesOf(args)
  {
    match n.prim
    case PSet =>
      assert args[2].tv in TreesOf(args);
      TreeEdit.SetResult(info, args[0].str, args[1].str, args[2], env, v)
    case PRm =>
      assert args[1].tv in TreesOf(args);
      TreeEdit.RmResult(info, args[0].str, args[1], env, v)
    case PInsa =>
      assert args[2].tv in TreesOf(args);
      TreeEdit.InsertResult(info, args[0].str, args[1].str, args[2], false, env, v)
    case PInsb =>
      assert args[2].tv in TreesOf(args);
      TreeEdit.InsertResult(info, args[0].str, args[1].str, args[2], true, env, v)
  }

  method ApplyTreeEdit(n: Registered, info: Info, args: seq<Value>, env: Externals) returns (v: Value)
    requires Matches(n, args) && EditsTree(n.prim)
    modifies TreesOf(args)
    ensures Conforms(n, v)
    ensures EditResult(n, info, args, env, v)
  {
    match n.prim {
      case PSet =>
        assert args[2].tv in TreesOf(args);
        v := TreeEdit.TreeSetGlue(info, args[0], args[1], args[2], env);
      case PRm =>
        assert args[1].tv in TreesOf(args);
        v := TreeEdit.TreeRmGlue(info, args[0], args[1], env);
      case PInsa =>
        assert args[2].tv in TreesOf(args);
        v := TreeEdit.TreeInsaGlue(info, args[0], args[1], args[2], env);
      case PInsb =>
        assert args[2].tv in TreesOf(args);
        v := TreeEdit.TreeInsbGlue(info, args[0], args[1], args[2], env);
    }
  }

  /** What gensym returns: the prefix followed by "0", or no value when
      asprintf fails. */
  function GensymResult(info: Info, args: seq<Value>, env: Externals): CallResult
    requires |args| == 1 && args[0].VString?
  {
    if env.asprintfFails then NoValue else Returned(VString(info, args[0].str + "0"))
  }

  method ApplyGensym(n: Registered, info: Info, args: seq<Value>, counter: Symbols.Counter,
                     env: Externals) returns (r: CallResult)
    requires Matches(n, args) && n.prim == PGensym && counter.Valid()
    ensures r.Returned? ==> Conforms(n, r.value)
    ensures r == GensymResult(info, args, env)
  {
    var g := Symbols.Gensym(info, args[0], counter, env.asprintfFails);
    r := if g.Some? then Returned(g.value) else NoValue;
  }

  /** What the C function bound to a native does, once the arguments have
      passed the check: gensym, the lens, filter and transform builders, the
      tree-editing glue, or lens_get and lens_put. */
  twostate predicate Dispatched(n: Registered, info: Info, args: seq<Value>, env: Externals,
                                new r: CallResult)
    requires Matches(n, args)
    reads TreesOf(args), if r.Returned? && r.value.VTree? then {r.value.tv} else {}
  {
    if n.prim == PGensym then r == GensymResult(info, args, env)
    else if BuildsValue(n.prim) then r == Returned(ApplyBuilder(n, info, args))
    else if EditsTree(n.prim) then r.Returned? && EditResult(n, info, args, env, r.value)
    else r.Returned? && EngineResult(n, info, args, env, r.value)
  }

  /** Runs the C function bound to a native whose arguments passed the
      check. Only set, rm, insa and insb touch the tree values among the
      arguments; only gensym can return no value. */
  method Dispatch(n: Registered, info: Info, args: seq<Value>, counter: Symbols.Counter,
                  env: Externals) returns (r: CallResult)
    requires Matches(n, args) && counter.Valid()
    modifies TreesOf(args)
    ensures Dispatched(n, info, args, env, r)
    ensures !r.ContractViolation?
    ensures r.Returned? ==> Conforms(n, r.value)
    ensures r.NoValue? <==> n.prim == PGensym && env.asprintfFails
    ensures !EditsTree(n.prim) ==> unchanged(TreesOf(args))
  {
    if n.prim == PGensym {
      r := ApplyGensym(n, info, args, counter, env);
    } else if BuildsValue(n.prim) {
      r := Returned(ApplyBuilder(n, info, args));
    } else if EditsTree(n.prim) {
      var v := ApplyTreeEdit(n, info, args, env);
      r := Returned(v);
    } else {
      var v := ApplyEngine(n, info, args, env);
      r := Returned(v);
    }
  }

  /** A call into a native: a contract violation exactly when the call does
      not pass CheckCall; otherwise what the C function bound to the native
      does, whose result carries the declared result tag unless it is an
      exception. Only set, rm, insa and insb touch the tree values among the
      arguments. */
  method Call(name: string, info: Info, args: seq<Value>, counter: Symbols.Counter,
              env: Externals) returns (r: CallResult)
    requires counter.Valid()
    modifies TreesOf(args)
    ensures r.ContractViolation? <==> CheckCall(name, args).Failure?
    ensures r.ContractViolation? ==> r.violation == CheckCall(name, args).error
    ensures CheckCall(name, args).Success? ==>
              Dispatched(CheckCall(name, args).value, info, args, env, r)
    ensures r.Returned? ==> Conforms(CheckCall(name, args).value, r.value)
    ensures r.NoValue? <==>
              CheckCall(name, args).Success? && CheckCall(name, args).value.prim == PGensym &&
              env.asprintfFails
    ensures !(CheckCall(name, args).Success? && EditsTree(CheckCall(name, args).value.prim)) ==>
              unchanged(TreesOf(args))
  {
    var checked := CheckCall(name, args);
    if checked.Failure? {
      return ContractViolation(checked.error);
    }
    r := Dispatch(checked.value, info, args, counter, env);
  }
}
