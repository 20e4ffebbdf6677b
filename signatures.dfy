/** The registration table of builtin_init: each native's name, arity, the
    tags define_native receives and the C function it is bound to. */
module Signatures {
  import opened Wrappers
  import opened Values

  /** The C functions a native can be bound to. */
  datatype Prim =
    | PGensym | PDel | PStore | PKey | PLabel | PSeq | PCounter
    | PGet | PPut | PSet | PRm | PInsa | PInsb | PIncl | PExcl | PTransform

  /** A define_native call: tags are its variadic type tags. */
  datatype Native = Native(name: string, arity: nat, prim: Prim, tags: seq<Tag>)

  /** The type chain written above each C function (V_REGEXP -> V_STRING ->
      V_LENS for lns_del): its argument tags, then its result tag. */
  function Declared(p: Prim): seq<Tag> {
    match p
    case PGensym => [TString, TString]
    case PDel => [TRegexp, TString, TLens]
    case PStore => [TRegexp, TLens]
    case PKey => [TRegexp, TLens]
    case PLabel => [TString, TLens]
    case PSeq => [TString, TLens]
    case PCounter => [TString, TLens]
    case PGet => [TLens, TString, TTree]
    case PPut => [TLens, TTree, TString, TString]
    case PSet => [TString, TString, TTree, TTree]
    case PRm => [TString, TTree, TTree]
    case PInsa => [TString, TString, TTree, TTree]
    case PInsb => [TString, TString, TTree, TTree]
    case PIncl => [TString, TFilter]
    case PExcl => [TString, TFilter]
    case PTransform => [TLens, TFilter, TTransform]
  }

  /** A registration define_native can read: exactly arity argument tags
      followed by one result tag, agreeing with its function's type chain. */
  type Registered = n: Native | |n.tags| == n.arity + 1 && n.tags == Declared(n.prim)
    witness Native("gensym", 1, PGensym, [TString, TString])

  function ArgTags(n: Registered): (r: seq<Tag>)
    ensures |r| == n.arity && r + [ResultTag(n)] == n.tags
  {
    n.tags[..n.arity]
  }

  function ResultTag(n: Registered): Tag {
    n.tags[n.arity]
  }

  datatype Module = Module(name: string, natives: seq<Registered>)

  /** The define_native calls of builtin_init, one per native. */
  const GensymNative: Registered := Native("gensym", 1, PGensym, [TString, TString])
  const DelNative: Registered := Native("del", 2, PDel, [TRegexp, TString, TLens])
  const StoreNative: Registered := Native("store", 1, PStore, [TRegexp, TLens])
  const KeyNative: Registered := Native("key", 1, PKey, [TRegexp, TLens])
  const LabelNative: Registered := Native("label", 1, PLabel, [TString, TLens])
  const SeqNative: Registered := Native("seq", 1, PSeq, [TString, TLens])
  const CounterNative: Registered := Native("counter", 1, PCounter, [TString, TLens])
  const GetNative: Registered := Native("get", 2, PGet, [TLens, TString, TTree])
  const PutNative: Registered := Native("put", 3, PPut, [TLens, TTree, TString, TString])
  const SetNative: Registered := Native("set", 3, PSet, [TString, TString, TTree, TTree])
  const RmNative: Registered := Native("rm", 2, PRm, [TString, TTree, TTree])
  const InsaNative: Registered := Native("insa", 3, PInsa, [TString, TString, TTree, TTree])
  const InsbNative: Registered := Native("insb", 3, PInsb, [TString, TString, TTree, TTree])
  const InclNative: Registered := Native("incl", 1, PIncl, [TString, TFilter])
  const ExclNative: Registered := Native("excl", 1, PExcl, [TString, TFilter])
  const TransformNative: Registered := Native("transform", 2, PTransform, [TLens, TFilter, TTransform])

  /** builtin_init: the module "Builtin" with its sixteen natives, in
      registration order. */
  function BuiltinInit(): (m: Module)
    ensures m.name == "Builtin" && |m.natives| == 16
  {
    Module("Builtin", [
      GensymNative, DelNative, StoreNative, KeyNative,
      LabelNative, SeqNative, CounterNative, GetNative,
      PutNative, SetNative, RmNative, InsaNative,
      InsbNative, InclNative, ExclNative, TransformNative
    ])
  }

  /** The first native of the list registered under name. */
  function Find(natives: seq<Registered>, name: string): (r: Option<Registered>)
    ensures r.Some? ==> r.value in natives && r.value.name == name
    ensures r.None? <==> forall n <- natives :: n.name != name
  {
    if natives == [] then None
    else if natives[0].name == name then Some(natives[0])
    else Find(natives[1..], name)
  }

  function Lookup(name: string): (r: Option<Registered>)
    ensures r.Some? ==> r.value in BuiltinInit().natives && r.value.name == name
    ensures r.None? <==> forall n <- BuiltinInit().natives :: n.name != name
  {
    Find(BuiltinInit().natives, name)
  }

  /** Why a call may not proceed into a native. */
  datatype Violation =
    | UnknownNative(name: string)
    | ArityMismatch(arity: nat, count: nat)
    | TagMismatch(index: nat, expected: Tag, given: Tag)

  /** The arguments have the native's arity and each carries its declared tag. */
  predicate Matches(n: Registered, args: seq<Value>) {
    |args| == n.arity &&
    forall i :: 0 <= i < |args| ==> TagOf(args[i]) == n.tags[i]
  }

  /** The first position at or after from whose argument has the wrong tag. */
  function FirstMismatch(tags: seq<Tag>, args: seq<Value>, from: nat): (r: Option<nat>)
    requires |args| <= |tags| && from <= |args|
    ensures r.None? <==> forall i :: from <= i < |args| ==> TagOf(args[i]) == tags[i]
    ensures r.Some? ==> from <= r.value < |args| && TagOf(args[r.value]) != tags[r.value]
    ensures r.Some? ==> forall i :: from <= i < r.value ==> TagOf(args[i]) == tags[i]
    decreases |args| - from
  {
    if from == |args| then None
    else if TagOf(args[from]) != tags[from] then Some(from)
    else FirstMismatch(tags, args, from + 1)
  }

  /** The check a call goes through before a native runs: the name must be
      registered, the arity must agree, and every argument must carry its
      declared tag; otherwise the first violation is reported. */
  function CheckCall(name: string, args: seq<Value>): (r: Result<Registered, Violation>)
    ensures Lookup(name).None? ==> r == Failure(UnknownNative(name))
    ensures Lookup(name).Some? ==> (r.Success? <==> Matches(Lookup(name).value, args))
    ensures r.Success? ==> r.value == Lookup(name).value
    ensures r.Failure? ==> (r.error.UnknownNative? <==> Lookup(name).None?)
    ensures r.Failure? && Lookup(name).Some? && |args| != Lookup(name).value.arity ==>
              r.error == ArityMismatch(Lookup(name).value.arity, |args|)
    ensures r.Failure? && Lookup(name).Some? && |args| == Lookup(name).value.arity ==>
              r.error.TagMismatch?
    ensures r.Failure? && r.error.TagMismatch? ==>
              var n := Lookup(name).value;
              var k := r.error.index;
              k < |args| == n.arity && r.error.expected == n.tags[k] && r.error.given == TagOf(args[k]) &&
              n.tags[k] != TagOf(args[k]) &&
              forall i :: 0 <= i < k ==> TagOf(args[i]) == n.tags[i]
  {
    match Lookup(name)
    case None => Failure(UnknownNative(name))
    case Some(n) =>
      if |args| != n.arity then Failure(ArityMismatch(n.arity, |args|))
      else
        match FirstMismatch(n.tags, args, 0)
        case None => Success(n)
        case Some(k) => Failure(TagMismatch(k, n.tags[k], TagOf(args[k])))
  }

  predicate DistinctNames(natives: seq<Registered>) {
    forall i, j :: 0 <= i < j < |natives| ==> natives[i].name != natives[j].name
  }

  /** The names builtin_init registers, in registration order. */
  const RegisteredNames: seq<string> := ["gensym", "del", "store", "key", "label", "seq",
    "counter", "get", "put", "set", "rm", "insa", "insb", "incl", "excl", "transform"]

  /** The table registers exactly RegisteredNames, in that order. */
  lemma TableNames()
    ensures |BuiltinInit().natives| == |RegisteredNames|
    ensures forall i :: 0 <= i < |RegisteredNames| ==>
              BuiltinInit().natives[i].name == RegisteredNames[i]
  {
  }

  /** No two natives are registered under the same name, so a name
      designates exactly one native. */
  lemma BuiltinNamesDistinct()
    ensures DistinctNames(BuiltinInit().natives)
  {
    TableNames();
    forall i, j | 0 <= i < j < |RegisteredNames| ensures RegisteredNames[i] != RegisteredNames[j] {
      var a, b := RegisteredNames[i], RegisteredNames[j];
      assert |a| != |b| || a[0] != b[0] || a[|a| - 1] != b[|b| - 1];
    }
  }
}
