/** Filters and transforms: xform_incl, xform_excl and xform_transform. */
module Xform {
  import opened Values
  import Lenses

  function XformIncl(info: Info, s: Value): (r: Value)
    requires s.VString?
    ensures r.VFilter? && r.info == info
    ensures r.filter.glob == s.str && r.filter.includes
  {
    VFilter(info, Filter(s.str, true))
  }

  function XformExcl(info: Info, s: Value): (r: Value)
    requires s.VString?
    ensures r.VFilter? && r.info == info
    ensures r.filter.glob == s.str && !r.filter.includes
  {
    VFilter(info, Filter(s.str, false))
  }

  /** incl and excl build the same filter except for its polarity. */
  lemma InclExclDifferInPolarityOnly(info: Info, s: Value)
    requires s.VString?
    ensures XformIncl(info, s).info == XformExcl(info, s).info
    ensures XformIncl(info, s).filter == XformExcl(info, s).filter.(includes := true)
    ensures XformIncl(info, s).filter.includes != XformExcl(info, s).filter.includes
  {
  }

  /** The message of a rejected transform; what is "key" or "value". */
  function TransformMessage(what: string): string {
    "Can not build a transform from a lens that leaves a " + what + " behind"
  }

  function XformTransform(info: Info, l: Value, f: Value): (r: Value)
    requires l.VLens? && f.VFilter?
    ensures r.VExn? <==> l.lens.key || l.lens.value
    ensures r.VExn? ==> r.info == info && r.exn.lines == []
    ensures r.VExn? && l.lens.key ==> r.exn.message == TransformMessage("key")
    ensures r.VExn? && !l.lens.key ==> r.exn.message == TransformMessage("value")
    ensures !r.VExn? ==> r == VTransform(info, Transform(l.lens, f.filter))
  {
    if l.lens.value || l.lens.key then
      MakeExn(info, TransformMessage(if l.lens.key then "key" else "value"))
    else
      VTransform(info, Transform(l.lens, f.filter))
  }

  /** The two rejection messages can be told apart. */
  lemma TransformMessagesDiffer()
    ensures TransformMessage("key") != TransformMessage("value")
  {
  }

  /** A transform over a primitive lens: store, key and label lenses are
      rejected, naming "key" for key and label and "value" for store; del,
      seq and counter lenses are accepted and paired with the filter. Which
      kinds carry the key and value flags is decided by lns_make_prim in
      src/lens.c, which is not part of this model: the split rests on the
      flags Lenses.LeavesKey and Lenses.LeavesValue assume. */
  lemma TransformOfPrimitive(info: Info, l: Value, f: Value)
    requires l.VLens? && f.VFilter? && Lenses.PrimitiveShape(l.lens)
    ensures var r := XformTransform(info, l, f);
      match l.lens.kind
      case Key | Label => r == MakeExn(info, TransformMessage("key"))
      case Store => r == MakeExn(info, TransformMessage("value"))
      case Del | Seq | Counter => r == VTransform(info, Transform(l.lens, f.filter))
  {
  }
}
