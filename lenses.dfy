/** The primitive lens constructors lns_del, lns_store, lns_key, lns_label,
    lns_seq and lns_counter. */
module Lenses {
  import opened Wrappers
  import opened Values

  /** Kinds built over a regexp. */
  predicate CarriesRegexp(k: LensKind) {
    k == Del || k == Store || k == Key
  }

  /** Kinds built over a string (del's default, label's literal, the counter
      name of seq and counter). */
  predicate CarriesString(k: LensKind) {
    k == Del || k == Label || k == Seq || k == Counter
  }

  /** Kinds whose application deposits a tree label. */
  predicate LeavesKey(k: LensKind) {
    k == Key || k == Label
  }

  /** Kinds whose application deposits a tree value. */
  predicate LeavesValue(k: LensKind) {
    k == Store
  }

  /** The shape every primitive lens has: which of regexp and string it owns
      and which flags it carries are fixed by its kind. */
  predicate PrimitiveShape(l: Lens) {
    (l.regexp.Some? <==> CarriesRegexp(l.kind)) &&
    (l.str.Some? <==> CarriesString(l.kind)) &&
    (l.key <==> LeavesKey(l.kind)) &&
    (l.value <==> LeavesValue(l.kind))
  }

  /** lns_make_prim: a V_LENS value over a new primitive lens. Its code, in
      src/lens.c, is not part of this model; the key and value flags it sets
      are taken to be LeavesKey and LeavesValue of the kind. */
  function MakePrim(kind: LensKind, info: Info, regexp: Option<Regexp>, str: Option<string>): Value {
    VLens(info, Lens(kind, info, regexp, str, LeavesKey(kind), LeavesValue(kind)))
  }

  function LnsDel(info: Info, rxp: Value, dflt: Value): (r: Value)
    requires rxp.VRegexp? && dflt.VString?
    ensures r.VLens? && r.info == info && r.lens.info == info
    ensures r.lens.kind == Del && PrimitiveShape(r.lens)
    ensures r.lens.regexp == Some(rxp.rx) && r.lens.str == Some(dflt.str)
  {
    MakePrim(Del, info, Some(rxp.rx), Some(dflt.str))
  }

  function LnsStore(info: Info, rxp: Value): (r: Value)
    requires rxp.VRegexp?
    ensures r.VLens? && r.info == info && r.lens.info == info
    ensures r.lens.kind == Store && PrimitiveShape(r.lens)
    ensures r.lens.regexp == Some(rxp.rx)
  {
    MakePrim(Store, info, Some(rxp.rx), None)
  }

  function LnsKey(info: Info, rxp: Value): (r: Value)
    requires rxp.VRegexp?
    ensures r.VLens? && r.info == info && r.lens.info == info
    ensures r.lens.kind == Key && PrimitiveShape(r.lens)
    ensures r.lens.regexp == Some(rxp.rx)
  {
    MakePrim(Key, info, Some(rxp.rx), None)
  }

  function LnsLabel(info: Info, str: Value): (r: Value)
    requires str.VString?
    ensures r.VLens? && r.info == info && r.lens.info == info
    ensures r.lens.kind == Label && PrimitiveShape(r.lens)
    ensures r.lens.str == Some(str.str)
  {
    MakePrim(Label, info, None, Some(str.str))
  }

  function LnsSeq(info: Info, str: Value): (r: Value)
    requires str.VString?
    ensures r.VLens? && r.info == info && r.lens.info == info
    ensures r.lens.kind == Seq && PrimitiveShape(r.lens)
    ensures r.lens.str == Some(str.str)
  {
    MakePrim(Seq, info, None, Some(str.str))
  }

  function LnsCounter(info: Info, str: Value): (r: Value)
    requires str.VString?
    ensures r.VLens? && r.info == info && r.lens.info == info
    ensures r.lens.kind == Counter && PrimitiveShape(r.lens)
    ensures r.lens.str == Some(str.str)
  {
    MakePrim(Counter, info, None, Some(str.str))
  }
}
