/** The tagged values of the lens language that the native primitives of
    src/builtin.c receive and return. */
module Values {
  import opened Wrappers

  /** Runtime tags (V_STRING, V_REGEXP, ...). The type tags T_STRING, ... of a
      native's signature correspond to the first six one to one. */
  datatype Tag = TString | TRegexp | TLens | TTree | TFilter | TTransform | TExn

  /** Source location attached to values and lenses, used only in diagnostics. */
  datatype Info = Info(filename: string, firstLine: nat, lastLine: nat)

  datatype Regexp = Regexp(pattern: string)

  /** The primitive lens kinds L_DEL, L_STORE, L_KEY, L_LABEL, L_SEQ, L_COUNTER. */
  datatype LensKind = Del | Store | Key | Label | Seq | Counter

  /** A lens node: its kind, its location, the regexp and string it owns, and
      whether applying it leaves a tree label (key) or tree value (value) behind. */
  datatype Lens = Lens(kind: LensKind, info: Info, regexp: Option<Regexp>,
                       str: Option<string>, key: bool, value: bool)

  /** A tree node with its label (name), value and children; a tree is the
      ordered list of its top-level siblings, and the empty list is NULL. */
  datatype Node = Node(name: Option<string>, value: Option<string>, children: seq<Node>)

  /** A file-path pattern; includes is the polarity (1 for incl, 0 for excl). */
  datatype Filter = Filter(glob: string, includes: bool)

  datatype Transform = Transform(lens: Lens, filter: Filter)

  /** An exception: its message and the diagnostic lines appended after it. */
  datatype Exn = Exn(message: string, lines: seq<string>)

  /** A V_TREE value. Its tree field is updated in place by the tree-editing
      primitives, and every holder of the value sees the update. */
  class TreeValue {
    const info: Info
    var tree: seq<Node>

    constructor (info: Info, tree: seq<Node>)
      ensures this.info == info && this.tree == tree
    {
      this.info := info;
      this.tree := tree;
    }
  }

  datatype Value =
    | VString(info: Info, str: string)
    | VRegexp(info: Info, rx: Regexp)
    | VLens(info: Info, lens: Lens)
    | VTree(tv: TreeValue)
    | VFilter(info: Info, filter: Filter)
    | VTransform(info: Info, xf: Transform)
    | VExn(info: Info, exn: Exn)

  function TagOf(v: Value): Tag {
    match v
    case VString(_, _) => TString
    case VRegexp(_, _) => TRegexp
    case VLens(_, _) => TLens
    case VTree(_) => TTree
    case VFilter(_, _) => TFilter
    case VTransform(_, _) => TTransform
    case VExn(_, _) => TExn
  }

  /** make_exn_value: an exception carrying only its message. */
  function MakeExn(info: Info, message: string): Value {
    VExn(info, Exn(message, []))
  }
}
