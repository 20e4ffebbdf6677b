/** The functions src/builtin.c calls but does not define (the get and put
    engines, the tree module, the renderers, asprintf). Each is a parameter of
    the model: a field of Externals that gives its outcome for its inputs. */
module Collaborators {
  import opened Wrappers
  import opened Values

  /** A tree whose first sibling exists: what tree_set receives, and, since it
      gets the root by value, what it leaves behind with the same first node. */
  type RootedForest = f: seq<Node> | |f| > 0 witness [Node(None, None, [])]

  /** struct lns_error: pos is a byte offset into the text (negative when
      absent), path a tree path used when pos is negative; the path is a
      C pointer that may be NULL. */
  datatype LnsError = LnsError(message: string, lens: Option<Lens>, pos: int, path: Option<string>)

  /** lns_get: the tree built (possibly partial) and the error, if any. */
  datatype GetOutcome = GetOutcome(tree: seq<Node>, err: Option<LnsError>)

  /** lns_put: the text written to the output stream and the error, if any. */
  datatype PutOutcome = PutOutcome(output: string, err: Option<LnsError>)

  /** tree_set: the tree afterwards, and whether it returned non-NULL. */
  datatype SetOutcome = SetOutcome(forest: RootedForest, ok: bool)

  /** tree_insert and tree_rm: the tree afterwards and the returned code. */
  datatype EditOutcome = EditOutcome(forest: seq<Node>, code: int)

  datatype Externals = Externals(
    lnsGet: (Lens, string) -> GetOutcome,
    lnsPut: (Lens, seq<Node>, string) -> PutOutcome,
    formatInfo: Info -> string,
    formatPos: (string, nat) -> Option<string>,
    printTree: seq<Node> -> string,
    treeSet: (RootedForest, string, string) -> SetOutcome,
    treeInsert: (seq<Node>, string, string, bool) -> EditOutcome,
    treeRm: (seq<Node>, string) -> EditOutcome,
    asprintfFails: bool)
}
