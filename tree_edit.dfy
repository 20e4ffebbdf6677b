/** The tree-editing glue: tree_set_glue, tree_insert_glue with its two
    wrappers tree_insa_glue and tree_insb_glue, and tree_rm_glue. Each edits
    the tree value it is given in place and hands back that same value, so
    every other holder of the value sees the edit. */
module TreeEdit {
  import opened Wrappers
  import opened Values
  import opened Collaborators

  /** The temporary root make_tree(NULL, NULL, NULL, NULL) builds. */
  const Scaffold: Node := Node(None, None, [])

  function SetMessage(path: string, value: string): string {
    "Tree set of " + path + " to '" + value + "' failed"
  }

  function InsertMessage(newLabel: string, path: string): string {
    "Tree insert of " + newLabel + " at " + path + " failed"
  }

  function RmMessage(path: string): string {
    "Tree rm of " + path + " failed"
  }

  /** The tree tree_set works on: the tree itself, or a lone scaffold root
      standing in for an empty one. */
  function SetRoot(tree: seq<Node>): (r: RootedForest)
    ensures tree != [] ==> r == tree
    ensures tree == [] ==> r == [Scaffold]
  {
    if tree == [] then [Scaffold] else tree
  }

  /** What tree_set_glue leaves behind. On success the same tree value
      comes back, and if the tree was empty the scaffold, still the first
      sibling since tree_set cannot move the head of the list it is given, is
      unlinked again. On failure an exception names the path and value, and
      the tree keeps whatever tree_set left, scaffold included. */
  twostate predicate SetResult(info: Info, path: string, val: string, tree: Value,
                               env: Externals, new r: Value)
    requires tree.VTree?
    reads tree.tv
  {
    var out := env.treeSet(SetRoot(old(tree.tv.tree)), path, val);
    if out.ok then
      r == tree &&
      tree.tv.tree == (if old(tree.tv.tree) == [] then out.forest[1..] else out.forest)
    else
      r == MakeExn(info, SetMessage(path, val)) && tree.tv.tree == out.forest
  }

  /** What tree_insert_glue leaves behind: the tree holds what tree_insert
      made of it; a code other than 0 is a failure, reported by an exception
      naming the label and the path, and 0 returns the same tree value. */
  twostate predicate InsertResult(info: Info, newLabel: string, path: string, tree: Value,
                                  before: bool, env: Externals, new r: Value)
    requires tree.VTree?
    reads tree.tv
  {
    var out := env.treeInsert(old(tree.tv.tree), path, newLabel, before);
    tree.tv.tree == out.forest &&
    if out.code == 0 then r == tree
    else r == MakeExn(info, InsertMessage(newLabel, path))
  }

  /** What tree_rm_glue leaves behind: the tree holds what tree_rm made of
      it; only the code -1 is a failure, reported by an exception naming the
      path, and any other code returns the same tree value. */
  twostate predicate RmResult(info: Info, path: string, tree: Value, env: Externals, new r: Value)
    requires tree.VTree?
    reads tree.tv
  {
    var out := env.treeRm(old(tree.tv.tree), path);
    tree.tv.tree == out.forest &&
    if out.code == -1 then r == MakeExn(info, RmMessage(path))
    else r == tree
  }

  /** tree_set_glue */
  method TreeSetGlue(info: Info, path: Value, val: Value, tree: Value, env: Externals)
      returns (r: Value)
    requires path.VString? && val.VString? && tree.VTree?
    modifies tree.tv
    ensures SetResult(info, path.str, val.str, tree, env, r)
  {
    var scaffolded := false;
    if tree.tv.tree == [] {
      tree.tv.tree := [Scaffold];
      scaffolded := true;
    }
    var out := env.treeSet(tree.tv.tree, path.str, val.str);
    tree.tv.tree := out.forest;
    if !out.ok {
      return MakeExn(info, SetMessage(path.str, val.str));
    }
    if scaffolded {
      // list_remove(fake, tree->tree): the scaffold is the head of the list
      tree.tv.tree := tree.tv.tree[1..];
    }
    r := tree;
  }

  /** tree_insert_glue */
  method TreeInsertGlue(info: Info, newLabel: Value, path: Value, tree: Value, before: bool,
                        env: Externals) returns (r: Value)
    requires newLabel.VString? && path.VString? && tree.VTree?
    modifies tree.tv
    ensures InsertResult(info, newLabel.str, path.str, tree, before, env, r)
  {
    var out := env.treeInsert(tree.tv.tree, path.str, newLabel.str, before);
    tree.tv.tree := out.forest;
    if out.code != 0 {
      return MakeExn(info, InsertMessage(newLabel.str, path.str));
    }
    r := tree;
  }

  /** tree_insa_glue: insert after, before = 0. */
  method TreeInsaGlue(info: Info, newLabel: Value, path: Value, tree: Value, env: Externals)
      returns (r: Value)
    requires newLabel.VString? && path.VString? && tree.VTree?
    modifies tree.tv
    ensures InsertResult(info, newLabel.str, path.str, tree, false, env, r)
  {
    r := TreeInsertGlue(info, newLabel, path, tree, false, env);
  }

  /** tree_insb_glue: insert before, before = 1. */
  method TreeInsbGlue(info: Info, newLabel: Value, path: Value, tree: Value, env: Externals)
      returns (r: Value)
    requires newLabel.VString? && path.VString? && tree.VTree?
    modifies tree.tv
    ensures InsertResult(info, newLabel.str, path.str, tree, true, env, r)
  {
    r := TreeInsertGlue(info, newLabel, path, tree, true, env);
  }

  /** tree_rm_glue */
  method TreeRmGlue(info: Info, path: Value, tree: Value, env: Externals) returns (r: Value)
    requires path.VString? && tree.VTree?
    modifies tree.tv
    ensures RmResult(info, path.str, tree, env, r)
  {
    var out := env.treeRm(tree.tv.tree, path.str);
    tree.tv.tree := out.forest;
    if out.code == -1 {
      return MakeExn(info, RmMessage(path.str));
    }
    r := tree;
  }
}
