/** Applying lenses: lens_get and lens_put, and the memory stream lens_put
    writes into. */
module Engine {
  import opened Wrappers
  import opened Values
  import opened Collaborators
  import opened Exceptions

  /** A growable in-memory output buffer (struct memstream). */
  class MemStream {
    var buf: string
    var closed: bool

    /** init_memstream */
    constructor ()
      ensures buf == [] && !closed
    {
      buf := [];
      closed := false;
    }

    method Write(s: string)
      requires !closed
      modifies this
      ensures buf == old(buf) + s && !closed
    {
      buf := buf + s;
    }

    /** close_memstream: the contents become final. */
    method Close()
      modifies this
      ensures closed && buf == old(buf)
    {
      closed := true;
    }
  }

  /** The lines lens_get appends after the error lines when lns_get left a
      partial tree behind. */
  function PartialTreeLines(tree: seq<Node>, env: Externals): (r: seq<string>)
    ensures tree == [] <==> r == []
  {
    if tree == [] then [] else ["Tree generated so far:", env.printTree(tree)]
  }

  /** What lens_get returns: a new tree value holding what lns_get parsed,
      or an exception built from its error, followed by the partial tree if
      any. */
  twostate predicate LensGetResult(info: Info, l: Lens, text: string, env: Externals, new r: Value)
    reads if r.VTree? then {r.tv} else {}
  {
    var out := env.lnsGet(l, text);
    match out.err
    case None => r.VTree? && fresh(r.tv) && r.tv.info == info && r.tv.tree == out.tree
    case Some(err) =>
      r == VExn(info, Exn(err.message,
                          LnsErrorLines(err, text, env) + PartialTreeLines(out.tree, env)))
  }

  /** lens_get */
  method LensGet(info: Info, l: Value, str: Value, env: Externals) returns (r: Value)
    requires l.VLens? && str.VString?
    ensures LensGetResult(info, l.lens, str.str, env, r)
  {
    var text := str.str;
    var out := env.lnsGet(l.lens, text);
    if out.err.None? {
      var tv := new TreeValue(info, out.tree);
      r := VTree(tv);
    } else {
      r := MakeExnLnsError(info, out.err.value, text, env);
      if out.tree != [] {
        r := ExnPrintfLine(r, "Tree generated so far:");
        r := ExnPrintfLine(r, env.printTree(out.tree));
      }
    }
  }

  /** What lens_put returns: the text lns_put wrote into the stream as a
      new string value, or an exception built from its error against the
      original text, the stream's contents then being discarded. */
  predicate LensPutResult(info: Info, l: Lens, tree: seq<Node>, text: string, env: Externals,
                          r: Value)
  {
    var out := env.lnsPut(l, tree, text);
    match out.err
    case None => r == VString(info, out.output)
    case Some(err) => r == VExn(info, Exn(err.message, LnsErrorLines(err, text, env)))
  }

  /** lens_put */
  method LensPut(info: Info, l: Value, tree: Value, str: Value, env: Externals) returns (r: Value)
    requires l.VLens? && tree.VTree? && str.VString?
    ensures LensPutResult(info, l.lens, tree.tv.tree, str.str, env, r)
  {
    var ms := new MemStream();
    var out := env.lnsPut(l.lens, tree.tv.tree, str.str);
    ms.Write(out.output);
    ms.Close();
    if out.err.None? {
      r := VString(info, ms.buf);
    } else {
      r := MakeExnLnsError(info, out.err.value, str.str, env);
    }
  }
}
