# Augeas builtin primitives, modelled in Dafny

This project models `src/builtin.c` of Augeas. That file is the boundary between the
dynamically typed values of the lens language and the natively implemented primitives.
The model covers six parts of it:

- **The registration table of `builtin_init`.** Each native has a name, an arity, the
  variadic type tags given to `define_native`, and the C function it is bound to.
  `Signatures.Registered` is a subset type. It makes the verifier check that every
  registration carries exactly `arity` argument tags plus one result tag. It also checks
  that those tags agree with the type chain written above the C function
  (`V_REGEXP -> V_STRING -> V_LENS` above `lns_del`).
- **Typed dispatch.** `Builtin.Call` looks the name up and checks the arity and each
  argument's tag (`Signatures.CheckCall`). If the check fails, it returns a
  `ContractViolation` instead of failing an `assert`. Each primitive keeps its `assert`s as
  `requires` clauses. The verifier proves that the dispatcher only calls a primitive after
  the check has passed, and that every result carries the declared result tag unless it is
  an exception.
- **Primitive lens constructors** (`del`, `store`, `key`, `label`, `seq`, `counter`). The
  kind fixes which of regexp and string a lens owns, and which of the key and value flags
  it carries.
- **Exception building.** `make_exn_lns_error` appends its diagnostic lines one at a time.
  `Exceptions.LnsErrorLines` states their order and exclusivity: the lens line comes first
  if there is one. Then comes the position line, followed by the `format_pos` snippet when
  one is rendered, or otherwise the path line. The position line reports its offset in
  decimal, and the offset can be read back from the text.
- **`lens_get`, `lens_put` and the tree-editing glue.** `set`, `insa`, `insb` and `rm`
  edit a tree value (`Values.TreeValue`, a class whose `tree` field holds the top-level
  siblings) in place. On success they return that same value. On failure they return an
  exception naming their inputs. `set` on an empty tree installs a scaffold root before
  calling `tree_set`. After a successful set it unlinks the scaffold. A failed set leaves
  the scaffold attached.
- **Filters, transforms and `gensym`.**

The functions `builtin.c` calls but does not define (`lns_get`, `lns_put`, `tree_set`,
`tree_insert`, `tree_rm`, `format_info`, `format_pos`, `print_tree`, and the failure of
`asprintf`) are parameters of the model. They are the fields of `Collaborators.Externals`,
and each one gives its outcome for its inputs.

`tree_set` receives the root of the tree by value, so it cannot change which node heads
the list. The model therefore gives it a non-empty list and gets a non-empty list back
(`Collaborators.RootedForest`), and `list_remove(fake, tree->tree)` removes the first
sibling.

Two points where the model follows the code rather than what the names suggest:

- **`gensym`.** Its name suggests a fresh symbol on every call. The code declares
  `static unsigned int count = 0` and never writes it, so every call returns the prefix
  followed by `"0"` (`Symbols.Gensym`).
- **Argument tags.** The C code `assert`s each argument's tag, so a mismatch aborts the
  process. In the model, the primitives require the tags, and the dispatcher reports the
  mismatch as a value.

## Model

| member | source | states |
|---|---|---|
| `Decimal.Render` | src/builtin.c:257 | the `%u`/`%d` rendering is a non-empty string of digits without a leading zero |
| `Decimal.ParseRender` | src/builtin.c:92-94 | reading the digits back gives the rendered number |
| `Signatures.ArgTags` | src/builtin.c:296-322 | a registration's variadic tags are its `arity` argument tags followed by exactly one result tag |
| `Signatures.BuiltinInit` | src/builtin.c:296-324 | `builtin_init` registers sixteen natives in module "Builtin"; the element type proves that each one has `arity + 1` tags agreeing with its function's type chain |
| `Signatures.TableNames` | src/builtin.c:298-321 | `builtin_init` registers the names gensym, del, store, key, label, seq, counter, get, put, set, rm, insa, insb, incl, excl and transform, in that order |
| `Signatures.BuiltinNamesDistinct` | src/builtin.c:298-321 | no two natives share a name |
| `Signatures.Find` | src/builtin.c:296-322 | finds a native registered under the name, or reports that none is |
| `Signatures.Lookup` | src/builtin.c:296-322 | a name resolves to a native of the table with that name exactly when one is registered |
| `Signatures.FirstMismatch` | src/builtin.c:43-44 | the first argument whose tag differs from the declared one, or none when every tag agrees |
| `Signatures.CheckCall` | src/builtin.c:296-322 | a call passes exactly when the name is registered, the arity agrees and every argument carries its declared tag; a failure reports an unknown name exactly when the name is not registered, an arity mismatch exactly when the arity differs, and otherwise the first mismatching argument |
| `Lenses.LnsDel` | src/builtin.c:41-47 | a DEL lens over the regexp and the default string; owns both, leaves neither key nor value |
| `Lenses.LnsStore` | src/builtin.c:50-53 | a STORE lens over the regexp only; leaves a value |
| `Lenses.LnsKey` | src/builtin.c:56-59 | a KEY lens over the regexp only; leaves a key |
| `Lenses.LnsLabel` | src/builtin.c:62-65 | a LABEL lens over the string only; leaves a key |
| `Lenses.LnsSeq` | src/builtin.c:68-71 | a SEQ lens over the counter name only |
| `Lenses.LnsCounter` | src/builtin.c:74-77 | a COUNTER lens over the counter name only |
| `Exceptions.ExnPrintfLine` | src/builtin.c:87 | appending a line keeps the message and the earlier lines and adds the line at the end |
| `Exceptions.PosLineOffsetOfPosLine` | src/builtin.c:92-94 | the position line reports exactly the offset it was built from |
| `Exceptions.ErrorLinesDistinct` | src/builtin.c:87-99 | a position line is never a path line, and neither one looks like a lens line |
| `Exceptions.LnsErrorLines` | src/builtin.c:84-100 | the lens line is present first exactly when the error names a lens; then the position line when `pos >= 0`, otherwise the path line (for a path that may be NULL), never both; the snippet follows the position line only when `format_pos` rendered one |
| `Exceptions.MakeExnLnsError` | src/builtin.c:79-103 | the exception built step by step carries the error's message and exactly the lines of `LnsErrorLines` |
| `Engine.MemStream.constructor` | src/builtin.c:152 | a new stream is open and empty |
| `Engine.MemStream.Write` | src/builtin.c:153 | writing appends to the buffer |
| `Engine.MemStream.Close` | src/builtin.c:154 | closing keeps the buffer's contents |
| `Engine.PartialTreeLines` | src/builtin.c:130-134 | the partial-tree lines are added exactly when a partial tree exists |
| `Engine.LensGet` | src/builtin.c:116-138 | with no error, a new tree value holding the parsed tree; with an error, an exception with the error lines followed by "Tree generated so far:" and the rendered tree when a partial tree exists |
| `Engine.LensPut` | src/builtin.c:142-165 | with no error, a string value equal to what was written to the buffer; with an error, an exception built against the original text, the buffer discarded |
| `TreeEdit.SetRoot` | src/builtin.c:177-182 | an empty tree is replaced by a lone scaffold root; any other tree is passed on unchanged |
| `TreeEdit.TreeSetGlue` | src/builtin.c:168-195 | on success the very same tree value comes back, and a scaffold installed for an empty tree is unlinked; on failure an exception names the path and value, and the scaffold stays attached |
| `TreeEdit.TreeInsertGlue` | src/builtin.c:197-217 | a nonzero code from `tree_insert` gives an exception naming the label and path; zero returns the same tree value; the tree holds the result of the insertion either way |
| `TreeEdit.TreeInsaGlue` | src/builtin.c:221-224 | insertion with `before` false, otherwise identical |
| `TreeEdit.TreeInsbGlue` | src/builtin.c:228-231 | insertion with `before` true, otherwise identical |
| `TreeEdit.TreeRmGlue` | src/builtin.c:234-247 | only the code -1 from `tree_rm` is a failure, which gives an exception naming the path; any other code returns the same tree value |
| `Xform.XformIncl` | src/builtin.c:266-271 | a filter over the string with polarity include |
| `Xform.XformExcl` | src/builtin.c:274-279 | a filter over the string with polarity exclude |
| `Xform.InclExclDifferInPolarityOnly` | src/builtin.c:266-279 | `incl` and `excl` build the same filter except for its polarity |
| `Xform.XformTransform` | src/builtin.c:282-294 | rejected exactly when the lens leaves a key or a value; the message names "key" whenever the key flag is set and "value" otherwise; on success the lens is paired with the filter |
| `Xform.TransformMessagesDiffer` | src/builtin.c:287-289 | the "key" and "value" rejection messages differ |
| `Xform.TransformOfPrimitive` | src/builtin.c:282-294 | over a primitive lens, key and label lenses are rejected naming "key", store lenses naming "value", and del, seq and counter lenses are accepted; this split rests on the key and value flags assumed for `lns_make_prim` |
| `Symbols.Counter.constructor` | src/builtin.c:251 | the counter starts at 0, the value it keeps since nothing writes it |
| `Symbols.Gensym` | src/builtin.c:249-262 | every call returns the prefix followed by "0", the never-incremented counter in decimal, or no value exactly when `asprintf` fails |
| `Builtin.ApplyBuilder` | src/builtin.c:300-305 | `del`, `store`, `key`, `label`, `seq`, `counter`, `incl`, `excl` and `transform` each return what the primitive of the same name returns, a value of the declared result tag or an exception |
| `Builtin.ApplyEngine` | src/builtin.c:307-309 | `get` returns what `lens_get` returns on its lens and text; `put` returns what `lens_put` returns on its lens, the tree as passed and the text |
| `Builtin.ApplyTreeEdit` | src/builtin.c:311-317 | `set`, `rm`, `insa` and `insb` leave the tree argument and return exactly as `tree_set_glue`, `tree_rm_glue`, and `tree_insert_glue` with `before` false and true do |
| `Builtin.ApplyGensym` | src/builtin.c:298 | `gensym` returns the prefix followed by "0", or no value exactly when `asprintf` fails |
| `Builtin.Dispatch` | src/builtin.c:298-317 | each native runs the C function it is registered with; only `gensym` can return no value, and only the tree-editing natives change a tree argument |
| `Builtin.Call` | src/builtin.c:296-322 | a contract violation, with `CheckCall`'s error, exactly when `CheckCall` fails; otherwise the registered C function's outcome, carrying the declared result tag unless it is an exception; no value exactly for `gensym` with a failing `asprintf`; only the tree-editing natives touch tree arguments |

## Left out

- The get and put algorithms (`lns_get`, `lns_put`) and the round-trip laws between them. Their code is not part of this model. They are parameters that return a tree or text together with an optional error record. No round trip is claimed.
- Path resolution and tree surgery inside `tree_set`, `tree_insert`, `tree_rm` and `list_remove`. These are parameters. Only the mapping of their outcomes is modelled.
- TreeEdit.TreeSetGlue: the scaffold is identified by its position as the first sibling, not by pointer. This relies on `tree_set` receiving the root by value, so it cannot relink the head of the list.
- Engine.LensPut: the tree is not modified. Any bookkeeping that `lns_put` does on the tree is not modelled.
- `format_info`, `format_pos` and `print_tree`, together with the memory stream that `print_tree` writes to. They are parameters returning opaque strings; `format_pos` may return none. The `"/*"` prefix and the flag passed to `print_tree` are folded into that parameter.
- `lns_make_prim`. `src/lens.c` is not part of this model. The key and value flags of a primitive lens are taken to be key for KEY and LABEL and value for STORE, as the names of the kinds say. Which primitive lenses `transform` accepts rests on that choice.
- A NULL `path` in `struct lns_error` is printed by `%s` as glibc does, as `(null)`; the C standard leaves that case undefined.
- Reference counting (`ref`, `free_*`, `FREE`), allocation inside `exn_printf_line`, and the `UNIMPL_BODY` abort macro (unused in this file). These are memory management.
- `module_create` and the internals of `define_native`. Only the registered signature data is modelled, and name lookup picks the first registration with that name.
- Symbols.Gensym: no uniqueness or monotonicity is claimed, because the code never increments the counter. The failure of `asprintf` is a boolean parameter.
- The aliasing hazard of the tree-editing glue is reproduced, not resolved: every holder of a tree value sees the edit.
