/** gensym: a name built from a prefix and a counter. */
module Symbols {
  import opened Wrappers
  import opened Values
  import Decimal

  /** The static unsigned counter gensym reads. It starts at 0 and nothing
      ever writes it, so it stays 0. */
  class Counter {
    var count: nat

    predicate Valid()
      reads this
    {
      count == 0
    }

    constructor ()
      ensures Valid()
    {
      count := 0;
    }
  }

  /** gensym: the prefix followed by the counter in decimal (%u), or no
      value at all when asprintf fails. With the counter never incremented,
      every call yields the prefix followed by "0". */
  method Gensym(info: Info, prefix: Value, counter: Counter, asprintfFails: bool)
      returns (r: Option<Value>)
    requires prefix.VString? && counter.Valid()
    ensures r == if asprintfFails then None else Some(VString(info, prefix.str + "0"))
  {
    if asprintfFails {
      return None;
    }
    var s := prefix.str + Decimal.Render(counter.count);
    r := Some(VString(info, s));
  }
}
