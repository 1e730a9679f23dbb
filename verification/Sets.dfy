/** Sizes of finite sets. */
module Sets {
  lemma {:induction false} SubsetSize<T>(part: set<T>, whole: set<T>)
    requires part <= whole
    ensures |part| <= |whole|
  {
    if part != {} {
      var x :| x in part;
      SubsetSize(part - {x}, whole - {x});
    }
  }

  /** A number that is not in use. */
  lemma {:induction false} Unused(used: set<nat>) returns (n: nat)
    ensures forall m | m in used :: m < n
    decreases |used|
  {
    n := 0;
    if used != {} {
      var x :| x in used;
      var rest := Unused(used - {x});
      n := if rest <= x then x + 1 else rest;
      assert forall m | m in used :: m == x || m in used - {x};
    }
  }

  /** The numbers low, low + 1, ..., low + size - 1. */
  function Span(low: nat, size: nat): (span: set<nat>)
    ensures |span| == size
    ensures forall j: nat :: j in span <==> low <= j < low + size
  {
    if size == 0 then {} else Span(low, size - 1) + {low + size - 1}
  }
}
