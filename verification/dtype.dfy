/** Element types of the input array, reduced to what the filter distinguishes. */
module Dtype {
  import opened Errors

  /** `Bool` is numpy's `bool`, `Int` any numpy integer type, `Other` everything
      else (floating point, complex, strings, objects). */
  datatype Kind = Bool | Int | Other

  /** The element-type guard run before anything else: only boolean and
      integer arrays are accepted. */
  function CheckDtypeSupported(kind: Kind): (r: Outcome)
    ensures r.Pass? <==> kind == Bool || kind == Int
    ensures r.Fail? ==> r.error == TypeError
  {
    match kind
    case Bool => Pass
    case Int => Pass
    case Other => Fail(TypeError)
  }
}
