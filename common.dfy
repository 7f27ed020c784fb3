/** Building blocks shared by every module. */
module Common {
  /** A value that may be absent: a nullable column, an optional JSON field, a lookup miss. */
  datatype Option<+T> = None | Some(value: T)

  /** The first position whose element satisfies `p`, if there is one: a table scan that stops at the first hit. */
  function FirstWhere<T>(s: seq<T>, p: T -> bool): (r: Option<nat>)
    ensures r.Some? ==> r.value < |s| && p(s[r.value]) && forall j :: 0 <= j < r.value ==> !p(s[j])
    ensures r.None? ==> forall j :: 0 <= j < |s| ==> !p(s[j])
  {
    if s == [] then None
    else if p(s[0]) then Some(0)
    else match FirstWhere(s[1..], p)
      case Some(k) => Some(k + 1)
      case None => None
  }
}
