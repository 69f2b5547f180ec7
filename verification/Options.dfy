/** Optional values, and results of operations that the source lets throw. */
module Options {
  datatype Option<+T> = None | Some(value: T)

  // Unsupported and TypeError are thrown on purpose; Crash is the failure of a lookup whose
  // result the source uses unchecked.
  datatype Error = Unsupported | TypeError | Exhausted | Crash

  datatype Result<+T> = Ok(value: T) | Err(error: Error)

  // Array.find: the position of the first element that satisfies p.
  function First<T>(s: seq<T>, p: T -> bool): (r: Option<nat>)
    ensures r.Some? ==> r.value < |s| && p(s[r.value]) && forall j :: 0 <= j < r.value ==> !p(s[j])
    ensures r.None? ==> forall j :: 0 <= j < |s| ==> !p(s[j])
  {
    if s == [] then None
    else if p(s[0]) then Some(0)
    else match First(s[1..], p)
         case None => None
         case Some(i) => Some(i + 1)
  }
}
