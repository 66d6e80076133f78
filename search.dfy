/** The first-match search behind `find` and `findIndex`. */
module Search {

  /**
   * `s.findIndex(p)`: the position of the first element satisfying `p`, or -1
   * when none does.
   */
  function FindFirst<T>(s: seq<T>, p: T -> bool): (k: int)
    ensures -1 <= k < |s|
    ensures 0 <= k ==> p(s[k])
    ensures forall j :: 0 <= j < (if k < 0 then |s| else k) ==> !p(s[j])
  {
    if s == [] then -1
    else if p(s[0]) then 0
    else
      var k := FindFirst(s[1..], p);
      if k < 0 then -1 else k + 1
  }
}
