// Searching strings.
module Strings {

  /** Where the last dot is, or the length. */
  function LastDot(s: string): (k: nat)
    ensures k <= |s| && (k < |s| ==> s[k] == '.' && '.' !in s[k + 1..])
    ensures k == |s| ==> '.' !in s
  {
    if s == "" then 0
    else if s[|s| - 1] == '.' then |s| - 1
    else
      var k := LastDot(s[..|s| - 1]);
      if k == |s| - 1 then |s| else k
  }
}
