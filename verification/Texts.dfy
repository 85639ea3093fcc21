/** String.trim of the Java services. */
module Texts {

  predicate Blank(s: string, from: nat, to: nat)
    requires from <= to <= |s|
  {
    forall i :: from <= i < to ==> s[i] <= ' '
  }

  function FirstSolid(s: string, from: nat): (i: nat)
    requires from <= |s|
    ensures from <= i <= |s| && Blank(s, from, i) && (i < |s| ==> s[i] > ' ')
    decreases |s| - from
  {
    if from < |s| && s[from] <= ' ' then FirstSolid(s, from + 1) else from
  }

  function PastLastSolid(s: string, from: nat, to: nat): (j: nat)
    requires from <= to <= |s|
    ensures from <= j <= to && Blank(s, j, to) && (j > from ==> s[j - 1] > ' ')
  {
    if from < to && s[to - 1] <= ' ' then PastLastSolid(s, from, to - 1) else to
  }

  /** String.trim. */
  function Trim(s: string): string {
    var i := FirstSolid(s, 0);
    s[i..PastLastSolid(s, i, |s|)]
  }

  predicate Trimmed(s: string) {
    s != [] && s[0] > ' ' && s[|s| - 1] > ' '
  }

  /** Trimming takes the blanks off both ends and nothing else. */
  lemma TrimIsExact(s: string)
    ensures Trim(s) == [] <==> Blank(s, 0, |s|)
    ensures Trim(s) != [] ==> Trimmed(Trim(s))
    ensures exists i, j :: 0 <= i <= j <= |s| && Trim(s) == s[i..j] && Blank(s, 0, i) && Blank(s, j, |s|)
  {
    var i := FirstSolid(s, 0);
    var j := PastLastSolid(s, i, |s|);
    assert Trim(s) == s[i..j] && Blank(s, 0, i) && Blank(s, j, |s|);
  }
}
