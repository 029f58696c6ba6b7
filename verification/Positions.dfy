/** Positions in a list and in a text. */
module Positions {
  import opened Bytes

  /** Every position of a list of length `n`. */
  ghost function Below(n: nat): (r: set<nat>)
    ensures forall i: nat :: i in r <==> i < n
  {
    if n == 0 then {} else Below(n - 1) + {n - 1}
  }

  /** The first newline from `i` on, or the end of the text. */
  function LineEnd(src: string, i: nat): (end: nat)
    requires i <= |src|
    ensures i <= end <= |src|
    decreases |src| - i
  {
    if i == |src| || src[i] == '\n' then i else LineEnd(src, i + 1)
  }

  lemma {:induction false} LineEndIsNewline(src: string, i: nat)
    requires i <= |src|
    ensures LineEnd(src, i) < |src| ==> src[LineEnd(src, i)] == '\n'
    decreases |src| - i
  {
    if i < |src| && src[i] != '\n' { LineEndIsNewline(src, i + 1); }
  }

  /** Where a list last holds a value. */
  function LastIn<T(==)>(s: seq<T>, x: T): (r: Option<nat>)
    ensures r.Some? ==> r.value < |s| && s[r.value] == x && forall j | r.value < j < |s| :: s[j] != x
    ensures r.None? <==> x !in s
  {
    if s == [] then None else if s[|s| - 1] == x then Some(|s| - 1) else LastIn(s[..|s| - 1], x)
  }

  lemma LastInMore<T>(s: seq<T>, y: T, x: T)
    ensures LastIn(s + [y], x) == if y == x then Some(|s|) else LastIn(s, x)
  {
    assert (s + [y])[..|s|] == s;
  }
}
