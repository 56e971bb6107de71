/** Reading a text by position: what a loop that stands at j has left to find. */
module Positions {
  import opened Wrappers
  import L = Literals

  lemma Later(s: string, j: nat, n: nat)
    requires j + n <= |s|
    ensures s[j..][n..] == s[j + n..] && s[j..][..n] == s[j..j + n]
  {}

  function Plus(n: nat, r: Option<nat>): Option<nat> { if r.None? then None else Some(n + r.value) }

  lemma PlusPlus(m: nat, n: nat, r: Option<nat>)
    ensures Plus(m, Plus(n, r)) == Plus(m + n, r)
  {}

  /** How long a string is whose text starts at `from` when j is reached. */
  function Inside(s: string, from: nat, j: nat): Option<nat>
    requires from <= j
  {
    if j > |s| then None else Plus(j - from, L.StringLength(s[j..]))
  }

  lemma InsideMoves(s: string, from: nat, j: nat)
    requires from <= j < |s| && s[j] != '"'
    ensures Inside(s, from, j + if s[j] == '\\' then 2 else 1) == Inside(s, from, j)
  {
    Later(s, j, 1);
    if j + 2 <= |s| { Later(s, j, 2); }
  }

  lemma InsideEnds(s: string, from: nat, j: nat)
    requires from <= j && (j >= |s| || s[j] == '"')
    ensures Inside(s, from, j) == if j >= |s| then None else Some(j + 1 - from)
  {}

  /** The closing quote of a string whose text starts at `from`. */
  method StringEnd(text: string, from: nat) returns (quote: Option<nat>)
    requires from <= |text|
    ensures L.StringLength(text[from..]) == if quote.None? then None else Some(quote.value + 1 - from)
    ensures quote.Some? ==> from <= quote.value < |text|
  {
    var i := from;
    while i < |text| && text[i] != '"'
      invariant from <= i && L.StringLength(text[from..]) == Inside(text, from, i)
      decreases |text| + 2 - i
    {
      InsideMoves(text, from, i);
      i := i + if text[i] == '\\' then 2 else 1;
    }
    InsideEnds(text, from, i);
    return if i < |text| then Some(i) else None;
  }
}
