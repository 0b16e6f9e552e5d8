/** Helpers shared by every module: optional values and first-match search. */
module Common {
  datatype Option<+T> = None | Some(value: T)

  /** The position of the first element satisfying `p`, if there is one. */
  function First<T>(s: seq<T>, p: T -> bool): (r: Option<nat>)
    ensures r.Some? ==> r.value < |s| && p(s[r.value]) && forall j | 0 <= j < r.value :: !p(s[j])
    ensures r.None? ==> forall j | 0 <= j < |s| :: !p(s[j])
  {
    if |s| == 0 then None
    else
      match First(s[..|s| - 1], p)
      case Some(i) => Some(i)
      case None => if p(s[|s| - 1]) then Some(|s| - 1) else None
  }

  /** The characters whose lower-case form is an ASCII letter: the ASCII capitals and the Kelvin sign. */
  predicate IsUpper(c: char) { 'A' <= c <= 'Z' || c == '\U{212A}' }

  function LowerChar(c: char): char {
    if 'A' <= c <= 'Z' then (c as int + 32) as char else if c == '\U{212A}' then 'k' else c
  }

  /** `toLowerCase()`, except that other characters outside ASCII stay as they are. */
  function ToLower(s: string): (r: string)
    ensures |r| == |s| && forall i | 0 <= i < |s| :: r[i] == LowerChar(s[i])
  {
    seq(|s|, i requires 0 <= i < |s| => LowerChar(s[i]))
  }

  /** The whole alphabet, letter by letter. */
  lemma ToLowerSpells(s: string, i: nat, k: nat)
    requires i < |s| && k < 26
    ensures var upper, lower := "ABCDEFGHIJKLMNOPQRSTUVWXYZ", "abcdefghijklmnopqrstuvwxyz";
      && (s[i] == upper[k] ==> ToLower(s)[i] == lower[k])
      && (s[i] == lower[k] ==> ToLower(s)[i] == lower[k])
      && (s[i] !in upper && s[i] != '\U{212A}' ==> ToLower(s)[i] == s[i])
  {
  }

  predicate IsLower(s: string) { forall i | 0 <= i < |s| :: !IsUpper(s[i]) }

  lemma ToLowerIsLower(s: string)
    ensures IsLower(ToLower(s))
    ensures IsLower(s) ==> ToLower(s) == s
  {
  }

  /** `n` time spans of length `w` end to end; a negative `n` counts backwards. */
  function Spans(n: int, w: nat): int
    decreases if n < 0 then -n else n
  {
    if n == 0 then 0 else if n > 0 then Spans(n - 1, w) + w else Spans(n + 1, w) - w
  }

  lemma {:induction false} SpansIsProduct(n: int, w: nat)
    ensures Spans(n, w) == n * w
    decreases if n < 0 then -n else n
  {
    if n > 0 {
      SpansIsProduct(n - 1, w);
    } else if n < 0 {
      SpansIsProduct(n + 1, w);
    }
  }

  lemma {:induction false} SpansMonotone(m: int, n: int, w: nat)
    requires m <= n
    ensures Spans(m, w) <= Spans(n, w)
    decreases n - m
  {
    if m < n {
      SpansMonotone(m, n - 1, w);
      assert Spans(n, w) == Spans(n - 1, w) + w;
    }
  }
}
