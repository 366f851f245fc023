/** Facts about sequences that the solver does not find by itself. */
module Sequences {
  lemma {:induction false} Assoc<T>(a: seq<T>, b: seq<T>, c: seq<T>)
    ensures a + (b + c) == (a + b) + c
  {}

  lemma {:induction false} SplitLast<T>(s: seq<T>)
    requires s != []
    ensures s == s[..|s| - 1] + [s[|s| - 1]]
  {}

  lemma {:induction false} ThreePieces<T>(cs: seq<T>, s: nat, e: nat)
    requires s <= e <= |cs|
    ensures cs[..s] + cs[s..e] + cs[e..] == cs
  {}

  /** The pieces of a sequence whose range [s, e) was cut out, seen from a range [t, b) before it or after it. */
  lemma {:induction false} SlicesAroundCut<T>(cs: seq<T>, s: nat, e: nat, t: nat, b: nat)
    requires s <= e <= |cs| && t <= b <= |cs|
    ensures var ds := cs[..s] + cs[e..];
      && (b <= s ==>
            && ds[..t] == cs[..t] && ds[t..b] == cs[t..b] && ds[b..] == cs[b..s] + cs[e..]
            && cs[..s] == cs[..t] + cs[t..b] + cs[b..s] && cs[b..] == cs[b..s] + cs[s..e] + cs[e..])
      && (e <= t ==>
            && ds[..t - (e - s)] == cs[..s] + cs[e..t] && ds[t - (e - s)..b - (e - s)] == cs[t..b] && ds[b - (e - s)..] == cs[b..]
            && cs[..t] == cs[..s] + cs[s..e] + cs[e..t] && cs[e..] == cs[e..t] + cs[t..b] + cs[b..])
  {}
}
