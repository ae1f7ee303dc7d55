/** The Fisher-Yates shuffle followed by a prefix slice that draws skill
    options. The random draws are passed in: `picks[k]` is the index
    Math.floor(Math.random() * (i + 1)) that the k-th swap uses, where
    i = n - 1 - k walks down from the last position to 1. */
module Shuffle {

  /** Exchange the elements at positions i and j. */
  function Swap<T>(s: seq<T>, i: nat, j: nat): (r: seq<T>)
    requires i < |s| && j < |s|
    ensures |r| == |s|
  {
    s[i := s[j]][j := s[i]]
  }

  /** The draws a shuffle of `n` elements consumes: one per position from
      n - 1 down to 1, each within [0, i]. */
  ghost predicate Draws(n: nat, picks: seq<int>) {
    && |picks| == (if n == 0 then 0 else n - 1)
    && forall k :: 0 <= k < |picks| ==> 0 <= picks[k] <= n - 1 - k
  }

  /** The loop from position `i` down to 1, with the draws still to use. */
  function ShuffleDown<T>(s: seq<T>, i: int, picks: seq<int>): (r: seq<T>)
    requires i < |s|
    requires |picks| == (if i <= 0 then 0 else i)
    requires forall k :: 0 <= k < |picks| ==> 0 <= picks[k] <= i - k
    ensures |r| == |s|
    decreases i
  {
    if i <= 0 then s else ShuffleDown(Swap(s, i, picks[0]), i - 1, picks[1..])
  }

  /** The whole shuffle of `s`. */
  function Shuffled<T>(s: seq<T>, picks: seq<int>): seq<T>
    requires Draws(|s|, picks)
  {
    ShuffleDown(s, |s| - 1, picks)
  }

  /** options.slice(0, count): a negative count drops that many from the end. */
  function SliceEnd(n: nat, count: int): (r: nat)
    ensures r <= n
  {
    if count < 0 then (if n + count < 0 then 0 else n + count)
    else if count < n then count else n
  }

  /** The first `count` elements of the shuffled sequence. */
  function Options<T>(s: seq<T>, count: int, picks: seq<int>): seq<T>
    requires Draws(|s|, picks)
  {
    Shuffled(s, picks)[..SliceEnd(|s|, count)]
  }

  ghost predicate Distinct<T>(s: seq<T>) {
    forall a, b :: 0 <= a < b < |s| ==> s[a] != s[b]
  }

  lemma SwapPermutes<T>(s: seq<T>, i: nat, j: nat)
    requires i < |s| && j < |s|
    ensures multiset(Swap(s, i, j)) == multiset(s)
    ensures Distinct(s) ==> Distinct(Swap(s, i, j))
  {
    var r := Swap(s, i, j);
    if Distinct(s) {
      forall a, b | 0 <= a < b < |r| ensures r[a] != r[b] {
        var a' := if a == i then j else if a == j then i else a;
        var b' := if b == i then j else if b == j then i else b;
        assert r[a] == s[a'] && r[b] == s[b'];
      }
    }
  }

  /** Every shuffle is a permutation, and it keeps distinct elements distinct. */
  lemma {:induction false} ShuffleDownPermutes<T>(s: seq<T>, i: int, picks: seq<int>)
    requires i < |s|
    requires |picks| == (if i <= 0 then 0 else i)
    requires forall k :: 0 <= k < |picks| ==> 0 <= picks[k] <= i - k
    ensures multiset(ShuffleDown(s, i, picks)) == multiset(s)
    ensures Distinct(s) ==> Distinct(ShuffleDown(s, i, picks))
    decreases i
  {
    if i > 0 {
      SwapPermutes(s, i, picks[0]);
      ShuffleDownPermutes(Swap(s, i, picks[0]), i - 1, picks[1..]);
    }
  }

  /** The drawn options are a prefix of a permutation of `s`: exactly
      min(count, |s|) of them (for count >= 0), each taken from `s` no more
      often than it occurs there, so distinct entries are offered at most once. */
  lemma OptionsArePermutationPrefix<T>(s: seq<T>, count: int, picks: seq<int>)
    requires Draws(|s|, picks)
    ensures count >= 0 ==> |Options(s, count, picks)| == (if count < |s| then count else |s|)
    ensures multiset(Options(s, count, picks)) <= multiset(s)
    ensures Distinct(s) ==> Distinct(Options(s, count, picks))
  {
    var t := Shuffled(s, picks);
    ShuffleDownPermutes(s, |s| - 1, picks);
    var m := SliceEnd(|s|, count);
    assert t == t[..m] + t[m..];
    assert multiset(t) == multiset(t[..m]) + multiset(t[m..]);
  }
}
