/** `shuffleArray`: Fisher-Yates over a copy of the queue, with the random draws supplied. */
module Shuffle {
  import opened Catalog

  /** Draws for a list of length `n`: `choices[i]` is the index drawn when the loop is at `i`. */
  predicate ValidChoices(n: nat, choices: seq<nat>) {
    |choices| == n && forall i :: 0 <= i < n ==> choices[i] <= i
  }

  /** Exchange the elements at `i` and `j`. */
  function Swap(s: seq<Track>, i: nat, j: nat): (r: seq<Track>)
    requires i < |s| && j < |s|
    ensures |r| == |s| && r[i] == s[j] && r[j] == s[i]
    ensures forall k :: 0 <= k < |s| && k != i && k != j ==> r[k] == s[k]
  {
    s[i := s[j]][j := s[i]]
  }

  lemma SwapPermutes(s: seq<Track>, i: nat, j: nat)
    requires i < |s| && j < |s|
    ensures |Swap(s, i, j)| == |s|
    ensures multiset(Swap(s, i, j)) == multiset(s)
  {
    var r := Swap(s, i, j);
    if i != j {
      assert r == s[i := s[j]][j := s[i]];
      assert multiset(s[i := s[j]]) == multiset(s) - multiset{s[i]} + multiset{s[j]};
    }
  }

  lemma SwapKeepsUniqueIds(s: seq<Track>, i: nat, j: nat)
    requires i < |s| && j < |s|
    requires UniqueIds(s)
    ensures UniqueIds(Swap(s, i, j))
  {
    var r := Swap(s, i, j);
    forall a, b | 0 <= a < b < |r| ensures r[a].id != r[b].id {
      var a' := if a == i then j else if a == j then i else a;
      var b' := if b == i then j else if b == j then i else b;
      assert r[a] == s[a'] && r[b] == s[b'] && a' != b';
    }
  }

  /** The swaps the loop performs for positions `i`, `i - 1`, ..., `1`, in that order. */
  function FisherYatesFrom(s: seq<Track>, choices: seq<nat>, i: nat): (r: seq<Track>)
    requires i < |s| && ValidChoices(|s|, choices)
    ensures |r| == |s|
    decreases i
  {
    if i == 0 then s else FisherYatesFrom(Swap(s, i, choices[i]), choices, i - 1)
  }

  /** The loop at position `i` and below never touches a position above `i`. */
  lemma {:induction false} FisherYatesFromFrame(s: seq<Track>, choices: seq<nat>, i: nat)
    requires i < |s| && ValidChoices(|s|, choices)
    ensures forall k :: i < k < |s| ==> FisherYatesFrom(s, choices, i)[k] == s[k]
    decreases i
  {
    if i > 0 {
      FisherYatesFromFrame(Swap(s, i, choices[i]), choices, i - 1);
    }
  }

  /** The whole shuffle: every position from the last down to 1. */
  function FisherYates(s: seq<Track>, choices: seq<nat>): (r: seq<Track>)
    requires ValidChoices(|s|, choices)
    ensures |r| == |s|
    ensures |s| <= 1 ==> r == s
  {
    if |s| == 0 then s else FisherYatesFrom(s, choices, |s| - 1)
  }

  lemma {:induction false} FisherYatesFromPermutes(s: seq<Track>, choices: seq<nat>, i: nat)
    requires i < |s| && ValidChoices(|s|, choices)
    ensures |FisherYatesFrom(s, choices, i)| == |s|
    ensures multiset(FisherYatesFrom(s, choices, i)) == multiset(s)
    ensures UniqueIds(s) ==> UniqueIds(FisherYatesFrom(s, choices, i))
    decreases i
  {
    if i > 0 {
      SwapPermutes(s, i, choices[i]);
      if UniqueIds(s) {
        SwapKeepsUniqueIds(s, i, choices[i]);
      }
      FisherYatesFromPermutes(Swap(s, i, choices[i]), choices, i - 1);
    }
  }

  /** For any draws, the shuffle is a permutation of its input and keeps ids unique. */
  lemma FisherYatesPermutes(s: seq<Track>, choices: seq<nat>)
    requires ValidChoices(|s|, choices)
    ensures |FisherYates(s, choices)| == |s|
    ensures multiset(FisherYates(s, choices)) == multiset(s)
    ensures UniqueIds(s) ==> UniqueIds(FisherYates(s, choices))
  {
    if |s| > 0 {
      FisherYatesFromPermutes(s, choices, |s| - 1);
    }
  }

  /** Copies `tracks` into a fresh array and swaps in place from the last index down to 1. */
  method ShuffleArray(tracks: seq<Track>, choices: seq<nat>) returns (r: seq<Track>)
    requires ValidChoices(|tracks|, choices)
    ensures r == FisherYates(tracks, choices)
    ensures |r| == |tracks| && multiset(r) == multiset(tracks)
    ensures UniqueIds(tracks) ==> UniqueIds(r)
  {
    var shuffled := new Track[|tracks|](k requires 0 <= k < |tracks| => tracks[k]);
    var i := shuffled.Length - 1;
    assert shuffled[..] == tracks;
    while i > 0
      invariant shuffled.Length == |tracks|
      invariant |tracks| == 0 ==> i == -1
      invariant |tracks| > 0 ==> 0 <= i < |tracks|
      invariant |tracks| > 0 ==> FisherYatesFrom(shuffled[..], choices, i) == FisherYates(tracks, choices)
    {
      var j := choices[i];
      ghost var before := shuffled[..];
      shuffled[i], shuffled[j] := shuffled[j], shuffled[i];
      assert shuffled[..] == Swap(before, i, j);
      i := i - 1;
    }
    r := shuffled[..];
    FisherYatesPermutes(tracks, choices);
  }
}
