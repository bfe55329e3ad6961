/**
 Facts about occurrences of values in sequences, stated with multisets. The games
 shuffle fixed decks; these lemmas turn "the board is a permutation of the deck"
 into statements about individual positions.
 */
module SeqFacts {

  /** No value occurs at two positions. */
  ghost predicate Distinct<T>(s: seq<T>) {
    forall i, j :: 0 <= i < j < |s| ==> s[i] != s[j]
  }

  /** `s` with the element at position `i` removed. */
  function Without<T>(s: seq<T>, i: nat): (r: seq<T>)
    requires i < |s|
    ensures |r| == |s| - 1
    ensures forall k :: 0 <= k < i ==> r[k] == s[k]
    ensures forall k :: i <= k < |r| ==> r[k] == s[k + 1]
  {
    s[..i] + s[i + 1..]
  }

  /** Removing one position removes exactly one copy of its value. */
  lemma RemoveAt<T>(s: seq<T>, i: nat)
    requires i < |s|
    ensures multiset(s) == multiset(Without(s, i)) + multiset{s[i]}
  {
    assert s == s[..i] + [s[i]] + s[i + 1..];
  }

  /** A value at position `j` of `s` sits at this position of `Without(s, i)`. */
  function Shifted(i: nat, j: nat): nat
    requires i != j
  {
    if j < i then j else j - 1
  }

  /** Two different positions holding `x` give `x` a multiplicity of at least two. */
  lemma TwoOccurrences<T>(s: seq<T>, i: nat, j: nat)
    requires i < |s| && j < |s| && i != j && s[i] == s[j]
    ensures multiset(s)[s[i]] >= 2
  {
    RemoveAt(s, i);
    var t := Without(s, i);
    assert t[Shifted(i, j)] == s[i];
    assert s[i] in multiset(t);
  }

  /** Three different positions holding `x` give `x` a multiplicity of at least three. */
  lemma ThreeOccurrences<T>(s: seq<T>, i: nat, j: nat, k: nat)
    requires i < |s| && j < |s| && k < |s|
    requires i != j && j != k && i != k
    requires s[i] == s[j] == s[k]
    ensures multiset(s)[s[i]] >= 3
  {
    RemoveAt(s, i);
    var t := Without(s, i);
    TwoOccurrences(t, Shifted(i, j), Shifted(i, k));
  }

  /** A value with multiplicity two or more occurs at some other position too. */
  lemma OtherOccurrence<T>(s: seq<T>, i: nat) returns (j: nat)
    requires i < |s| && multiset(s)[s[i]] >= 2
    ensures j < |s| && j != i && s[j] == s[i]
  {
    RemoveAt(s, i);
    var t := Without(s, i);
    assert s[i] in multiset(t);
    var k :| 0 <= k < |t| && t[k] == s[i];
    j := if k < i then k else k + 1;
  }

  /** When a value occurs at most twice, two positions holding it are all of them. */
  lemma OnlyTwo<T>(s: seq<T>, i: nat, j: nat, k: nat)
    requires i < |s| && j < |s| && k < |s| && i != j
    requires s[i] == s[j] == s[k]
    requires multiset(s)[s[i]] <= 2
    ensures k == i || k == j
  {
    if k != i && k != j {
      ThreeOccurrences(s, i, j, k);
    }
  }
}
