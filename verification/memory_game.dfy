/**
 Memory Match (`createMemoryGame`, script.js:552-603). Sixteen cards hold the eight
 symbols twice each in shuffled order. A click flips a face-down card while fewer
 than two cards are pending; the one-second timer that fires once two are pending is
 the explicit `Resolve` event, which either matches the pair or flips it back.
 Symbols are identified by their position in the script's eight-entry symbol list.
 */
module MemoryGame {
  import opened SeqFacts

  /** `symbols.length`: the number of distinct symbols, and of pairs to find. */
  const SymbolCount: nat := 8
  const BoardSize: nat := 2 * SymbolCount
  /** Points for a matched pair. */
  const PairPoints: nat := 10

  type Symbol = nat

  /** `[...symbols, ...symbols]` before shuffling. */
  const Symbols: seq<Symbol> := [0, 1, 2, 3, 4, 5, 6, 7]
  const Deck: seq<Symbol> := Symbols + Symbols

  /** One card: its symbol and the `flipped` / `matched` CSS classes it carries. */
  datatype Card = Card(symbol: Symbol, flipped: bool, matched: bool)

  /** `pending` is `flippedCards` as card positions; `matchedPairs` is the pair counter. */
  datatype Memory = Memory(cards: seq<Card>, pending: seq<nat>, matchedPairs: nat)

  /** The outcome of the resolve timer: the new board, the points awarded, and
      whether the completion notice is shown. */
  datatype Resolution = Resolution(next: Memory, award: nat, completed: bool)

  /** Each symbol's number of cards in a full deck. */
  function Copies(s: Symbol): nat {
    if s < SymbolCount then 2 else 0
  }

  /** A shuffle of the deck: every symbol exactly as often as in the deck. The random
      comparator sort is modelled as an arbitrary permutation. */
  ghost predicate IsShuffle(order: seq<Symbol>) {
    forall s :: multiset(order)[s] == Copies(s)
  }

  lemma DeckCopies(s: Symbol)
    ensures multiset(Deck)[s] == Copies(s)
  {
    assert multiset(Symbols) == multiset{0, 1, 2, 3, 4, 5, 6, 7};
    assert multiset(Deck) == multiset(Symbols) + multiset(Symbols);
  }

  /** Being a shuffle is being a permutation of `Deck`. */
  lemma ShuffleIsPermutation(order: seq<Symbol>)
    ensures IsShuffle(order) <==> multiset(order) == multiset(Deck)
  {
    forall s: Symbol
      ensures multiset(Deck)[s] == Copies(s)
    {
      DeckCopies(s);
    }
  }

  function SymbolsOf(cards: seq<Card>): (s: seq<Symbol>)
    ensures |s| == |cards|
    ensures forall i :: 0 <= i < |cards| ==> s[i] == cards[i].symbol
  {
    seq(|cards|, i requires 0 <= i < |cards| => cards[i].symbol)
  }

  /** Number of cards carrying the `matched` class. */
  function MatchedCount(cards: seq<Card>): nat
  {
    if cards == [] then 0
    else MatchedCount(cards[..|cards| - 1]) + (if cards[|cards| - 1].matched then 1 else 0)
  }

  predicate AllMatched(cards: seq<Card>) {
    forall i :: 0 <= i < |cards| ==> cards[i].matched
  }

  /** The state invariant of a game in progress. */
  ghost predicate Valid(m: Memory) {
    var c := m.cards;
    // the board is the shuffled deck: every symbol on exactly two cards
    && |c| == BoardSize
    && IsShuffle(SymbolsOf(c))
    // a matched card keeps its `flipped` class
    && (forall i :: 0 <= i < |c| && c[i].matched ==> c[i].flipped)
    // the two cards of a symbol are matched together or not at all
    && (forall i, j :: 0 <= i < |c| && 0 <= j < |c| && i != j && c[i].symbol == c[j].symbol
          ==> c[i].matched == c[j].matched)
    // the pending list holds at most two distinct positions ...
    && |m.pending| <= 2
    && (forall k :: 0 <= k < |m.pending| ==> m.pending[k] < |c|)
    && (|m.pending| == 2 ==> m.pending[0] != m.pending[1])
    // ... and they are exactly the face-up unmatched cards
    && (forall i :: 0 <= i < |c| ==> (c[i].flipped && !c[i].matched <==> i in m.pending))
    // the pair counter counts matched cards in twos
    && MatchedCount(c) == 2 * m.matchedPairs
  }

  /** The board a shuffle deals: every card face down, nothing pending. */
  function NewGame(order: seq<Symbol>): (m: Memory)
    requires IsShuffle(order)
    ensures Valid(m)
    ensures SymbolsOf(m.cards) == order
    ensures m.pending == [] && m.matchedPairs == 0
    ensures forall i :: 0 <= i < |m.cards| ==> !m.cards[i].flipped
  {
    ShuffleSize(order);
    var cards := seq(|order|, i requires 0 <= i < |order| => Card(order[i], false, false));
    NoneMatched(cards);
    assert SymbolsOf(cards) == order;
    Memory(cards, [], 0)
  }

  /** A shuffle has sixteen cards, each symbol on exactly two, no other symbol. */
  lemma ShuffleSize(order: seq<Symbol>)
    requires IsShuffle(order)
    ensures |order| == BoardSize
    ensures forall s: Symbol :: s < SymbolCount ==> multiset(order)[s] == 2
    ensures forall i :: 0 <= i < |order| ==> order[i] < SymbolCount
  {
    ShuffleIsPermutation(order);
    assert |order| == |multiset(order)| == |multiset(Deck)| == |Deck|;
    forall s: Symbol | s < SymbolCount
      ensures multiset(order)[s] == 2
    {
      assert multiset(order)[s] == Copies(s);
    }
    forall i | 0 <= i < |order|
      ensures order[i] < SymbolCount
    {
      assert order[i] in multiset(order);
    }
  }

  lemma NoneMatched(cards: seq<Card>)
    requires forall i :: 0 <= i < |cards| ==> !cards[i].matched
    ensures MatchedCount(cards) == 0
  {
    if cards != [] {
      NoneMatched(cards[..|cards| - 1]);
    }
  }

  /** Replacing one card's flags changes the matched count only by that card. */
  lemma {:induction false} MatchedCountUpdate(cards: seq<Card>, i: nat, c: Card)
    requires i < |cards|
    ensures MatchedCount(cards[i := c]) + (if cards[i].matched then 1 else 0)
         == MatchedCount(cards) + (if c.matched then 1 else 0)
  {
    var n := |cards| - 1;
    if i < n {
      assert cards[i := c][..n] == cards[..n][i := c];
      MatchedCountUpdate(cards[..n], i, c);
    } else {
      assert cards[i := c][..n] == cards[..n];
    }
  }

  /** The matched count never exceeds the board and reaches it only when all cards are matched. */
  lemma {:induction false} MatchedCountBound(cards: seq<Card>)
    ensures MatchedCount(cards) <= |cards|
    ensures MatchedCount(cards) == |cards| <==> AllMatched(cards)
  {
    if cards != [] {
      var n := |cards| - 1;
      MatchedCountBound(cards[..n]);
      if AllMatched(cards) {
        assert AllMatched(cards[..n]);
      }
      if MatchedCount(cards) == |cards| {
        assert MatchedCount(cards[..n]) == n;
        forall i | 0 <= i < |cards|
          ensures cards[i].matched
        {
          if i < n {
            assert cards[..n][i] == cards[i];
          }
        }
      }
    }
  }

  /** The click guard: fewer than two pending and the card neither flipped nor matched. */
  predicate CanFlip(m: Memory, i: nat)
    requires i < |m.cards|
  {
    |m.pending| < 2 && !m.cards[i].flipped && !m.cards[i].matched
  }

  /** A click on card `i`. */
  function Click(m: Memory, i: nat): (m': Memory)
    requires i < |m.cards|
    ensures Valid(m) ==> Valid(m')
    ensures m' != m <==> CanFlip(m, i)
    ensures |m'.cards| == |m.cards| && m'.matchedPairs == m.matchedPairs
    ensures CanFlip(m, i) ==> m'.cards[i].flipped && m'.pending == m.pending + [i]
    ensures forall j :: 0 <= j < |m.cards| && j != i ==> m'.cards[j] == m.cards[j]
    ensures forall j :: 0 <= j < |m.cards| ==> m'.cards[j].symbol == m.cards[j].symbol
    ensures forall j :: 0 <= j < |m.cards| && m.cards[j].matched ==> m'.cards[j] == m.cards[j]
  {
    if CanFlip(m, i) then
      var m' := Memory(m.cards[i := m.cards[i].(flipped := true)], m.pending + [i], m.matchedPairs);
      ClickKeepsValid(m, i, m');
      m'
    else m
  }

  lemma ClickKeepsValid(m: Memory, i: nat, m': Memory)
    requires i < |m.cards| && CanFlip(m, i)
    requires m' == Memory(m.cards[i := m.cards[i].(flipped := true)], m.pending + [i], m.matchedPairs)
    ensures Valid(m) ==> Valid(m')
  {
    if Valid(m) {
      MatchedCountUpdate(m.cards, i, m.cards[i].(flipped := true));
      assert SymbolsOf(m'.cards) == SymbolsOf(m.cards);
      assert i !in m.pending;
    }
  }

  /** The resolve timer, scheduled when the second card is flipped. */
  function Resolve(m: Memory): (r: Resolution)
    requires Valid(m) && |m.pending| == 2
    ensures Valid(r.next) && r.next.pending == []
    ensures forall j :: 0 <= j < |m.cards| ==> r.next.cards[j].symbol == m.cards[j].symbol
    ensures forall j :: 0 <= j < |m.cards| && j !in m.pending ==> r.next.cards[j] == m.cards[j]
    ensures var p, q := m.pending[0], m.pending[1];
      if m.cards[p].symbol == m.cards[q].symbol then
        && r.next.cards[p].matched && r.next.cards[q].matched
        && r.award == PairPoints && r.next.matchedPairs == m.matchedPairs + 1
      else
        && !r.next.cards[p].flipped && !r.next.cards[q].flipped
        && r.award == 0 && r.next.matchedPairs == m.matchedPairs
    ensures r.completed <==> r.next.matchedPairs == SymbolCount
    ensures r.completed <==> AllMatched(r.next.cards)
  {
    var p, q := m.pending[0], m.pending[1];
    var c := m.cards;
    if c[p].symbol == c[q].symbol then
      var cards := c[p := c[p].(matched := true)][q := c[q].(matched := true)];
      var next := Memory(cards, [], m.matchedPairs + 1);
      MatchKeepsValid(m, next);
      MatchedCountBound(cards);
      Resolution(next, PairPoints, next.matchedPairs == SymbolCount)
    else
      var cards := c[p := c[p].(flipped := false)][q := c[q].(flipped := false)];
      var next := Memory(cards, [], m.matchedPairs);
      MismatchKeepsValid(m, next);
      MatchedCountBound(cards);
      Resolution(next, 0, next.matchedPairs == SymbolCount)
  }

  lemma MatchKeepsValid(m: Memory, next: Memory)
    requires Valid(m) && |m.pending| == 2
    requires m.cards[m.pending[0]].symbol == m.cards[m.pending[1]].symbol
    requires var p, q, c := m.pending[0], m.pending[1], m.cards;
      next == Memory(c[p := c[p].(matched := true)][q := c[q].(matched := true)], [], m.matchedPairs + 1)
    ensures Valid(next)
  {
    var p, q, c := m.pending[0], m.pending[1], m.cards;
    var c1 := c[p := c[p].(matched := true)];
    var c2 := next.cards;
    MatchedCountUpdate(c, p, c1[p]);
    MatchedCountUpdate(c1, q, c2[q]);
    assert SymbolsOf(c2) == SymbolsOf(c);
    PendingPairIsWholeSymbol(m);
    forall i, j | 0 <= i < |c2| && 0 <= j < |c2| && i != j && c2[i].symbol == c2[j].symbol
      ensures c2[i].matched == c2[j].matched
    {
      if i == p || i == q || j == p || j == q {
        assert c[i].symbol == c[p].symbol;
      }
    }
  }

  /** The two pending cards of a pair are the only cards with their symbol. */
  lemma PendingPairIsWholeSymbol(m: Memory)
    requires Valid(m) && |m.pending| == 2
    requires m.cards[m.pending[0]].symbol == m.cards[m.pending[1]].symbol
    ensures forall k :: 0 <= k < |m.cards| && m.cards[k].symbol == m.cards[m.pending[0]].symbol
              ==> k == m.pending[0] || k == m.pending[1]
  {
    var p, q, c := m.pending[0], m.pending[1], m.cards;
    var syms := SymbolsOf(c);
    ShuffleSize(syms);
    forall k | 0 <= k < |c| && c[k].symbol == c[p].symbol
      ensures k == p || k == q
    {
      OnlyTwo(syms, p, q, k);
    }
  }

  lemma MismatchKeepsValid(m: Memory, next: Memory)
    requires Valid(m) && |m.pending| == 2
    requires m.cards[m.pending[0]].symbol != m.cards[m.pending[1]].symbol
    requires var p, q, c := m.pending[0], m.pending[1], m.cards;
      next == Memory(c[p := c[p].(flipped := false)][q := c[q].(flipped := false)], [], m.matchedPairs)
    ensures Valid(next)
  {
    var p, q, c := m.pending[0], m.pending[1], m.cards;
    var c1 := c[p := c[p].(flipped := false)];
    MatchedCountUpdate(c, p, c1[p]);
    MatchedCountUpdate(c1, q, next.cards[q]);
    assert SymbolsOf(next.cards) == SymbolsOf(c);
  }

  /** At most eight pairs are ever counted, and all eight exactly when every card is matched. */
  lemma PairsBounded(m: Memory)
    requires Valid(m)
    ensures m.matchedPairs <= SymbolCount
    ensures m.matchedPairs == SymbolCount <==> AllMatched(m.cards)
  {
    MatchedCountBound(m.cards);
  }

  /** Two different face-down cards with the same symbol. */
  predicate OpenPair(m: Memory, i: nat, j: nat) {
    && i < |m.cards| && j < |m.cards| && i != j
    && m.cards[i].symbol == m.cards[j].symbol
    && !m.cards[i].matched && !m.cards[j].matched
    && !m.cards[i].flipped && !m.cards[j].flipped
  }

  /** While the game is unfinished and nothing is pending, some unmatched pair is on the board. */
  lemma PairAvailable(m: Memory)
    requires Valid(m) && m.pending == [] && m.matchedPairs < SymbolCount
    ensures exists i, j :: OpenPair(m, i, j)
  {
    PairsBounded(m);
    var i :| 0 <= i < |m.cards| && !m.cards[i].matched;
    var syms := SymbolsOf(m.cards);
    ShuffleSize(syms);
    var j := OtherOccurrence(syms, i);
    assert OpenPair(m, i, j);
  }

  /** Flipping an unmatched pair and letting the timer fire matches it. */
  lemma MatchingPairScores(m: Memory, i: nat, j: nat)
    requires Valid(m) && m.pending == [] && OpenPair(m, i, j)
    ensures |Click(Click(m, i), j).pending| == 2
    ensures Resolve(Click(Click(m, i), j)).award == PairPoints
    ensures Resolve(Click(Click(m, i), j)).next.matchedPairs == m.matchedPairs + 1
  {
  }

  /** Playing one unmatched pair after another. Each round raises the pair counter, so
      play under perfect memory finishes the board. */
  ghost function PerfectPlay(m: Memory): (final: Memory)
    requires Valid(m) && m.pending == []
    ensures Valid(final) && final.pending == []
    ensures final.matchedPairs == SymbolCount && AllMatched(final.cards)
    decreases SymbolCount - m.matchedPairs
  {
    PairsBounded(m);
    if m.matchedPairs == SymbolCount then m
    else
      PairAvailable(m);
      var i, j :| OpenPair(m, i, j);
      MatchingPairScores(m, i, j);
      PerfectPlay(Resolve(Click(Click(m, i), j)).next)
  }
}
