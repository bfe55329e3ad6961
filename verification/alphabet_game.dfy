/**
 ABC Adventure (`createAlphabetGame`, script.js:734-802). The quiz walks the 26
 letters of its animal table in order. Each round shows six letter buttons: the
 first six of a shuffled alphabet, with the first button replaced by the round's
 letter when the sample missed it. A correct pick awards 10 points and, one second
 later, advances to the next letter; that timer is the explicit `Advance` event. A
 wrong pick only flashes the button.

 As written the buttons stay clickable while the advance is pending, so a second
 correct click awards again and advances twice. `PickOnce` models the evidently
 intended one-answer-per-round behaviour.
 */
module AlphabetGame {
  import opened SeqFacts

  const LetterCount: nat := 26
  /** Buttons per round. */
  const ChoiceCount: nat := 6
  /** Points for a correct pick. */
  const LetterPoints: nat := 10

  /** `Object.keys(animals)`: the letters A to Z in table order. */
  const Letters: seq<char> := "ABCDEFGHIJKLMNOPQRSTUVWXYZ"

  /** An upper-case letter, a key of the animal table. */
  predicate IsLetter(c: char) {
    'A' <= c <= 'Z'
  }

  lemma LettersAreLetters(i: nat)
    requires i < LetterCount
    ensures IsLetter(Letters[i])
  {
  }

  /** A shuffle of the alphabet: its 26 letters in any order. The random comparator
      sort is modelled as an arbitrary permutation. */
  ghost predicate IsShuffle(shuffled: seq<char>) {
    && |shuffled| == LetterCount
    && Distinct(shuffled)
    && (forall k :: 0 <= k < |shuffled| ==> IsLetter(shuffled[k]))
  }

  /** The six buttons offered for `current`: the sample, with its first button
      replaced by `current` when the sample missed it. */
  function Choices(current: char, shuffled: seq<char>): (c: seq<char>)
    requires IsShuffle(shuffled)
    ensures |c| == ChoiceCount
    ensures current in c
    ensures Distinct(c)
    ensures forall k :: 1 <= k < ChoiceCount ==> c[k] == shuffled[k]
    ensures IsLetter(current) ==> forall k :: 0 <= k < |c| ==> IsLetter(c[k])
  {
    var sample := shuffled[..ChoiceCount];
    if current in sample then sample
    else
      var c := sample[0 := current];
      assert c[0] == current;
      c
  }

  /**
   `index` is `currentLetterIndex`; `shown` is the index of the letter the buttons
   on screen were built for (it stops at the last letter once the quiz is over);
   `choices` are those buttons; `pendingAdvances` counts scheduled advance timers.
   */
  datatype Quiz = Quiz(index: nat, shown: nat, choices: seq<char>, pendingAdvances: nat)

  datatype Answer = Answer(quiz: Quiz, award: nat)

  datatype Step = Step(quiz: Quiz, completed: bool)

  ghost predicate Valid(q: Quiz) {
    && q.shown < LetterCount
    && q.shown == (if q.index < LetterCount then q.index else LetterCount - 1)
    && |q.choices| == ChoiceCount
    && Letters[q.shown] in q.choices
    && Distinct(q.choices)
    && (forall k :: 0 <= k < |q.choices| ==> IsLetter(q.choices[k]))
  }

  /** The first round. */
  function Start(shuffled: seq<char>): (q: Quiz)
    requires IsShuffle(shuffled)
    ensures Valid(q) && q.index == 0 && q.pendingAdvances == 0
  {
    LettersAreLetters(0);
    Quiz(0, 0, Choices(Letters[0], shuffled), 0)
  }

  /** A click on the button for `letter`, as written. */
  function Pick(q: Quiz, letter: char): (a: Answer)
    requires q.shown < LetterCount
    ensures Valid(q) ==> Valid(a.quiz)
    ensures letter == Letters[q.shown] ==>
      a.award == LetterPoints && a.quiz == q.(pendingAdvances := q.pendingAdvances + 1)
    ensures letter != Letters[q.shown] ==> a == Answer(q, 0)
  {
    if letter == Letters[q.shown] then Answer(q.(pendingAdvances := q.pendingAdvances + 1), LetterPoints)
    else Answer(q, 0)
  }

  /** The advance timer: move to the next letter and rebuild the buttons, or announce
      completion once the index passes the last letter. */
  function Advance(q: Quiz, shuffled: seq<char>): (s: Step)
    requires Valid(q) && q.pendingAdvances > 0 && IsShuffle(shuffled)
    ensures Valid(s.quiz)
    ensures s.quiz.index == q.index + 1
    ensures s.quiz.pendingAdvances + 1 == q.pendingAdvances
    ensures s.completed <==> s.quiz.index >= LetterCount
    ensures !s.completed ==> s.quiz.shown == s.quiz.index
    ensures s.completed ==> s.quiz.choices == q.choices
  {
    var next := q.index + 1;
    if next < LetterCount then
      LettersAreLetters(next);
      Step(Quiz(next, next, Choices(Letters[next], shuffled), q.pendingAdvances - 1), false)
    else
      Step(q.(index := next, pendingAdvances := q.pendingAdvances - 1), true)
  }

  /** As written, clicking the right letter twice before the timer fires wins the
      round twice and skips the next letter: after "A", the quiz lands on "C". */
  lemma DoubleCorrectPickSkipsLetter(s0: seq<char>, s1: seq<char>, s2: seq<char>)
    requires IsShuffle(s0) && IsShuffle(s1) && IsShuffle(s2)
    ensures var q0 := Start(s0);
      var a1 := Pick(q0, 'A');
      var a2 := Pick(a1.quiz, 'A');
      var q3 := Advance(Advance(a2.quiz, s1).quiz, s2).quiz;
      && a1.award + a2.award == 2 * LetterPoints
      && q3.index == 2 && Letters[q3.shown] == 'C'
  {
    var q0 := Start(s0);
    var a2 := Pick(Pick(q0, 'A').quiz, 'A');
    assert a2.quiz.pendingAdvances == 2;
  }

  /** The intended click handler: a round takes one correct answer, and the finished
      quiz takes none. */
  function PickOnce(q: Quiz, letter: char): (a: Answer)
    requires q.shown < LetterCount
    ensures q.pendingAdvances > 0 || q.index >= LetterCount ==> a == Answer(q, 0)
    ensures q.pendingAdvances == 0 && q.index < LetterCount ==> a == Pick(q, letter)
  {
    if q.pendingAdvances > 0 || q.index >= LetterCount then Answer(q, 0) else Pick(q, letter)
  }

  /** The invariant of the intended game: at most one advance pending, and none once
      the last letter is done. */
  ghost predicate IntendedValid(q: Quiz) {
    && Valid(q)
    && q.pendingAdvances <= 1
    && q.index + q.pendingAdvances <= LetterCount
  }

  /** A user event: a click on a letter button, or the advance timer firing. */
  datatype Event = Choose(letter: char) | Timer(shuffled: seq<char>)

  ghost predicate Shuffles(events: seq<Event>) {
    forall k :: 0 <= k < |events| && events[k].Timer? ==> IsShuffle(events[k].shuffled)
  }

  datatype Session = Session(quiz: Quiz, score: nat, completions: nat)

  /** The intended game driven by a sequence of events. A timer event with no advance
      pending does nothing, because no timer exists then. */
  ghost function PlayIntended(q: Quiz, events: seq<Event>): (s: Session)
    requires IntendedValid(q) && Shuffles(events)
    ensures IntendedValid(s.quiz)
    decreases |events|
  {
    if events == [] then Session(q, 0, 0)
    else
      var init := events[..|events| - 1];
      assert Shuffles(init) by {
        assert forall k :: 0 <= k < |init| ==> init[k] == events[k];
      }
      var before := PlayIntended(q, init);
      var p := before.quiz;
      match events[|events| - 1]
      case Choose(letter) =>
        var a := PickOnce(p, letter);
        Session(a.quiz, before.score + a.award, before.completions)
      case Timer(shuffled) =>
        if p.pendingAdvances == 0 then before
        else
          var st := Advance(p, shuffled);
          Session(st.quiz, before.score, before.completions + (if st.completed then 1 else 0))
  }

  /** In the intended game the score is ten points per letter answered, every answer
      moves the index on by exactly one letter, and completion is announced once,
      when the index reaches 26. */
  lemma {:induction false} IntendedScoring(q: Quiz, events: seq<Event>)
    requires IntendedValid(q) && Shuffles(events)
    ensures var s := PlayIntended(q, events);
      && s.score == LetterPoints * ((s.quiz.index + s.quiz.pendingAdvances) - (q.index + q.pendingAdvances))
      && q.index <= s.quiz.index <= LetterCount
      && s.completions == (if q.index < LetterCount && s.quiz.index == LetterCount then 1 else 0)
  {
    if events != [] {
      var init := events[..|events| - 1];
      assert forall k :: 0 <= k < |init| ==> init[k] == events[k];
      IntendedScoring(q, init);
    }
  }
}
