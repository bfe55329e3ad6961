/**
 Count the Stars (`createCountingGame`, script.js:606-653). A round announces a
 target between 1 and 10 and shows between target+2 and target+6 stars; clicking a
 star marks it once. Reaching the target exactly awards 20 points, passing it shows
 an error, and either outcome schedules a new round after two seconds, modelled as
 the explicit `Regenerate` event.

 As written, a new round is appended below the old one, which stays on screen and
 clickable. `Board` and `ClickOn` model that; `Live` and `ClickLive` model the
 evidently intended game in which a finished round takes no more clicks and is
 replaced by the next.
 */
module CountingGame {

  const MaxTarget: nat := 10
  /** Points for counting exactly right. */
  const PerfectPoints: nat := 20

  /** `targetCount`, one flag per star (its `clicked` class), and `clickedCount`. */
  datatype Round = Round(target: nat, stars: seq<bool>, clickedCount: nat)

  /** The notice a click shows; a notice always comes with a scheduled regeneration. */
  datatype Notice = Quiet | Perfect | TooMany

  datatype Tap = Tap(round: Round, award: nat, notice: Notice)

  function CountClicked(stars: seq<bool>): nat
  {
    if stars == [] then 0
    else CountClicked(stars[..|stars| - 1]) + (if stars[|stars| - 1] then 1 else 0)
  }

  /** The counter agrees with the stars marked clicked. */
  ghost predicate Valid(r: Round) {
    r.clickedCount == CountClicked(r.stars)
  }

  /** A fresh round. `targetRoll` is `Math.floor(Math.random() * 10)` and `extraRoll`
      is `Math.floor(Math.random() * 5)`, so the target is the first plus one and
      the star count is target + extraRoll + 2. */
  function NewRound(targetRoll: nat, extraRoll: nat): (r: Round)
    requires targetRoll < 10 && extraRoll < 5
    ensures 1 <= r.target <= MaxTarget
    ensures r.target + 2 <= |r.stars| <= r.target + 6
    ensures r.clickedCount == 0 && Valid(r)
    ensures forall i :: 0 <= i < |r.stars| ==> !r.stars[i]
  {
    var target := targetRoll + 1;
    var stars := seq(target + extraRoll + 2, _ => false);
    NoneClicked(stars);
    Round(target, stars, 0)
  }

  lemma {:induction false} NoneClicked(stars: seq<bool>)
    requires forall i :: 0 <= i < |stars| ==> !stars[i]
    ensures CountClicked(stars) == 0
  {
    if stars != [] {
      NoneClicked(stars[..|stars| - 1]);
    }
  }

  /** Every target in range and every star count the source allows for it comes from
      some pair of rolls. */
  lemma NewRoundCovers(target: nat, total: nat)
    requires 1 <= target <= MaxTarget && target + 2 <= total <= target + 6
    ensures NewRound(target - 1, total - target - 2).target == target
    ensures |NewRound(target - 1, total - target - 2).stars| == total
  {
  }

  /** Marking one more star raises the count by one. */
  lemma {:induction false} CountClickedMark(stars: seq<bool>, i: nat)
    requires i < |stars| && !stars[i]
    ensures CountClicked(stars[i := true]) == CountClicked(stars) + 1
  {
    var n := |stars| - 1;
    if i < n {
      assert stars[i := true][..n] == stars[..n][i := true];
      CountClickedMark(stars[..n], i);
    } else {
      assert stars[i := true][..n] == stars[..n];
    }
  }

  /** A click on star `i` of round `r`. */
  function Click(r: Round, i: nat): (t: Tap)
    requires i < |r.stars|
    ensures Valid(r) ==> Valid(t.round)
    ensures t.round.target == r.target && |t.round.stars| == |r.stars|
    ensures r.stars[i] ==> t == Tap(r, 0, Quiet)
    ensures !r.stars[i] ==> t.round.clickedCount == r.clickedCount + 1
    ensures t.round.stars == r.stars[i := true]
    ensures t.award == PerfectPoints <==> !r.stars[i] && r.clickedCount + 1 == r.target
    ensures t.award == 0 || t.award == PerfectPoints
    ensures t.notice == Perfect <==> t.award == PerfectPoints
    ensures t.notice == TooMany <==> !r.stars[i] && r.clickedCount + 1 > r.target
  {
    if r.stars[i] then
      assert r.stars[i := true] == r.stars;
      Tap(r, 0, Quiet)
    else
      var count := r.clickedCount + 1;
      var next := Round(r.target, r.stars[i := true], count);
      CountClickedMark(r.stars, i);
      if count == r.target then Tap(next, PerfectPoints, Perfect)
      else if count > r.target then Tap(next, 0, TooMany)
      else Tap(next, 0, Quiet)
  }

  /** Clicking the same star twice is the same as clicking it once. */
  lemma ClickIdempotent(r: Round, i: nat)
    requires i < |r.stars|
    ensures Click(Click(r, i).round, i) == Tap(Click(r, i).round, 0, Quiet)
  {
  }

  /** A run of clicks on one round: the final round, the points won and the number of
      notices (each of which schedules a regeneration). */
  datatype Run = Run(round: Round, award: nat, notices: nat)

  function Clicks(r: Round, taps: seq<nat>): (run: Run)
    requires forall k :: 0 <= k < |taps| ==> taps[k] < |r.stars|
    ensures |run.round.stars| == |r.stars| && run.round.target == r.target
  {
    if taps == [] then Run(r, 0, 0)
    else
      var before := Clicks(r, taps[..|taps| - 1]);
      var t := Click(before.round, taps[|taps| - 1]);
      Run(t.round, before.award + t.award, before.notices + (if t.notice == Quiet then 0 else 1))
  }

  /** Over any run of clicks on a fresh round, the count is the number of distinct
      stars clicked, and the 20 points are won once if the count ever reached the
      target and never otherwise. A notice (and regeneration) follows every click
      from the target onwards. */
  lemma {:induction false} RunOnRound(r: Round, taps: seq<nat>)
    requires Valid(r) && r.clickedCount == 0 && 1 <= r.target
    requires forall k :: 0 <= k < |taps| ==> taps[k] < |r.stars|
    ensures var run := Clicks(r, taps);
      && Valid(run.round) && run.round.target == r.target
      && |run.round.stars| == |r.stars|
      && (forall j :: 0 <= j < |r.stars| ==> (run.round.stars[j] <==> r.stars[j] || j in taps))
      && run.award == (if run.round.clickedCount >= r.target then PerfectPoints else 0)
      && run.notices == (if run.round.clickedCount >= r.target then run.round.clickedCount - r.target + 1 else 0)
  {
    if taps != [] {
      var init := taps[..|taps| - 1];
      assert forall k :: 0 <= k < |init| ==> init[k] == taps[k];
      RunOnRound(r, init);
      var before := Clicks(r, init);
      var i := taps[|taps| - 1];
      forall j | 0 <= j < |r.stars|
        ensures Clicks(r, taps).round.stars[j] <==> r.stars[j] || j in taps
      {
        assert j in taps <==> j in init || j == i;
      }
    }
  }

  /** The board as written: every round ever generated stays on screen, and every
      notice leaves one regeneration pending. */
  datatype Board = Board(rounds: seq<Round>, pendingRegenerations: nat)

  datatype BoardTap = BoardTap(board: Board, award: nat, notice: Notice)

  /** `openGame('counting')`: one fresh round. */
  function StartBoard(targetRoll: nat, extraRoll: nat): (b: Board)
    requires targetRoll < 10 && extraRoll < 5
    ensures |b.rounds| == 1 && b.pendingRegenerations == 0
    ensures b.rounds[0] == NewRound(targetRoll, extraRoll)
  {
    Board([NewRound(targetRoll, extraRoll)], 0)
  }

  /** A click on star `i` of the `k`-th round on screen. */
  function ClickOn(b: Board, k: nat, i: nat): (t: BoardTap)
    requires k < |b.rounds| && i < |b.rounds[k].stars|
    ensures |t.board.rounds| == |b.rounds|
    ensures forall j :: 0 <= j < |b.rounds| && j != k ==> t.board.rounds[j] == b.rounds[j]
    ensures t.board.rounds[k] == Click(b.rounds[k], i).round
    ensures t.award == Click(b.rounds[k], i).award
    ensures t.board.pendingRegenerations
         == b.pendingRegenerations + (if t.notice == Quiet then 0 else 1)
  {
    var tap := Click(b.rounds[k], i);
    var pending := b.pendingRegenerations + (if tap.notice == Quiet then 0 else 1);
    BoardTap(Board(b.rounds[k := tap.round], pending), tap.award, tap.notice)
  }

  /** The two-second timer: `createCountingGame` appends a new round to the game area. */
  function Regenerate(b: Board, targetRoll: nat, extraRoll: nat): (b': Board)
    requires b.pendingRegenerations > 0
    requires targetRoll < 10 && extraRoll < 5
    ensures |b'.rounds| == |b.rounds| + 1
    ensures b'.rounds[..|b.rounds|] == b.rounds
    ensures b'.rounds[|b.rounds|] == NewRound(targetRoll, extraRoll)
    ensures b'.pendingRegenerations + 1 == b.pendingRegenerations
  {
    Board(b.rounds + [NewRound(targetRoll, extraRoll)], b.pendingRegenerations - 1)
  }

  /** As written, one more click on a round already counted right shows the error
      notice and schedules a second regeneration; once both timers fire, three
      rounds are on screen. */
  lemma ExtraClickAfterPerfect()
    ensures var b0 := StartBoard(0, 0);
      var t1 := ClickOn(b0, 0, 0);
      var t2 := ClickOn(t1.board, 0, 1);
      var b3 := Regenerate(Regenerate(t2.board, 0, 0), 0, 0);
      && t1.notice == Perfect && t1.award == PerfectPoints
      && t2.notice == TooMany && t2.board.pendingRegenerations == 2
      && |b3.rounds| == 3
  {
  }

  /** The intended game: one round on screen, closed once it shows its notice. */
  datatype Live = Live(round: Round, closed: bool)

  datatype LiveTap = LiveTap(live: Live, award: nat, notice: Notice)

  function StartLive(targetRoll: nat, extraRoll: nat): (l: Live)
    requires targetRoll < 10 && extraRoll < 5
    ensures !l.closed && l.round == NewRound(targetRoll, extraRoll)
  {
    Live(NewRound(targetRoll, extraRoll), false)
  }

  /** A click on the live round; a closed round ignores it. */
  function ClickLive(l: Live, i: nat): (t: LiveTap)
    requires i < |l.round.stars|
    ensures l.closed ==> t == LiveTap(l, 0, Quiet)
    ensures !l.closed ==> t.live.round == Click(l.round, i).round && t.award == Click(l.round, i).award
    ensures t.live.closed <==> l.closed || t.notice != Quiet
  {
    if l.closed then LiveTap(l, 0, Quiet)
    else
      var tap := Click(l.round, i);
      LiveTap(Live(tap.round, tap.notice != Quiet), tap.award, tap.notice)
  }

  /** The intended regeneration replaces the finished round. */
  function RegenerateLive(l: Live, targetRoll: nat, extraRoll: nat): (l': Live)
    requires l.closed
    requires targetRoll < 10 && extraRoll < 5
    ensures !l'.closed && l'.round == NewRound(targetRoll, extraRoll)
  {
    StartLive(targetRoll, extraRoll)
  }

  datatype LiveRun = LiveRun(live: Live, award: nat, notices: nat, perfects: nat)

  function ClicksLive(l: Live, taps: seq<nat>): (run: LiveRun)
    requires forall k :: 0 <= k < |taps| ==> taps[k] < |l.round.stars|
    ensures |run.live.round.stars| == |l.round.stars|
  {
    if taps == [] then LiveRun(l, 0, 0, 0)
    else
      var before := ClicksLive(l, taps[..|taps| - 1]);
      var t := ClickLive(before.live, taps[|taps| - 1]);
      LiveRun(t.live, before.award + t.award,
              before.notices + (if t.notice == Quiet then 0 else 1),
              before.perfects + (if t.notice == Perfect then 1 else 0))
  }

  /** In the intended game a round shows at most one notice, so it schedules at most
      one regeneration, and it awards the 20 points at most once. */
  lemma {:induction false} LiveRoundEndsOnce(l: Live, taps: seq<nat>)
    requires !l.closed && Valid(l.round) && l.round.clickedCount < l.round.target
    requires forall k :: 0 <= k < |taps| ==> taps[k] < |l.round.stars|
    ensures var run := ClicksLive(l, taps);
      && |run.live.round.stars| == |l.round.stars|
      && run.notices <= 1
      && (run.notices == 1 <==> run.live.closed)
      && run.award == PerfectPoints * run.perfects
      && run.perfects <= run.notices
  {
    if taps != [] {
      var init := taps[..|taps| - 1];
      assert forall k :: 0 <= k < |init| ==> init[k] == taps[k];
      LiveRoundEndsOnce(l, init);
    }
  }
}
