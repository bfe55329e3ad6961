/**
 The page-level composition: the story reader and game launcher together with the
 progress bookkeeping the script layers on by reassigning functions (script.js:498-545,
 812-816, 1068-1106). `saveProgress` bumps the current account's record;
 `openStory` and `openGame` are wrapped to call it; `updateScore` is wrapped to copy
 the running game score into the record's total.

 As written, that copy overwrites the total, and opening a game resets it to zero.
 `OpenGame` and `Award` model the script; `OpenGameIntended` and `AwardIntended`
 model the evidently intended accumulating total.
 */
module App {
  import opened Wrappers
  import opened Accounts
  import StoryReader

  datatype GameKind = MemoryMatch | CountTheStars | ColorMixer | Alphabet

  datatype Activity = StoryActivity | GameActivity

  /** `currentUser`/storage, the story reader, `gameScore` and `currentGame`. */
  datatype Page = Page(session: Session, reader: StoryReader.Reader, gameScore: int, currentGame: Option<GameKind>)

  /** A page freshly loaded over some storage. */
  function Load(store: Store): (p: Page)
    ensures p.session == Reload(store) && p.gameScore == 0 && p.currentGame.None?
    ensures StoryReader.Valid(p.reader)
  {
    Page(Reload(store), StoryReader.Initial, 0, None)
  }

  /** Progress is recorded only for a logged-in account, never for nobody or a guest. */
  predicate Tracked(s: Session) {
    s.current.Some? && s.current.value.Account?
  }

  function TrackedEmail(s: Session): string
    requires Tracked(s)
  {
    s.current.value.email
  }

  /** The stored record, or the empty one when none is stored. */
  function ProgressOf(store: Store, email: string): (r: Progress)
    ensures email in store.progress ==> r == store.progress[email]
    ensures email !in store.progress ==> r == EmptyProgress
  {
    if email in store.progress then store.progress[email] else EmptyProgress
  }

  /** Everything but the tracked user's progress record is unchanged. */
  ghost predicate OnlyProgressOf(s: Session, s': Session, email: string) {
    && s'.current == s.current
    && s'.store.users == s.store.users
    && s'.store.savedUser == s.store.savedUser
    && email in s'.store.progress
    && s'.store.progress.Keys == s.store.progress.Keys + {email}
    && (forall e :: e in s.store.progress && e != email ==> s'.store.progress[e] == s.store.progress[e])
  }

  /** `saveProgress(type, score)`. */
  function SaveProgress(s: Session, activity: Activity, score: int): (s': Session)
    ensures !Tracked(s) ==> s' == s
    ensures Tracked(s) ==> OnlyProgressOf(s, s', TrackedEmail(s))
    ensures Tracked(s) ==>
      var before := ProgressOf(s.store, TrackedEmail(s));
      var after := s'.store.progress[TrackedEmail(s)];
      match activity
      case StoryActivity =>
        after == before.(storiesRead := before.storiesRead + 1)
      case GameActivity =>
        after == before.(gamesPlayed := before.gamesPlayed + 1, totalScore := before.totalScore + score)
  {
    if !Tracked(s) then s
    else
      var email := TrackedEmail(s);
      var p := ProgressOf(s.store, email);
      var p' := match activity
        case StoryActivity => p.(storiesRead := p.storiesRead + 1)
        case GameActivity => p.(gamesPlayed := p.gamesPlayed + 1, totalScore := p.totalScore + score);
      s.(store := s.store.(progress := s.store.progress[email := p']))
  }

  /** The `updateScore` wrapper: copies the running game score into the record's
      total, replacing whatever total was stored. */
  function SyncScore(s: Session, gameScore: int): (s': Session)
    ensures !Tracked(s) ==> s' == s
    ensures Tracked(s) ==> OnlyProgressOf(s, s', TrackedEmail(s))
    ensures Tracked(s) ==>
      var before := ProgressOf(s.store, TrackedEmail(s));
      s'.store.progress[TrackedEmail(s)] == before.(totalScore := gameScore)
  {
    if !Tracked(s) then s
    else
      var email := TrackedEmail(s);
      var p := ProgressOf(s.store, email);
      s.(store := s.store.(progress := s.store.progress[email := p.(totalScore := gameScore)]))
  }

  /** The wrapped `openStory`: open the reader, then count a story read. An unknown
      key throws inside the original function, so nothing is counted. */
  function OpenStory(p: Page, key: string): (p': Page)
    ensures p'.reader == StoryReader.Open(p.reader, key)
    ensures key in StoryReader.Stories ==> p'.session == SaveProgress(p.session, StoryActivity, 0)
    ensures key !in StoryReader.Stories ==> p'.session == p.session
    ensures p'.gameScore == p.gameScore && p'.currentGame == p.currentGame
  {
    var reader := StoryReader.Open(p.reader, key);
    if key in StoryReader.Stories then p.(reader := reader, session := SaveProgress(p.session, StoryActivity, 0))
    else p.(reader := reader)
  }

  /** The wrapped `openGame`: reset the game score (which the score wrapper copies into
      the total), then count a game played with score 0. */
  function OpenGame(p: Page, kind: GameKind): (p': Page)
    ensures p'.gameScore == 0 && p'.currentGame == Some(kind) && p'.reader == p.reader
    ensures !Tracked(p.session) ==> p'.session == p.session
    ensures Tracked(p.session) ==> OnlyProgressOf(p.session, p'.session, TrackedEmail(p.session))
    ensures Tracked(p.session) ==>
      var before := ProgressOf(p.session.store, TrackedEmail(p.session));
      p'.session.store.progress[TrackedEmail(p.session)]
        == before.(gamesPlayed := before.gamesPlayed + 1, totalScore := 0)
  {
    Page(SaveProgress(SyncScore(p.session, 0), GameActivity, 0), p.reader, 0, Some(kind))
  }

  /** The restart button re-opens the current game, if one was ever opened. */
  function Restart(p: Page): (p': Page)
    ensures p.currentGame.None? ==> p' == p
    ensures p.currentGame.Some? ==> p' == OpenGame(p, p.currentGame.value)
  {
    match p.currentGame
    case None => p
    case Some(kind) => OpenGame(p, kind)
  }

  /** A game awarding `points` (`gameScore += points; updateScore()`). */
  function Award(p: Page, points: nat): (p': Page)
    ensures p'.gameScore == p.gameScore + points
    ensures p'.reader == p.reader && p'.currentGame == p.currentGame
    ensures !Tracked(p.session) ==> p'.session == p.session
    ensures Tracked(p.session) ==> OnlyProgressOf(p.session, p'.session, TrackedEmail(p.session))
    ensures Tracked(p.session) ==>
      var before := ProgressOf(p.session.store, TrackedEmail(p.session));
      p'.session.store.progress[TrackedEmail(p.session)] == before.(totalScore := p'.gameScore)
  {
    p.(gameScore := p.gameScore + points, session := SyncScore(p.session, p.gameScore + points))
  }

  function Sum(points: seq<nat>): nat
  {
    if points == [] then 0 else Sum(points[..|points| - 1]) + points[|points| - 1]
  }

  /** A run of awards. */
  function AwardAll(p: Page, points: seq<nat>): Page
  {
    if points == [] then p else Award(AwardAll(p, points[..|points| - 1]), points[|points| - 1])
  }

  /** As written, after opening a game the stored total is the running score of that
      game alone: every earlier total is gone. Games played still counts the opening. */
  lemma {:induction false} TotalIsSessionScore(p: Page, kind: GameKind, points: seq<nat>)
    requires Tracked(p.session)
    ensures var q := AwardAll(OpenGame(p, kind), points);
      var e := TrackedEmail(p.session);
      var before := ProgressOf(p.session.store, e);
      && q.session.current == p.session.current
      && q.gameScore == Sum(points)
      && q.session.store.progress[e].totalScore == Sum(points)
      && q.session.store.progress[e].gamesPlayed == before.gamesPlayed + 1
      && q.session.store.progress[e].storiesRead == before.storiesRead
  {
    if points != [] {
      TotalIsSessionScore(p, kind, points[..|points| - 1]);
    }
  }

  /** Concretely: a parent with 50 points on record opens a game and the record
      drops to 0. */
  lemma OpenGameErasesTotal()
    ensures var u := DemoUsers["parent@demo.com"];
      var store := Store(map[], map["parent@demo.com" := Progress(1, 1, 50)], Some(u));
      var q := OpenGame(Load(store), MemoryMatch);
      q.session.store.progress["parent@demo.com"] == Progress(1, 2, 0)
  {
  }

  /** The evidently intended game opening: count the game, keep the total. */
  function OpenGameIntended(p: Page, kind: GameKind): (p': Page)
    ensures p'.gameScore == 0 && p'.currentGame == Some(kind) && p'.reader == p.reader
    ensures !Tracked(p.session) ==> p'.session == p.session
    ensures Tracked(p.session) ==> OnlyProgressOf(p.session, p'.session, TrackedEmail(p.session))
    ensures Tracked(p.session) ==>
      var before := ProgressOf(p.session.store, TrackedEmail(p.session));
      p'.session.store.progress[TrackedEmail(p.session)] == before.(gamesPlayed := before.gamesPlayed + 1)
  {
    Page(SaveProgress(p.session, GameActivity, 0), p.reader, 0, Some(kind))
  }

  /** The evidently intended award: the points are added to the stored total. */
  function AwardIntended(p: Page, points: nat): (p': Page)
    ensures p'.gameScore == p.gameScore + points
    ensures p'.reader == p.reader && p'.currentGame == p.currentGame
    ensures !Tracked(p.session) ==> p'.session == p.session
    ensures Tracked(p.session) ==> OnlyProgressOf(p.session, p'.session, TrackedEmail(p.session))
    ensures Tracked(p.session) ==>
      var before := ProgressOf(p.session.store, TrackedEmail(p.session));
      p'.session.store.progress[TrackedEmail(p.session)] == before.(totalScore := before.totalScore + points)
  {
    p.(gameScore := p.gameScore + points, session := AddToTotal(p.session, points))
  }

  /** The intended score bookkeeping: only the total moves. */
  function AddToTotal(s: Session, points: nat): (s': Session)
    ensures !Tracked(s) ==> s' == s
    ensures Tracked(s) ==> OnlyProgressOf(s, s', TrackedEmail(s))
    ensures Tracked(s) ==>
      var before := ProgressOf(s.store, TrackedEmail(s));
      s'.store.progress[TrackedEmail(s)] == before.(totalScore := before.totalScore + points)
  {
    if !Tracked(s) then s
    else
      var email := TrackedEmail(s);
      var p := ProgressOf(s.store, email);
      s.(store := s.store.(progress := s.store.progress[email := p.(totalScore := p.totalScore + points)]))
  }

  function AwardAllIntended(p: Page, points: seq<nat>): Page
  {
    if points == [] then p else AwardIntended(AwardAllIntended(p, points[..|points| - 1]), points[|points| - 1])
  }

  /** In the intended bookkeeping, a game adds its score to the stored total. */
  lemma {:induction false} IntendedTotalAccumulates(p: Page, kind: GameKind, points: seq<nat>)
    requires Tracked(p.session)
    ensures var q := AwardAllIntended(OpenGameIntended(p, kind), points);
      var e := TrackedEmail(p.session);
      var before := ProgressOf(p.session.store, e);
      && q.session.current == p.session.current
      && q.gameScore == Sum(points)
      && q.session.store.progress[e].totalScore == before.totalScore + Sum(points)
      && q.session.store.progress[e].gamesPlayed == before.gamesPlayed + 1
      && q.session.store.progress[e].storiesRead == before.storiesRead
  {
    if points != [] {
      IntendedTotalAccumulates(p, kind, points[..|points| - 1]);
    }
  }

  /** A guest, or nobody, leaves storage untouched whatever is read or played. */
  lemma GuestWritesNothing(p: Page, key: string, kind: GameKind, points: nat)
    requires !Tracked(p.session)
    ensures OpenStory(p, key).session == p.session
    ensures OpenGame(p, kind).session == p.session
    ensures Award(p, points).session == p.session
    ensures Restart(p).session == p.session
  {
  }

  /** Every page operation keeps the story reader on a real page. */
  lemma ReaderStaysValid(p: Page, key: string, kind: GameKind, points: nat)
    requires StoryReader.Valid(p.reader)
    ensures StoryReader.Valid(OpenStory(p, key).reader)
    ensures StoryReader.Valid(OpenGame(p, kind).reader)
    ensures StoryReader.Valid(Award(p, points).reader)
  {
  }
}
