# Little Stars interaction rules in Dafny

This project models the stateful rules inside `script.js` of the Little Stars nursery
site. That file is mostly page glue. Seven small rule sets can be pulled out of its
click and key handlers, and each is written here as an immutable state datatype with
pure transition functions:

- the story reader's current page (`StoryReader`);
- the four mini-games: Memory Match (`MemoryGame`), Count the Stars (`CountingGame`),
  Color Mixer (`ColorMixer`) and ABC Adventure (`AlphabetGame`);
- the Konami-code easter egg buffer (`Konami`);
- the demo login, registration, guest and logout flow over browser storage (`Accounts`);
- the progress bookkeeping that the script layers onto `openStory`, `openGame` and
  `updateScore` (`App`).

Each `setTimeout` callback is an explicit event that the caller fires:

- `MemoryGame.Resolve`
- `CountingGame.Regenerate`
- `ColorMixer.ResetSelection`
- `AlphabetGame.Advance`

`Math.random` and the random-comparator shuffles are parameters. The dice rolls are
bounded naturals, and a shuffle is any permutation of the deck or alphabet. Browser
storage is a value of type `Accounts.Store`.

Each game reports the points a step awards. `App.Award` then applies them to the
shared `gameScore` and the score wrapper.

`SeqFacts` holds generic lemmas about occurrences in sequences, and `Wrappers` holds
`Option`.

In these places the model follows what the code does rather than what its names and
messages suggest:

- Closing the story modal only hides it. The story and page are kept.
- Opening an unknown story key does not quietly do nothing. It sets `currentStory` to
  `undefined` and the page to 0, then throws before anything else happens. So no story
  is counted and the modal stays as it was.
- No progress is saved when a game is closed. Opening a game, and restarting one
  (which opens it again), counts one game played and resets the stored total to 0.
  After that, every score change overwrites the stored total with the running game
  score.
- A new counting round is appended below the old round rather than replacing it.
- A correct alphabet answer can be clicked again before the advance timer fires.
- Choosing a guest level does not update the stored session marker. A later failed
  login does write the guest to it, because the login wrapper stores any non-null
  user.
- The logout button keeps the function it was given before the page-load wrapper
  rebinds `logout`, so logging out leaves the session marker in storage.

## Model

| member | source | states |
|---|---|---|
| StoryReader.Open | script.js:441-449 | opening resets the page to 0. A known key shows that story; an unknown key leaves no story loaded and the modal as it was |
| StoryReader.Next | script.js:470-475 | next moves forward by exactly one page, and only when a story is loaded and its last page is not shown. It keeps the page inside the story |
| StoryReader.Prev | script.js:463-468 | previous moves back by exactly one page, and only when the page is above 0. It keeps the page inside the story |
| StoryReader.Close | script.js:485-488 | closing hides the modal and keeps the story and the page |
| StoryReader.ButtonsMatchHandlers | script.js:451-475 | on an open story, each navigation handler moves exactly when `updateStoryPage` left its button enabled |
| StoryReader.NextPrevRoundTrip | script.js:463-475 | next and previous undo each other wherever they move |
| StoryReader.OpenThenNext | script.js:441-475 | after opening a story, k presses of next show page min(k, pages-1), so the page never passes the last page and never skips one |
| MemoryGame.ShuffleIsPermutation | script.js:553-554 | a shuffle is exactly a permutation of the doubled eight-symbol list |
| MemoryGame.ShuffleSize | script.js:553-554 | a shuffled board has 16 cards, each of the 8 symbols on exactly two of them, and no other symbol |
| MemoryGame.NewGame | script.js:552-566 | the dealt board lays out the shuffle face down, with nothing pending and no pairs, and satisfies the game invariant |
| MemoryGame.Click | script.js:568-573 | a card flips exactly when fewer than two cards are pending and it is neither flipped nor matched. The card joins the pending list, matched cards never change, and the invariant (at most two pending, exactly the face-up unmatched cards) is kept |
| MemoryGame.Resolve | script.js:574-594 | an equal pair becomes matched with +10 and one more pair. An unequal pair flips back with no points. The pending list empties, other cards are untouched, and completion is signalled exactly when 8 pairs, that is every card, are matched |
| MemoryGame.PairsBounded | script.js:582-586 | the pair counter never exceeds 8 and equals 8 exactly when every card is matched |
| MemoryGame.PairAvailable | script.js:562-594 | while the game is unfinished and nothing is pending, the board holds two face-down cards with the same symbol |
| MemoryGame.MatchingPairScores | script.js:568-594 | flipping such a pair and letting the timer fire scores +10 and one more pair |
| MemoryGame.PerfectPlay | script.js:562-594 | playing pairs one after another from any reachable state ends with all 8 pairs matched |
| CountingGame.NewRound | script.js:610-618 | a round's target is in [1,10], it shows between target+2 and target+6 stars, and nothing is clicked yet |
| CountingGame.NewRoundCovers | script.js:610-618 | every target in [1,10] and every star count in [target+2, target+6] comes from some dice roll |
| CountingGame.Click | script.js:627-645 | re-clicking a star changes nothing. A new star raises the count by one. The +20 is awarded exactly when the count becomes the target, and the error exactly when it passes it |
| CountingGame.ClickIdempotent | script.js:627-630 | clicking the same star twice equals clicking it once |
| CountingGame.RunOnRound | script.js:619-645 | over any clicks on a fresh round, the marked stars are exactly those clicked and the count is their number. The 20 points are won once if the target was reached and never otherwise. Every click from the target on shows a notice and schedules a new round |
| CountingGame.StartBoard | script.js:606-653 | opening the game shows a single fresh round |
| CountingGame.ClickOn | script.js:627-645 | a click on any round still on screen updates only that round and adds one pending regeneration per notice |
| CountingGame.Regenerate | script.js:636-652 | the timer appends a fresh round after all earlier rounds, which stay on screen |
| CountingGame.ExtraClickAfterPerfect | script.js:627-652 | as written, one more click after a perfect count shows the error too and schedules a second round, leaving three rounds on screen |
| CountingGame.StartLive | script.js:606-653 | the corrected game starts with one open fresh round |
| CountingGame.ClickLive | script.js:627-645 | in the corrected game, a finished round ignores clicks, and a round closes on its first notice |
| CountingGame.RegenerateLive | script.js:636-643 | in the corrected game, the next round replaces the finished one |
| CountingGame.LiveRoundEndsOnce | script.js:627-645 | in the corrected game, a round shows at most one notice (so at most one regeneration) and awards the 20 points at most once |
| ColorMixer.Mix | script.js:710-724 | a mix is always orange, green, purple or the unmixed box, and a colored result needs two different palette colors |
| ColorMixer.MixSymmetric | script.js:715-723 | the mix does not depend on which color was picked first |
| ColorMixer.MixTable | script.js:710-724 | orange, green and purple each come from exactly one unordered pair of palette colors, and every other pair falls back to the unmixed box |
| ColorMixer.DistinctColorsMix | script.js:667-671 | two different palette colors always mix to orange, green or purple |
| ColorMixer.Select | script.js:682-696 | a color is added only while fewer than two are selected and it is not yet selected. The second pick mixes the pair and awards exactly 15. Otherwise the box is unchanged, and the selection stays at most two distinct palette colors |
| ColorMixer.ResetSelection | script.js:689-694 | the timer empties the selection and keeps the shown result |
| ColorMixer.MixAlwaysColored | script.js:683-728 | every mix the guard allows names a real color, so the fallback is unreachable |
| ColorMixer.OrderIndependent | script.js:682-728 | two different colors picked in either order give the same colored result and 15 points each time |
| AlphabetGame.LettersAreLetters | script.js:738-746 | the quiz letters are the upper-case letters of the animal table |
| AlphabetGame.Choices | script.js:762-766 | a round offers 6 distinct letters that always include the current one. All but the first button come from the shuffle |
| AlphabetGame.Start | script.js:746-751 | the quiz starts on the first letter with nothing pending |
| AlphabetGame.Pick | script.js:773-793 | a correct pick awards 10 and schedules one advance. A wrong pick changes nothing and awards nothing |
| AlphabetGame.Advance | script.js:780-787 | an advance moves the index on by one. It shows the next letter's buttons while letters remain, and signals completion exactly when the index reaches 26 or more |
| AlphabetGame.DoubleCorrectPickSkipsLetter | script.js:773-787 | as written, a second click on the correct letter before the timer fires awards twice and lands on C after A |
| AlphabetGame.PickOnce | script.js:773-793 | in the corrected quiz, a pick is ignored while an advance is pending or after the last letter |
| AlphabetGame.PlayIntended | script.js:773-787 | the corrected quiz keeps its invariant under any events: at most one advance pending, and never past 26 |
| AlphabetGame.IntendedScoring | script.js:773-787 | in the corrected quiz the score is 10 per letter answered, and completion is announced exactly once, when the index reaches 26 |
| Konami.Last | script.js:251-254 | the kept window is the suffix of the requested length, or all of a shorter input |
| Konami.KeyDown | script.js:250-260 | the buffer never exceeds 10 keys. The egg fires exactly when the last 10 keys spell the code, it fires only on the code's last key, and it empties the buffer |
| Konami.Type | script.js:250-260 | any run of keys keeps the buffer within 10 |
| Konami.SecretAlwaysFires | script.js:250-260 | for a code whose last key occurs nowhere earlier, typing it fires exactly once, on the last key, whatever was typed before |
| Konami.CodeLastKeyUnique | script.js:244-248 | "KeyA" occurs only at the end of the code |
| Konami.CodeAlwaysFires | script.js:243-260 | typing Up Up Down Down Left Right Left Right B A fires the egg exactly once and leaves the buffer empty |
| Accounts.Remember | script.js:1128-1142 | after a login or registration, a non-null current user is written to the session marker |
| Accounts.Login | script.js:962-985 | login succeeds exactly on a demo or stored password match, and demo accounts take priority. A failure changes no user, and accounts and progress are never touched. Afterwards the marker holds the current user whenever there is one, even after a failure, and is otherwise unchanged |
| Accounts.NewAccount | script.js:929-937 | the registration form builds a parent account whose child name is the parent's own name field |
| Accounts.Register | script.js:987-1003 | an existing email fails and leaves users and the current user unchanged. Otherwise exactly that key is inserted with the new account, which is logged in and remembered. Either way a non-null current user ends up in the marker |
| Accounts.SetGuest | script.js:1005-1017 | "Guest User" with child "Little Star" at the chosen level becomes current. The child's age is 2 for toddler, 3 for preschool and 4 otherwise, and storage is untouched |
| Accounts.Logout | script.js:1048-1053 | the logout button clears only the page's user. Storage, including the session marker, is untouched |
| Accounts.LogoutIntended | script.js:1144-1148 | the rebound logout clears the user and removes the marker, and keeps accounts and progress |
| Accounts.Reload | script.js:1109-1116 | a page load restores the remembered user |
| Accounts.RegisterThenLogin | script.js:962-1003 | registering a fresh email and logging in with it yields the new account, unless a demo account owns that email and password |
| Accounts.DuplicateRegistration | script.js:987-996 | a second registration of an email fails and does not overwrite the first record |
| Accounts.DemoShadowsRegistration | script.js:962-996 | registering parent@demo.com with the demo password succeeds, but logging in yields the demo account |
| Accounts.AccountsOnlyGrow | script.js:962-1003 | login and registration never remove a stored account |
| Accounts.ReloadRestoresLogin | script.js:1109-1148 | a successful login survives a reload, and after a logout by the button a reload restores whoever was remembered |
| Accounts.LogoutUndoneByReload | script.js:955 | as bound, a demo parent who logs in, logs out and reloads is logged in again |
| Accounts.IntendedLogoutForgets | script.js:1144-1148 | with the intended logout, a reload after logging out finds nobody, including right after a login |
| Accounts.FailedLoginRemembersGuest | script.js:1128-1134 | a failed login while a guest is current writes the guest to the marker, so the next page load restores the guest |
| Accounts.GuestNotRemembered | script.js:1005-1017 | after switching to guest, a reload restores whoever was remembered before |
| App.Load | script.js:1109-1116 | a fresh page restores the remembered user, has no game open, and has a valid reader |
| App.ProgressOf | script.js:1072 | a missing progress record reads as all zeros |
| App.SaveProgress | script.js:1069-1082 | nothing is saved for nobody or a guest. Otherwise a story raises storiesRead by one, and a game raises gamesPlayed by one and adds the score to the total. No other record or stored field changes |
| App.SyncScore | script.js:1098-1106 | for an account, the score wrapper replaces only the stored total, with the game score |
| App.OpenStory | script.js:1085-1089 | opening a known story counts one story read; an unknown key counts nothing |
| App.OpenGame | script.js:1091-1095 | opening a game zeroes the game score, counts one game played and, as written, sets the stored total to 0 |
| App.Restart | script.js:812-816 | restart re-opens the current game and does nothing before a game was opened |
| App.Award | script.js:1098-1106 | an award raises the game score, and for an account the stored total becomes that game score |
| App.TotalIsSessionScore | script.js:1091-1106 | as written, after opening a game and any awards, the stored total equals that game's score alone |
| App.OpenGameErasesTotal | script.js:1091-1106 | a parent with 50 points on record opens a game and the record drops to 0 |
| App.OpenGameIntended | script.js:1069-1082 | corrected: opening a game only counts it |
| App.AddToTotal | script.js:1069-1082 | corrected: for an account the points are added to the stored total, and nothing else changes |
| App.AwardIntended | script.js:1069-1082 | corrected: an award adds its points to both the game score and the stored total |
| App.IntendedTotalAccumulates | script.js:1069-1082 | corrected: after a game the stored total is the old total plus that game's score, and gamesPlayed has risen by one |
| App.GuestWritesNothing | script.js:1069-1106 | a guest or logged-out page never writes progress |
| App.ReaderStaysValid | script.js:441-475 | page operations keep the current page on a real page |

## Findings

| source | as written | input that shows it | evidently intended | confidence | as-written member | corrected member |
|---|---|---|---|---|---|---|
| script.js:773-787 | the correct letter's button stays clickable until the one-second timer re-renders. Each click awards 10 and schedules another advance | on the first round, click "A" twice within a second | one award and one advance per letter, with every letter shown | medium, not executed | AlphabetGame.Pick, AlphabetGame.DoubleCorrectPickSkipsLetter | AlphabetGame.PickOnce, AlphabetGame.IntendedScoring |
| script.js:627-652 | the regeneration timer appends a new round and leaves the finished round clickable. A further click shows the error too and schedules another round | target 1: click one star, then a second star of the same round | one outcome per round, with the next round replacing it | medium, not executed | CountingGame.ClickOn, CountingGame.ExtraClickAfterPerfect | CountingGame.ClickLive, CountingGame.LiveRoundEndsOnce |
| script.js:1091-1106 | the `updateScore` wrapper overwrites the stored total with the running game score, and opening a game zeroes it | an account with totalScore 50 opens any game | the total accumulates across games | medium, not executed | App.OpenGame, App.OpenGameErasesTotal | App.AwardIntended, App.IntendedTotalAccumulates |
| script.js:955 | the logout button is given the original `logout` before the page-load code rebinds the name at 1144-1148, so the marker is never removed | log in as parent@demo.com, press logout, reload the page | a reload after logout finds nobody | high, not executed | Accounts.Logout, Accounts.LogoutUndoneByReload | Accounts.LogoutIntended, Accounts.IntendedLogoutForgets |

## Left out

- Rendering is not modelled because it has no stateful rules. This covers:
  - DOM manipulation, styling and animations;
  - the navigation menu, parallax, ripples and particles;
  - the notification banner and the dashboard view;
  - the contact form;
  - the opening and closing of the login, dashboard and game modals, and the login tab switch.
- Time is not modelled. Each timer is an event the caller fires, and the model does not constrain the order in which several pending timers fire.
- Randomness is a parameter. The uniformity of `Math.random` and of the random-comparator sort is not modelled.
- `localStorage`, `JSON.parse` and `JSON.stringify` are left out: storage is the in-memory `Accounts.Store`. A corrupt stored value is not modelled.
- Object lookups are modelled as map membership. JavaScript would also find inherited keys such as `constructor`, which the model ignores.
- The age field of the registration form is an integer. The `NaN` that `parseInt` can produce is not modelled.
- Story page contents (scene glyphs and text) are left out because they are rendering only. A story is its title and its page count.
- The game modules are independent of `App`: `App` records the score side of every game through `App.Award` but does not hold the game boards. Timers left over from a previous game are not modelled.
- The alphabet game's `correctAnswers` counter is left out because nothing reads it.
- Konami.KeyDown: compares the buffer with the code as a sequence, while the script compares the comma-joined strings. The two agree because no standard key code contains a comma.
- AlphabetGame.IsShuffle: a shuffle of the alphabet is stated as 26 distinct upper-case letters, which is the same set of sequences as the permutations of A to Z.
- `saveProgress` with an activity other than story or game is left out, because the script never calls it that way.
- Game kinds outside the four buttons are left out, because the buttons are the only callers.
