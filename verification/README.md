# Learning-app game sessions and screen rules, in Dafny

This project models the client-side logic of a React Native learning app:

- **Three game sessions**, each played over the questions of one learning module:
  - the timed **quiz**, with a once-per-question hint that removes wrong choices;
  - the **matching** game, which pairs question cards with answer cards;
  - **rock-paper-scissors** (RPS), whose challenge mode asks bonus questions between rounds.
- **The result screen** every game ends on. It normalises the reported score, shows a rounded percentage, submits the score once and adds the granted XP to the stored user.
- **The small rules of the other screens:**
  - the module reader: page turning, scroll and progress percentages, the completion reward, and the question load that unlocks the games;
  - the four-per-page pagination of the announcement board and the module catalogue;
  - the case-insensitive search over peer feedback;
  - the home screen's XP-to-level arithmetic.

Each source screen is one Dafny module. `Common` holds the shared values:

- the question record;
- the result a finished game hands on (`Finalize`);
- the stored user record and the store that holds it;
- the exact integer form of `Math.round(n / d)`.

`Pagination` defines the page arithmetic once for both paginated lists.

State that a screen updates step by step is a class. Its fields are the screen's state variables. Its `Valid()` predicate holds the session invariants, and each handler is a method whose `ensures` gives the whole new state. The things a program cannot see become explicit inputs and outputs:

- **Timers.** The 1-second countdowns are `TimerStep` methods, one per pass of the timer effect. The 600 ms and 700 ms delays are their own methods (`QuestionDelayElapsed`, `ClearSelection`).
- **Randomness.** `Math.random` choices are parameters: the CPU's hand, the hint's shuffle of wrong keys (any permutation of them), and the deck shuffle (a sequence of swaps).
- **Server replies.** Each reply is a datatype covering its shapes and its failure.
- **Navigation.** Handing a result on is a returned `Option<Finalize>`. A `finished` flag stands for the screen being replaced, after which every handler does nothing.

Two screens never reach their servers. `screens/AnnouncementScreen.js` fetches from `API_BASE` and `screens/PeerFeedbackScreen.js` from `API`, and neither name is defined in its file. Each load therefore throws inside its `try`, and the list stays empty. The models keep the load logic for the case where it does run, and their `LoadFailed` reply is this case.

Where the code departs from what it evidently sets out to do, the model follows the code as written:

- **RPS maximum score.** The maximum is 5 plus the number of questions in both modes, classic included.
- **RPS bonus questions.** The bonus-question cursor stops at the last question, so the last question is asked again in every later round. A question that times out is not consumed.
- **RPS reported score.** When the fifth round ends inside `playRound` or `answerQuestion`, `finishGame` reads the score of the render that created the handler. The point won in that same handler is therefore not reported. A game that ends by a question timeout reports the current score.
- **Matching total.** The matching game reports a total of 3 (`MAX_PAIRS`) even when fewer pairs were dealt.
- **Quiz countdown.** The countdown keeps running while the hint modal is open.
- **Quiz hint.** The hint can still be used after the answer has been revealed.
- **Module-reader reward.** The completion reward overwrites the stored XP with the server's total instead of adding to it.

## Model

| member | source | states |
|---|---|---|
| Common.RoundDiv | screens/Games/FinalResultScreen.js:20 | `Math.round(n / d)` for d > 0 is the integer r with 2n − d < 2dr ≤ 2n + d, the nearest integer with halves rounded up |
| Common.PercentInRange | screens/Games/FinalResultScreen.js:20 | a rounded percentage of a part between 0 and a positive whole lies in [0, 100], and the whole gives exactly 100 |
| Common.RoundDivMonotone | screens/ModuleViewerScreen.js:74-79 | a larger numerator never rounds to a smaller value |
| Common.Clamp | screens/ModuleViewerScreen.js:89 | `Math.max(0, Math.min(100, x))` lies in the range and is x itself when x is already in it |
| Pagination.TotalPages | screens/AnnouncementScreen.js:58-61 | there is at least one page, the pages hold every item, a non-empty list has no empty last page, and there is exactly one page exactly when the list has at most 4 items, the empty list included |
| Pagination.PageItems | screens/AnnouncementScreen.js:63-66 | a page holds at most 4 items, item k of page p is item (p − 1)·4 + k of the list, and a page past the end is empty |
| Pagination.ItemOnExactlyOnePage | screens/AnnouncementScreen.js:58-66 | every item lies on exactly one page, that page exists, and it shows the item |
| Pagination.PagesReassemble | screens/ModuleScreen.js:46-50 | pages 1 to totalPages read one after the other give back the whole list in order |
| Pagination.InRangePageNonEmpty | screens/AnnouncementScreen.js:103 | a page that exists is empty, and so shows the empty-state card, exactly when the list is empty |
| Announcements.ParseAnnouncement | screens/AnnouncementScreen.js:34-39 | a record keeps its id, title, body and category, and is new exactly when `is_new` is 1 |
| Announcements.ParseAll | screens/AnnouncementScreen.js:34-39 | a missing array parses to []; otherwise each record keeps its id, title, body and category, and `isNew` holds exactly when `is_new` is 1 |
| Announcements.AnnouncementBoard.constructor | screens/AnnouncementScreen.js:19-22 | the board starts empty on page 1 |
| Announcements.AnnouncementBoard.PageCount | screens/AnnouncementScreen.js:58-61 | the board always has at least one page |
| Announcements.AnnouncementBoard.ShownItems | screens/AnnouncementScreen.js:63-66 | the current page shows at most 4 announcements, and none exactly when there are none at all |
| Announcements.AnnouncementBoard.Load | screens/AnnouncementScreen.js:29-49 | a reply replaces the list with the parsed announcements, and a failed request leaves the list alone |
| Announcements.AnnouncementBoard.GoToPage | screens/AnnouncementScreen.js:68-70 | the page changes to n exactly when 1 ≤ n ≤ totalPages; any other request is ignored, so the page always exists |
| ModuleList.ModulesFromReply | screens/ModuleScreen.js:33-36 | the list is `modules` when that array is present (even if empty), else `data`, else a bare array reply, else [] for null or a failed request |
| ModuleList.ModuleCatalog.Paginated | screens/ModuleScreen.js:46-50 | the page shows at most 4 modules, in list order from (page − 1)·4, and none exactly when the catalogue is empty |
| ModuleList.ModuleCatalog.Load | screens/ModuleScreen.js:26-41 | the loaded list is the fallback-chain result, and the page stays 1 |
| ModuleList.ModuleCatalog.Prev | screens/ModuleScreen.js:103 | the page goes down by one only above page 1 and stays within the existing pages |
| ModuleList.ModuleCatalog.Next | screens/ModuleScreen.js:117 | the page goes up by one only below totalPages and stays within the existing pages |
| PeerFeedback.Lower | screens/PeerFeedbackScreen.js:52-53 | lower-casing keeps the length and maps each character on its own |
| PeerFeedback.Includes | screens/PeerFeedbackScreen.js:52-53 | `includes` finds every prefix of the text, the empty string included, and nothing longer than the text |
| PeerFeedback.Matches | screens/PeerFeedbackScreen.js:50-54 | the empty search term matches every item, and a term longer than both the title and the text matches none |
| PeerFeedback.LowerIdempotent | screens/PeerFeedbackScreen.js:52-53 | lower-casing twice is lower-casing once |
| PeerFeedback.Filtered | screens/PeerFeedbackScreen.js:49-55 | an item is in the result exactly when it is in the feedback and its lower-cased title or text contains the lower-cased term |
| PeerFeedback.FilteredIsSubsequence | screens/PeerFeedbackScreen.js:50 | the result is an order-preserving sub-list of the feedback |
| PeerFeedback.FilteredCounts | screens/PeerFeedbackScreen.js:50-54 | each matching item is kept as often as it occurs, and no other item is kept |
| PeerFeedback.EmptyTermKeepsAll | screens/PeerFeedbackScreen.js:51-53 | an empty search term keeps the whole list |
| PeerFeedback.CaseOfTermIrrelevant | screens/PeerFeedbackScreen.js:52-53 | search terms that differ only in letter case give the same result |
| PeerFeedback.LowerTermSameResult | screens/PeerFeedbackScreen.js:52-53 | lower-casing the term first changes nothing |
| PeerFeedback.LoadedFeedback | screens/PeerFeedbackScreen.js:29-39 | a reply without a `feedback` array gives [], and a failed request keeps the current list |
| Home.ComputeLevel | screens/HomeScreen.js:83 | the level is the L with 100·(L − 1) ≤ xp < 100·L, and it is at least 1 for non-negative XP |
| Home.XpForNext | screens/HomeScreen.js:162 | the XP target is a multiple of 100, at least 100 from level 1 on, and 0 only at level 0 |
| Home.LevelMonotone | screens/HomeScreen.js:83 | more XP never gives a lower level |
| Home.LevelStepsAtHundreds | screens/HomeScreen.js:83 | one more XP point raises the level by one exactly when the new total is a multiple of 100 |
| Home.NextLevelAhead | screens/HomeScreen.js:162 | the XP target of the current level is always above the XP held |
| Home.XpPercent | screens/HomeScreen.js:163 | the percentage never exceeds 100; with a zero target a positive XP total shows 100 (the clamp of Infinity), and the value is not a number (NaN or −Infinity) exactly when the target is 0 and the XP is not positive |
| Home.XpPercentInRange | screens/HomeScreen.js:162-163 | for non-negative XP the percentage is a number in [0, 100], and the `Math.min` never acts |
| Home.LoadUser | screens/HomeScreen.js:85-95 | no stored user changes nothing; otherwise the fields are copied, a non-empty avatar becomes `base/avatar` and an empty one stays "", and the level is the one `computeLevel` gives for the stored XP, not a number when that XP is missing |
| Home.LoadUserKeepsLevel | screens/HomeScreen.js:89-94 | the shown level matches the shown XP at the start, after loading a stored user with an XP total, and after a load that finds no stored user |
| FinalResult.SafeCorrect | screens/Games/FinalResultScreen.js:18 | a missing or non-numeric count reads as 0, and any number is kept |
| FinalResult.SafeTotal | screens/Games/FinalResultScreen.js:19 | the total is never 0: a missing, non-numeric or zero total reads as 1, and any other number is kept |
| FinalResult.Percentage | screens/Games/FinalResultScreen.js:20 | the percentage is 100·correct/total rounded to the nearest integer |
| FinalResult.PercentageOfFinalize | screens/Games/FinalResultScreen.js:18-20 | a game result with 0 ≤ correct ≤ total shows a percentage in [0, 100], and a full score shows 100 |
| FinalResult.MissingTotalReadsAsOne | screens/Games/FinalResultScreen.js:19-20 | a missing or zero total shows the score out of 1 |
| FinalResult.MergeXp | screens/Games/FinalResultScreen.js:50-53 | the XP grows by exactly the granted amount (a missing amount or XP reads as 0), and no other field changes |
| FinalResult.MergeXpAdditive | screens/Games/FinalResultScreen.js:52 | two merges equal one merge of the sum: the sync adds and never overwrites |
| FinalResult.RetryRoute | screens/Games/FinalResultScreen.js:99-102 | Retry opens "QuizGame" exactly when the game name is "Quiz Game", and "RPSGame" otherwise |
| FinalResult.ResultScreen.SaveScore | screens/Games/FinalResultScreen.js:26-65 | it submits the normalised score once per mount. An ok reply records the granted XP and merges it into a stored user. A reply that is not ok, or a request that throws, changes neither. No stored user means nothing is written |
| ModuleViewer.ScrollPercent | screens/ModuleViewerScreen.js:84-91 | scrollable content gives a percentage clamped to [0, 100], the rounded offset share when the offset is in range; unscrollable content keeps the old value |
| ModuleViewer.EffectiveProgress | screens/ModuleViewerScreen.js:74-79 | the progress never exceeds 100 |
| ModuleViewer.EffectiveProgressInRange | screens/ModuleViewerScreen.js:74-79 | on an existing page with an in-range scroll, the progress is in [0, 100], the `Math.min` never acts, and progress grows with page and scroll |
| ModuleViewer.PageProgress | screens/ModuleViewerScreen.js:184 | turning to page n reports 25·n percent |
| ModuleViewer.ApplyAddXp | screens/ModuleViewerScreen.js:128-136 | on `ok` with a stored user, the XP becomes the server's `newXp` and nothing else changes; otherwise storage is untouched |
| ModuleViewer.AddXpOverwrites | screens/ModuleViewerScreen.js:134 | the XP held before the reward has no bearing on the XP after it |
| ModuleViewer.Viewer.constructor | screens/ModuleViewerScreen.js:31-38 | the reader starts on page 1, scrolled to the top, with no end card and no questions |
| ModuleViewer.Viewer.HasUser | screens/ModuleViewerScreen.js:97 | a missing user id and the id 0 both read as no user, so neither the progress save here nor the XP request (line 118) is sent; any other id is a user |
| ModuleViewer.Viewer.Progress | screens/ModuleViewerScreen.js:74-79 | the progress bar's value lies in [0, 100] |
| ModuleViewer.Viewer.HandleScroll | screens/ModuleViewerScreen.js:84-91 | the scroll position becomes the clamped percentage, and the page stays valid |
| ModuleViewer.Viewer.NextPage | screens/ModuleViewerScreen.js:178-191 | below page 4 it turns the page, scrolls to the top and reports 25·(page) percent as not completed. On page 4 it stays, reports 100 as completed, requests 30 XP, applies the overwrite, shows the end card and starts the question load the first time the card appears. Requests are only sent when there is a user |
| ModuleViewer.Viewer.PrevPage | screens/ModuleViewerScreen.js:193-199 | on page 1 nothing changes; otherwise the page goes back one and scrolls to the top |
| ModuleViewer.Viewer.BeginLoadQuestions | screens/ModuleViewerScreen.js:146-150 | a load starts exactly when none is running |
| ModuleViewer.Viewer.FinishLoadQuestions | screens/ModuleViewerScreen.js:154-166 | only a non-empty question list is kept, and the busy flag clears in every case |
| ModuleViewer.Viewer.StartGame | screens/ModuleViewerScreen.js:204-215 | no navigation happens while no questions are loaded; otherwise it opens the chosen game with the loaded questions |
| QuizGame.NormalizeQuestions | screens/Games/QuizGame.js:41-48 | the quiz runs on the reply's list exactly when it is a non-empty array; anything else gives the empty list of the "No questions available" state |
| QuizGame.IsWrong | screens/Games/QuizGame.js:126 | an option is wrong exactly when its text differs from the correct answer |
| QuizGame.FilterWrong | screens/Games/QuizGame.js:126 | the filter keeps exactly the wrong keys of the input, never more than it had, and no key twice |
| QuizGame.WrongKeys | screens/Games/QuizGame.js:125-126 | a key is listed exactly when its value differs from the correct answer, at most 4 of them and none twice |
| QuizGame.HintPick | screens/Games/QuizGame.js:128-130 | whatever the shuffle, the hint removes only wrong keys, none twice, exactly min(2, number of wrong keys) of them, taken from the front of the shuffle |
| QuizGame.SelectableKeys | screens/Games/QuizGame.js:212-218 | a key is drawn as a button exactly when it was not eliminated |
| QuizGame.HintKeepsCorrectChoice | screens/Games/QuizGame.js:125-130 | after the hint, every key holding the correct answer is still selectable, and at least one choice always is |
| QuizGame.QuizSession.constructor | screens/Games/QuizGame.js:22-32 | the session starts loading, with the per-question state fresh and the instructions shown |
| QuizGame.QuizSession.Load | screens/Games/QuizGame.js:35-53 | the normalised list is stored |
| QuizGame.QuizSession.DismissInstructions | screens/Games/QuizGame.js:172 | the instructions close only over a loaded quiz |
| QuizGame.QuizSession.NextQuestion | screens/Games/QuizGame.js:101-118 | before the last question it moves on and resets selection, reveal, timer, hint and eliminations. On the last it hands on {correct: correctCount, total: question count}. The count is never changed |
| QuizGame.QuizSession.TimerStep | screens/Games/QuizGame.js:56-69 | it is idle, changing nothing, while instructions are shown, an answer is revealed or questions are loading. Otherwise it counts down one second and changes nothing else, or at 0 moves on with no credit, handing on the result only after the last question. The score, the questions and the modals never change, and a result it hands on has 0 ≤ correct ≤ total |
| QuizGame.QuizSession.SelectOption | screens/Games/QuizGame.js:92-99 | on an enabled, non-eliminated button it reveals the answer and adds exactly 1 when the chosen value equals the correct answer, else 0; otherwise nothing changes, so one answer per question counts |
| QuizGame.QuizSession.PressNext | screens/Games/QuizGame.js:241-247 | the button acts only once the answer is revealed and no modal covers it; otherwise nothing changes. It advances as `nextQuestion` does, the game stays on before the last question, the score never changes, and a result it hands on has 0 ≤ correct ≤ total |
| QuizGame.QuizSession.OpenHint | screens/Games/QuizGame.js:151-157 | the hint modal opens only while the hint is unused |
| QuizGame.QuizSession.CancelHint | screens/Games/QuizGame.js:190 | the hint modal closes |
| QuizGame.QuizSession.UseHint | screens/Games/QuizGame.js:121-135 | the button exists only in the open hint modal, and once the hint is used it does nothing; otherwise it eliminates the hint pick, marks the hint used and closes the modal, and nothing else changes |
| MatchingGame.CardId | screens/Games/MatchingGame.js:33-35 | a card id is the two characters `Q{i}` or `A{i}` |
| MatchingGame.CardIdInjective | screens/Games/MatchingGame.js:33-35 | two cards share an id exactly when they share kind and pair |
| MatchingGame.Limited | screens/Games/MatchingGame.js:29 | the deck uses the first min(len, 3) questions |
| MatchingGame.PairCardsAt | screens/Games/MatchingGame.js:32-40 | the unshuffled deck has 2 cards per question. Card 2i is Q{i} with the question text and card 2i + 1 is A{i} with the correct answer |
| MatchingGame.PairCards | screens/Games/MatchingGame.js:32-40 | the unshuffled deck has two cards per question, each naming a question of the deck |
| MatchingGame.PairCardsHoldBothHalves | screens/Games/MatchingGame.js:32-40 | both cards of every question are in the unshuffled deck |
| MatchingGame.PairCardsWellFormed | screens/Games/MatchingGame.js:29-40 | the unshuffled deck has 2·n cards, pair indices below n, ids matching kind and pair, and no id twice |
| MatchingGame.Swapped | screens/Games/MatchingGame.js:42 | a swap exchanges two cards and leaves the others in place |
| MatchingGame.SwapPermutes | screens/Games/MatchingGame.js:42 | a swap keeps the same cards, each as often as before |
| MatchingGame.SwapKeepsIdsDistinct | screens/Games/MatchingGame.js:42 | a swap keeps the ids distinct |
| MatchingGame.Shuffle | screens/Games/MatchingGame.js:42 | the shuffle only rearranges the deck: the same multiset of cards, with distinct ids kept distinct |
| MatchingGame.PermutedDeckWellFormed | screens/Games/MatchingGame.js:42 | a rearranged well-formed deck with distinct ids is still well formed |
| MatchingGame.BuildPairs | screens/Games/MatchingGame.js:29-40 | the `forEach` loop builds exactly the unshuffled deck |
| MatchingGame.BuildDeck | screens/Games/MatchingGame.js:26-43 | a non-array gives no deck. Otherwise the deck is a well-formed arrangement of the unshuffled deck, with both halves of each of the first min(len, 3) questions |
| MatchingGame.IsMatch | screens/Games/MatchingGame.js:53 | a match is two different cards, one question half and one answer half |
| MatchingGame.SameCardNeverMatches | screens/Games/MatchingGame.js:53 | tapping the same card twice is never a match |
| MatchingGame.MatchedCardsDiffer | screens/Games/MatchingGame.js:53-54 | the two cards of a match have different ids |
| MatchingGame.AllCardsMatched | screens/Games/MatchingGame.js:61-69 | when the matched list is as long as the deck, every card is matched and the score equals the number of pairs dealt |
| MatchingGame.MatchingSession.constructor | screens/Games/MatchingGame.js:17-22 | the session starts with no cards, no selection, nothing matched, score 0 and the instructions shown |
| MatchingGame.MatchingSession.Build | screens/Games/MatchingGame.js:26-43 | the deck is installed, with its number of pairs recorded |
| MatchingGame.MatchingSession.DismissInstructions | screens/Games/MatchingGame.js:96 | the instructions close |
| MatchingGame.MatchingSession.SetHint | screens/Games/MatchingGame.js:81 | the hint modal opens or closes |
| MatchingGame.MatchingSession.TapCard | screens/Games/MatchingGame.js:45-71 | taps are ignored while two cards are up or the card is matched. The second tap matches exactly when the pair is equal and the kinds differ, which adds both ids and one point. The result, with total 3, is handed on exactly when a match completes the deck. Throughout, `matched` has no duplicates and holds 2·score ids |
| MatchingGame.MatchingSession.RecordMatch | screens/Games/MatchingGame.js:53-56 | a match appends both ids and adds one point, keeping the matched list free of duplicates |
| MatchingGame.MatchingSession.ClearSelection | screens/Games/MatchingGame.js:57 | after a second card, the selection empties whether or not it matched |
| RpsGame.Decide | screens/Games/RPSGame.js:93-103 | the round ties exactly on equal hands; otherwise the player wins exactly when their hand is one step after the CPU's in rock → paper → scissors |
| RpsGame.DecideIsCyclic | screens/Games/RPSGame.js:93-103 | the round rule is cyclic dominance. Equal hands tie; a hand wins exactly against the one before it in rock → paper → scissors and loses against the one after it |
| RpsGame.DecideAntisymmetric | screens/Games/RPSGame.js:93-103 | swapping the player and the CPU swaps win and lose |
| RpsGame.EachHandBeatsOne | screens/Games/RPSGame.js:94-98 | every hand beats exactly one hand and loses to exactly one |
| RpsGame.TotalQuestions | screens/Games/RPSGame.js:33-35 | the number of questions is the list's length, or 0 when it is not an array |
| RpsGame.MaxScore | screens/Games/RPSGame.js:36 | the maximum score is never below the 5 rounds |
| RpsGame.GameName | screens/Games/RPSGame.js:156 | the result is named "RPS Classic" exactly in classic mode and "RPS Challenge" otherwise |
| RpsGame.AddPoint | screens/Games/RPSGame.js:100 | a point raises the score by one unless it is at the maximum, and never past it |
| RpsGame.NextCursor | screens/Games/RPSGame.js:142-144 | the cursor moves by at most one and stays within the question list |
| RpsGame.CursorAfterAnswers | screens/Games/RPSGame.js:142-144 | after k answers the cursor is at min(k, TOTAL_QUESTIONS − 1), so the questions are asked in order and then the last one repeats |
| RpsGame.RpsSession.constructor | screens/Games/RPSGame.js:39-51 | the session starts in the menu with a fresh game |
| RpsGame.RpsSession.ChooseMode | screens/Games/RPSGame.js:54-67 | choosing a mode from the menu resets round 1, score 0, cursor 0, full timer, no hands, no result and no question; it is only possible from the menu, and anywhere else nothing changes |
| RpsGame.RpsSession.DismissInstructions | screens/Games/RPSGame.js:269 | the instructions close |
| RpsGame.RpsSession.SetHint | screens/Games/RPSGame.js:204 | the hint modal opens or closes |
| RpsGame.RpsSession.NextRound | screens/Games/RPSGame.js:120-129 | below round 5 it advances the round, clears hands and result, and the game goes on. At round 5 it hands on {reported score, MAX_SCORE} with the name chosen by mode and leaves the round, hands and result as they are |
| RpsGame.RpsSession.PlayRound | screens/Games/RPSGame.js:87-117 | a round is played at most once, and a disabled press changes nothing. A win adds a capped point; a tie or loss leaves the score alone. A bonus question is scheduled only in challenge mode with questions and the cursor in range; otherwise the round advances and the game goes on below round 5, and a game ending at round 5 reports the score from before the round. The question cursor, the question modal and its timer never change |
| RpsGame.RpsSession.RecordPlay | screens/Games/RPSGame.js:88-103 | both hands and the decided result are shown, and only a win adds a capped point |
| RpsGame.RpsSession.QuestionDelayElapsed | screens/Games/RPSGame.js:110-113 | the scheduled question opens with a full countdown |
| RpsGame.RpsSession.TimerStep | screens/Games/RPSGame.js:70-84 | with no question shown it changes nothing. Otherwise it counts down one second and changes nothing else, or at 0 closes the question and advances the round, the game going on below round 5, without touching the score or the cursor |
| RpsGame.RpsSession.AnswerQuestion | screens/Games/RPSGame.js:132-147 | with no question shown or none at the cursor it changes nothing. Otherwise a correct answer adds a capped point, the question closes, the cursor advances as NextCursor says, and the round advances with the game going on below round 5; a game ending at round 5 reports the score from before the answer |

## Left out

- Network and storage are not modelled as I/O. A server reply is a parameter, and the requests the module reader sends are returned values. AsyncStorage is the `UserStore` object, and its JSON round trip is taken to be the identity. The student and module ids passed along with requests and results are not modelled.
- Real-time timers are not modelled. Each countdown pass and delay is an explicit method. Effect cleanup is not modelled: a screen that has handed its result on ignores every later event instead.
- Randomness is not modelled: the CPU hand, the hint shuffle and the deck shuffle are parameters.
- Floating-point arithmetic is not modelled. The percentages are computed exactly on the rationals with integer arithmetic, and scroll offsets and heights are integers.
- Home.XpPercent: None stands for both NaN and −Infinity, the two values the zero-target division yields for an XP total of 0 and a negative one; the model does not tell them apart, because neither can be shown on the bar.
- Home.LoadUser: a stored XP of JSON `null` and a missing XP are both None, and the model shows "not a number" for both. The app tells them apart: the add-XP reward can store `xp: null` (`newXp` null in an ok reply), and `computeLevel(null)` is then level 1 with a 0% bar, while a missing XP gives NaN. The model does not capture the null case.
- PeerFeedback.Lower: lower-cases only the letters A–Z, because Unicode case mapping is not part of this model.
- Announcements.ParseAll: drops the formatted date (`toLocaleDateString`), because date formatting is not part of this model.
- ModuleList.ModulesFromReply: an object reply with neither `modules` nor `data` yields None, and the catalogue keeps its list. In the app the object itself is stored and rendering it fails.
- The `Load` methods of the announcement board, the module catalogue and the quiz run once at mount, before any page change or answer. This is why they require the initial page or the loading state; the quiz does not re-fetch when `module_id` changes.
- The module reader's notes, its unused `progressPercent`, and the "Module not found" guard are not modelled.
- Rendering, styles, animations and the modals' contents are not modelled; only the visibility flags that gate handlers are kept.
- The route-name mismatch of the matching game's result navigation ("FinalResultScreen") is wiring, not logic.
- The login, settings, theme, tutor, profile, quiz-arena, certificate and splash screens, and the app's navigation setup, are not part of this model.
