# ConectaTEA in Dafny

A verified model of the core of ConectaTEA, a web application for autistic teenagers
and their families. Its React front end has three small games, forms, and pages for a
diary, checklists, a community feed and a resource centre. Its Express/SQLite back end
serves those pages. The model covers:

- **The three games.** Snake (`Snake`), the colour-sequence memory game (`Sequence`)
  and the emotion cards (`Emotions`). Each is a snapshot datatype with pure transition
  functions and lemmas about them. A class holds the component's state, and each of
  its methods is proved to perform the matching transition.
- **The forms.** The e-mail pattern shared by sign-up and log-in (`EmailFormat`), the
  password-strength meter and the sign-up checks (`Signup`), and the log-in checks
  (`Login`).
- **The font-size setting** of the UI context (`UiSettings`).
- **The pages.** Checklists (`Checklists`), Diary (`Diary`), Community (`Community`)
  and Resources (`Resources`). Each page is a class over its lists. The server's
  replies are inputs of its actions.
- **The in-browser mock of the authentication API** (`MockAuth`).
- **The REST back end** (`Server`):
  - the token check of the `auth` middleware
  - every route except the PubMed proxy, as a function on the tables
  - a `Database` class whose methods are proved to perform those functions and to keep
    the schema's guarantees (unique e-mails; ids that increase along each table and stay
    below its `AUTOINCREMENT` counter).
- **Shared vocabulary.** `Common` holds `Option` and JavaScript's order-preserving
  `filter`. `Text` holds JavaScript's white-space set, `trim`, ASCII `toLowerCase`,
  substring search, UTF-16 `length` and decimal numerals.

Things the program gets from the outside world are parameters of the model:

- the random food cell, colour index and distractor picks
- the server's replies
- `bcrypt.compare` and `jwt.verify`
- whether a token is stored
- the value read from `localStorage`.

Some behaviours of the program are stated and proved as they are:

- A stored font size above 22 makes "increase" shrink the text
  (`UiSettings.IncreaseShrinksOversizedEntry`).
- The checklist progress shows 100% with 199 of 200 items done
  (`Checklists.RoundedPercentExtremes`).
- The sign-up form accepts the three-character password `A1!`, which the log-in form
  then refuses (`Login.SignupPasswordRefusedAtLogin`).
- Two arrow keys pressed within one tick can turn the snake right round
  (`Snake.TwoKeysCanReverse`).
- The back end accepts any word in front of the token, not only `Bearer`
  (`Server.SchemeIgnored`).
- A comment on a post that does not exist is stored but never listed
  (`Server.OrphanCommentHidden`). It later shows up under a new post that receives
  that id (`Server.NewPostListing`).

## Model

| member | source | states |
|---|---|---|
| Snake.Faster | hackteen-frontend-creator/src/pages/games/Snake.jsx:60-66 | eating lowers the interval by at most 5 and never below the 50 ms floor; it goes down exactly when it is above the floor |
| Snake.TickCollision | hackteen-frontend-creator/src/pages/games/Snake.jsx:42-57 | leaving the board or hitting the body ends the game: not running, game over, the snake, score, speed, food and direction unchanged, and the high score the larger of the old one and the score |
| Snake.TickMoves | hackteen-frontend-creator/src/pages/games/Snake.jsx:43-45 | a step without collision puts the head one cell along the direction and keeps the old body behind it |
| Snake.TickWithoutFood | hackteen-frontend-creator/src/pages/games/Snake.jsx:59-69 | a step that misses the food keeps the length and drops the tail; score, speed and food are unchanged |
| Snake.TickEats | hackteen-frontend-creator/src/pages/games/Snake.jsx:59-66 | a step onto the food grows the snake by one cell, adds exactly 10 points, moves the food to the drawn cell and never slows the game |
| Snake.TickPreservesWellFormed | hackteen-frontend-creator/src/pages/games/Snake.jsx:42-71 | a snake with distinct, adjacent cells on the 20x20 board keeps that shape after every tick |
| Snake.Tick | hackteen-frontend-creator/src/pages/games/Snake.jsx:42-71 | a tick ends the game exactly on a collision, adds 0 or 10 points, grows the snake by at most one cell and never lowers the high score |
| Snake.PrependKeepsWellFormed | hackteen-frontend-creator/src/pages/games/Snake.jsx:59-69 | a free board cell next to the head can be put in front of any prefix of the body |
| Snake.SpeedStaysInRange | hackteen-frontend-creator/src/pages/games/Snake.jsx:62 | the interval stays between 50 and its old value |
| Snake.SteerRejectsReversal | hackteen-frontend-creator/src/pages/games/Snake.jsx:96-121 | an arrow key that points against the current direction is ignored, any other arrow key sets its unit vector, and other keys change nothing |
| Snake.Steer | hackteen-frontend-creator/src/pages/games/Snake.jsx:96-121 | a non-arrow key keeps the direction; an arrow key either keeps it or sets that arrow's vector |
| Snake.TwoKeysCanReverse | hackteen-frontend-creator/src/pages/games/Snake.jsx:98-114 | the guard only looks at the current direction, so Up then Left turns a snake heading right into the opposite direction |
| Snake.Finish | hackteen-frontend-creator/src/pages/games/Snake.jsx:86-93 | game over stops the game and sets the high score to the larger of the old one and the round's score; the snake, score and speed stay |
| Snake.ResetIdempotent | hackteen-frontend-creator/src/pages/games/Snake.jsx:73-84 | resetting twice is resetting once |
| Snake.Reset | hackteen-frontend-creator/src/pages/games/Snake.jsx:73-84 | a reset gives a well-formed snake heading in a unit direction, score 0, initial speed, no game over; the high score and `running` stay |
| Snake.InitialIsWellFormed | hackteen-frontend-creator/src/pages/games/Snake.jsx:7-21 | the initial snake is well formed and heads in a unit direction |
| Snake.SnakeGame.constructor | hackteen-frontend-creator/src/pages/games/Snake.jsx:7-21 | the initial state, with the high score read from storage or 0 |
| Snake.SnakeGame.HitsBody | hackteen-frontend-creator/src/pages/games/Snake.jsx:48-50 | the scan reports a hit exactly when the cell is part of the snake |
| Snake.SnakeGame.MoveSnake | hackteen-frontend-creator/src/pages/games/Snake.jsx:42-71 | the timer step performs `Tick` on the component state and keeps the snake well formed |
| Snake.SnakeGame.EndGame | hackteen-frontend-creator/src/pages/games/Snake.jsx:86-93 | stopping performs `Finish` |
| Snake.SnakeGame.ResetGame | hackteen-frontend-creator/src/pages/games/Snake.jsx:73-84 | restarting performs `Reset` and keeps the invariant |
| Snake.SnakeGame.HandleKey | hackteen-frontend-creator/src/pages/games/Snake.jsx:96-121 | a key changes only the direction, as `Steer` says |
| Sequence.StartRoundAppends | hackteen-frontend-creator/src/pages/games/Sequence.jsx:36-42 | a new round appends exactly one palette colour, keeps the old sequence as prefix, clears the input and starts playback |
| Sequence.NewRound | hackteen-frontend-creator/src/pages/games/Sequence.jsx:36-42 | a new round has one more colour, an empty input, playback on and the same score |
| Sequence.EndPlayback | hackteen-frontend-creator/src/pages/games/Sequence.jsx:51 | the end of playback accepts input and keeps sequence, input and score |
| Sequence.PickWhileShowingIgnored | hackteen-frontend-creator/src/pages/games/Sequence.jsx:62-63 | picks during playback are ignored |
| Sequence.Pick | hackteen-frontend-creator/src/pages/games/Sequence.jsx:62-82 | a pick during playback changes nothing; the score becomes 0, stays or goes up by one; the sequence stays or is cleared |
| Sequence.PickMismatchResets | hackteen-frontend-creator/src/pages/games/Sequence.jsx:67-74 | a wrong colour empties sequence and input, zeroes the score and shows the error message |
| Sequence.PickBeyondSequenceResets | hackteen-frontend-creator/src/pages/games/Sequence.jsx:67-74 | a pick with no colour left to compare with takes the reset path |
| Sequence.PickKeepsPrefix | hackteen-frontend-creator/src/pages/games/Sequence.jsx:62-82 | the input always stays a prefix of the sequence; a matching pick appends exactly that colour |
| Sequence.PickScores | hackteen-frontend-creator/src/pages/games/Sequence.jsx:76-80 | the score rises by one exactly when the pick matches and completes the sequence |
| Sequence.ResetIdempotent | hackteen-frontend-creator/src/pages/games/Sequence.jsx:84-89 | resetting twice is resetting once and leaves an empty game with score 0 |
| Sequence.Reset | hackteen-frontend-creator/src/pages/games/Sequence.jsx:84-89 | a reset empties sequence and input, zeroes the score, shows the reset message and leaves playback as it was |
| Sequence.RepeatingWins | hackteen-frontend-creator/src/pages/games/Sequence.jsx:62-82 | repeating the rest of the sequence without a mistake completes the round and scores exactly one point |
| Sequence.PlayRoundWins | hackteen-frontend-creator/src/pages/games/Sequence.jsx:36-82 | one faultless round adds the drawn colour and one point |
| Sequence.RoundsAccumulate | hackteen-frontend-creator/src/pages/games/Sequence.jsx:36-82 | N faultless rounds append exactly the N drawn colours and add N points |
| Sequence.SequenceGame.constructor | hackteen-frontend-creator/src/pages/games/Sequence.jsx:21-26 | an empty game |
| Sequence.SequenceGame.StartRound | hackteen-frontend-creator/src/pages/games/Sequence.jsx:36-42 | performs `NewRound` |
| Sequence.SequenceGame.PlaybackSchedule | hackteen-frontend-creator/src/pages/games/Sequence.jsx:45-58 | colour i flashes at i*800 ms for 500 ms, flashes never overlap, and input reopens after the last flash at length*800+500 ms |
| Sequence.SequenceGame.PlaybackDone | hackteen-frontend-creator/src/pages/games/Sequence.jsx:51 | playback ends and input is accepted |
| Sequence.SequenceGame.HandlePick | hackteen-frontend-creator/src/pages/games/Sequence.jsx:62-82 | performs `Pick`, and reports a won round exactly when the pick completes the sequence outside playback |
| Sequence.SequenceGame.ResetGame | hackteen-frontend-creator/src/pages/games/Sequence.jsx:84-89 | performs `Reset` |
| Emotions.JudgeScoresIffCorrect | hackteen-frontend-creator/src/pages/games/Emotions.jsx:23-30 | a pick scores one point and shows the success feedback exactly when it names the card's emotion; the card does not change before the timer |
| Emotions.AdvanceStaysOnCard | hackteen-frontend-creator/src/pages/games/Emotions.jsx:31-34 | the timer clears the feedback and moves to the next card, from the last back to the first |
| Emotions.Judge | hackteen-frontend-creator/src/pages/games/Emotions.jsx:23-30 | a pick keeps the card, sets feedback, and scores exactly when it names the card's emotion |
| Emotions.Advance | hackteen-frontend-creator/src/pages/games/Emotions.jsx:31-34 | the timer lands on a valid card, clears the feedback and keeps the score |
| Emotions.AdvanceByIsModular | hackteen-frontend-creator/src/pages/games/Emotions.jsx:33 | n timer steps from card i land on card (i + n) mod 5 |
| Emotions.CardsCycle | hackteen-frontend-creator/src/pages/games/Emotions.jsx:10-16 | every card is reached from every other in fewer than five steps |
| Emotions.AdvanceIsPeriodic | hackteen-frontend-creator/src/pages/games/Emotions.jsx:33 | five more picks always return to the same card |
| Emotions.CardLabelsInPool | hackteen-frontend-creator/src/pages/games/Emotions.jsx:10-16 | each card's correct label is also in the distractor pool, and card ids are 1 to 5 in order |
| Emotions.Drawn | hackteen-frontend-creator/src/pages/games/Emotions.jsx:66-67 | the labels drawn by the random indices, one per index |
| Emotions.ShuffleOptions | hackteen-frontend-creator/src/pages/games/Emotions.jsx:63-73 | the options are distinct, start with the correct label, hold at most four, every other label was drawn, and fewer than four only when every drawn label is already present |
| Emotions.EmotionsGame.constructor | hackteen-frontend-creator/src/pages/games/Emotions.jsx:19-21 | first card, score 0, no feedback |
| Emotions.EmotionsGame.Current | hackteen-frontend-creator/src/pages/games/Emotions.jsx:43-45 | the shown card has id index + 1 and an emotion from the label pool, and picking that emotion scores a point |
| Emotions.EmotionsGame.HandlePick | hackteen-frontend-creator/src/pages/games/Emotions.jsx:23-30 | performs `Judge` |
| Emotions.EmotionsGame.AdvanceCard | hackteen-frontend-creator/src/pages/games/Emotions.jsx:31-34 | performs `Advance` |
| EmailFormat.ValidEmailIffPattern | hackteen-frontend-creator/src/pages/Signup.jsx:5-7 | the executable check accepts exactly the strings of the form A@B.C with A, B, C non-empty runs without white space or `@` |
| EmailFormat.ValidEmail | hackteen-frontend-creator/src/pages/Signup.jsx:5-7 | an accepted address has at least five characters and does not start with `@` |
| EmailFormat.PlainOutsideAt | hackteen-frontend-creator/src/pages/Signup.jsx:6 | in a match, every character other than the one `@` is neither white space nor `@` |
| EmailFormat.RejectsSpaceAndSecondAt | hackteen-frontend-creator/src/pages/Login.jsx:5-7 | an address with white space or with two `@` is refused |
| EmailFormat.ComposedAccepted | hackteen-frontend-creator/src/pages/Login.jsx:5-7 | every user@domain.suffix built from such runs is accepted, dots in the domain included |
| Signup.PasswordStrength | hackteen-frontend-creator/src/pages/Signup.jsx:9-16 | the strength is between 0 and 4, and 0 for an empty password |
| Signup.StrengthLabel | hackteen-frontend-creator/src/pages/Signup.jsx:42-43 | the label is the one for the strength; it is "Forte" or "Muito forte" exactly when the strength meets the form's minimum, and "Muito fraca" for an empty password |
| Signup.CheckSignup | hackteen-frontend-creator/src/pages/Signup.jsx:29-40 | what is submitted is the trimmed name, the e-mail and the password |
| Signup.StrengthMonotone | hackteen-frontend-creator/src/pages/Signup.jsx:9-16 | typing more characters never lowers the strength |
| Signup.ShortPasswordNeedsAllClasses | hackteen-frontend-creator/src/pages/Signup.jsx:9-16 | a password under 8 code units is strong enough exactly when it has an upper-case letter, a digit and a symbol |
| Signup.LowerCaseOnlyIsWeak | hackteen-frontend-creator/src/pages/Signup.jsx:9-16 | lower-case letters alone score at most 1 |
| Signup.SignupAcceptsIff | hackteen-frontend-creator/src/pages/Signup.jsx:29-40 | the form submits exactly when all four checks pass, and the name sent has at least two code units and no surrounding white space |
| Signup.SignupErrorOrder | hackteen-frontend-creator/src/pages/Signup.jsx:31-34 | each error is shown exactly when it fails and every earlier check passed |
| Signup.BlankNameRefused | hackteen-frontend-creator/src/pages/Signup.jsx:31 | a white-space-only name is always refused |
| Login.CheckLogin | hackteen-frontend-creator/src/pages/Login.jsx:20-27 | what is submitted is the e-mail and password as typed |
| Login.LoginAcceptsIff | hackteen-frontend-creator/src/pages/Login.jsx:20-27 | the form submits exactly for a matching e-mail and a password of at least 6 code units, and reports the e-mail error first |
| Login.FlagAndSubmit | hackteen-frontend-creator/src/pages/Login.jsx:42 | the e-mail field is flagged exactly when it is non-empty and does not match; an empty field is not flagged but is still refused |
| Login.EmailFieldInvalid | hackteen-frontend-creator/src/pages/Login.jsx:42 | an empty field is never flagged; a non-empty one is flagged exactly when the check refuses it |
| Login.SignupPasswordRefusedAtLogin | hackteen-frontend-creator/src/pages/Login.jsx:23 | `A1!` passes the sign-up strength check but is refused by the log-in length check |
| UiSettings.StoredFontSize | hackteen-frontend-creator/src/contexts/UIContext.jsx:12-14 | a missing or zero stored value gives 16, any other value is used as is |
| UiSettings.Increased | hackteen-frontend-creator/src/contexts/UIContext.jsx:30 | increase adds one up to the cap of 22, and never exceeds 22 |
| UiSettings.Decreased | hackteen-frontend-creator/src/contexts/UIContext.jsx:31 | decrease subtracts one down to the floor of 12, and never goes below 12 |
| UiSettings.PressesStayInRange | hackteen-frontend-creator/src/contexts/UIContext.jsx:30-31 | from a size in [12, 22], any sequence of presses stays in [12, 22] |
| UiSettings.ClampsAtBounds | hackteen-frontend-creator/src/contexts/UIContext.jsx:30-31 | the bounds are fixed points, and inside them increase and decrease undo each other |
| UiSettings.IncreaseShrinksOversizedEntry | hackteen-frontend-creator/src/contexts/UIContext.jsx:12-14 | a stored size above 22 is used as is and "increase" makes it smaller |
| UiSettings.PersistRoundTrip | hackteen-frontend-creator/src/contexts/UIContext.jsx:25-28 | a size in range, stored and read back, is the same size, before and after a press |
| UiSettings.FontScale.constructor | hackteen-frontend-creator/src/contexts/UIContext.jsx:12-14 | the size read from storage, written back |
| UiSettings.FontScale.Increase | hackteen-frontend-creator/src/contexts/UIContext.jsx:30 | performs `Increased` and stores the result |
| UiSettings.FontScale.Decrease | hackteen-frontend-creator/src/contexts/UIContext.jsx:31 | performs `Decreased` and stores the result |
| Checklists.NormalizeDone | hackteen-frontend-creator/src/pages/Checklists.jsx:28 | a numeric `done` is true exactly when non-zero, a boolean is itself, a missing one is false |
| Checklists.Normalize | hackteen-frontend-creator/src/pages/Checklists.jsx:28 | a loaded row keeps its id and text, and a 0/1 `done` reads as done exactly when it is 1 |
| Checklists.StoredRowsLoadBack | hackteen-frontend-creator/src/pages/Checklists.jsx:27-29 | items stored by the back end with `done` as 0 or 1 load back unchanged |
| Checklists.DoneCount | hackteen-frontend-creator/src/pages/Checklists.jsx:113 | the number of done items is at most the number of items |
| Checklists.RoundedPercent | hackteen-frontend-creator/src/pages/Checklists.jsx:114-115 | the percentage is in [0, 100] and within half a point of the exact ratio |
| Checklists.Progress | hackteen-frontend-creator/src/pages/Checklists.jsx:113-115 | progress is in [0, 100] and 0 for an empty list |
| Checklists.FallbackDone | hackteen-frontend-creator/src/pages/Checklists.jsx:83 | the fallback request sends 1 exactly when the item was not done, else 0 |
| Checklists.AddFailureMessage | hackteen-frontend-creator/src/pages/Checklists.jsx:58-61 | 401 gives the session message; otherwise the server's message when non-empty, else the generic one |
| Checklists.RoundedPercentExtremes | hackteen-frontend-creator/src/pages/Checklists.jsx:114-115 | the percentage is 100 exactly when at most half a percent is undone, and 0 exactly when less than half a percent is done |
| Checklists.ProgressExtremes | hackteen-frontend-creator/src/pages/Checklists.jsx:113-115 | a list with all items done shows 100, one with none done shows 0 |
| Checklists.ProgressRounds | hackteen-frontend-creator/src/pages/Checklists.jsx:113-115 | progress is the done ratio rounded to the nearest percent, halves up |
| Checklists.ToggleUnknownUnchanged | hackteen-frontend-creator/src/pages/Checklists.jsx:68-71 | toggling an id that is not in the list changes nothing |
| Checklists.FlipOnlyTarget | hackteen-frontend-creator/src/pages/Checklists.jsx:72 | the optimistic flip negates `done` on the items with the id and touches nothing else |
| Checklists.FlipRevertRestores | hackteen-frontend-creator/src/pages/Checklists.jsx:72-97 | flip then revert gives back the original list |
| Checklists.ToggleOutcomes | hackteen-frontend-creator/src/pages/Checklists.jsx:68-99 | with unique ids, a toggle whose request (or fallback after a 404) fails leaves the list as it was, and one confirmed without a `done` keeps the flip |
| Checklists.Toggled | hackteen-frontend-creator/src/pages/Checklists.jsx:68-99 | a toggle keeps the length, every id and text, and every item with another id |
| Checklists.Confirm | hackteen-frontend-creator/src/pages/Checklists.jsx:89-92 | the confirmation changes only the items with the id: the server's value when it sent one, otherwise nothing |
| Checklists.ChecklistPage.constructor | hackteen-frontend-creator/src/pages/Checklists.jsx:9-13 | an empty page |
| Checklists.ChecklistPage.Load | hackteen-frontend-creator/src/pages/Checklists.jsx:16-37 | signed out clears the list; rows are normalised; a non-list gives an empty list; a failure keeps the list and shows the load error |
| Checklists.ChecklistPage.AddItem | hackteen-frontend-creator/src/pages/Checklists.jsx:40-65 | signed out shows the sign-in error; a blank text sends nothing; in both cases the list and the field stay; otherwise the trimmed text is sent, and the stored row goes in front and clears the field, or the failure message is shown |
| Checklists.ChecklistPage.ToggleItem | hackteen-frontend-creator/src/pages/Checklists.jsx:68-99 | the list becomes `Toggled`; the fallback is sent only after a 404 and carries the flipped value; the input field stays |
| Checklists.ChecklistPage.DeleteItem | hackteen-frontend-creator/src/pages/Checklists.jsx:101-111 | a confirmed, successful delete removes exactly the items with that id; a failure keeps the list and shows the error |
| Diary.Validate | hackteen-frontend-creator/src/pages/Diary.jsx:44-49 | the form gives no error, the missing-date error or the short-note error |
| Diary.SaveFailureMessage | hackteen-frontend-creator/src/pages/Diary.jsx:71 | the server's message when it is non-empty, else the generic one |
| Diary.ValidateIff | hackteen-frontend-creator/src/pages/Diary.jsx:44-49 | the form passes exactly with a date and a trimmed note of at least 3 code units; the date is checked first; a white-space note never passes |
| Diary.DiaryPage.constructor | hackteen-frontend-creator/src/pages/Diary.jsx:13-20 | today's date, empty fields, no entries |
| Diary.DiaryPage.Load | hackteen-frontend-creator/src/pages/Diary.jsx:22-42 | no token shows the sign-in message; rows replace the list; a non-list empties it; a 401 or other failure shows its message |
| Diary.DiaryPage.AddEntry | hackteen-frontend-creator/src/pages/Diary.jsx:51-79 | a request is made exactly when the form passes and a token exists, and its body is the date, note and tags as typed (the note untrimmed); the stored entry goes in front and clears note and tags; every failure leaves the entries and shows its message |
| Diary.SentEntryIsStored | hackteen-frontend-creator/src/pages/Diary.jsx:44-60 | a request the page sends always passes the back end's date and note guard (backend/server.js:147), which stores the note exactly as typed |
| Diary.DiaryPage.DeleteEntry | hackteen-frontend-creator/src/pages/Diary.jsx:81-91 | a confirmed, successful delete removes exactly the entries with that id |
| Community.ToggleComments | hackteen-frontend-creator/src/pages/Community.jsx:145-151 | only the post with the id has its comments' visibility negated, and no other field changes |
| Community.AvatarInitial | hackteen-frontend-creator/src/pages/Community.jsx:125 | one character: the author's first, or `?` |
| Community.Outgoing | hackteen-frontend-creator/src/pages/Community.jsx:25-50 | blank text is refused, and anything else is sent exactly as typed, untrimmed |
| Community.ToggleTwiceRestores | hackteen-frontend-creator/src/pages/Community.jsx:145-151 | two toggles restore visibility and leave the other posts untouched |
| Community.ToggleUnknownUnchanged | hackteen-frontend-creator/src/pages/Community.jsx:145-151 | toggling an unknown id changes nothing |
| Community.CommunityPage.constructor | hackteen-frontend-creator/src/pages/Community.jsx:7-10 | an empty feed and form |
| Community.CommunityPage.FetchPosts | hackteen-frontend-creator/src/pages/Community.jsx:16-23 | a reply replaces the feed, and a failure shows the load error |
| Community.CommunityPage.ToggleCommentsOf | hackteen-frontend-creator/src/pages/Community.jsx:145-151 | performs `ToggleComments` |
| Community.CommunityPage.Submit | hackteen-frontend-creator/src/pages/Community.jsx:25-50 | nothing is sent exactly for blank content; otherwise the content is sent as typed and is cleared on success or kept with the error message |
| Resources.FilteredSelects | hackteen-frontend-creator/src/pages/Resources.jsx:39-44 | the shown list keeps the order of local then online resources, and shows a resource exactly when it is in one of them and matches search and type |
| Resources.Filtered | hackteen-frontend-creator/src/pages/Resources.jsx:39-44 | the shown list is no longer than both lists together, and every shown resource comes from one of them and matches |
| Resources.EmptySearchShowsAll | hackteen-frontend-creator/src/pages/Resources.jsx:39-44 | an empty search on "all" shows every resource in order |
| Resources.FilteredIdempotent | hackteen-frontend-creator/src/pages/Resources.jsx:39-44 | filtering the shown list again changes nothing |
| Resources.SearchIgnoresCase | hackteen-frontend-creator/src/pages/Resources.jsx:41 | the search ignores the case of ASCII letters |
| MockAuth.PublicHidesPassword | hackteen-frontend-creator/src/mocks/handlers.js:19 | two users give the same reply user exactly when they differ at most in their passwords |
| MockAuth.Token | hackteen-frontend-creator/src/mocks/handlers.js:19 | the token starts with `fake-jwt-` followed by something |
| MockAuth.TokenIdentifies | hackteen-frontend-creator/src/mocks/handlers.js:19 | the user id can be read back from the token, so two users never share one |
| MockAuth.UserStore.constructor | hackteen-frontend-creator/src/mocks/handlers.js:3-7 | the seeded account, next id 2, and the store invariant |
| MockAuth.UserStore.FindByEmail | hackteen-frontend-creator/src/mocks/handlers.js:12 | finds the first user with the e-mail, and none exactly when no user has it |
| MockAuth.UserStore.FindCredentials | hackteen-frontend-creator/src/mocks/handlers.js:24-26 | finds the first user with both e-mail and password, and none exactly when no user has both |
| MockAuth.UserStore.Signup | hackteen-frontend-creator/src/mocks/handlers.js:10-20 | a known e-mail gets 409 and changes nothing; otherwise the user is appended with the next id and 201 is returned; e-mails stay unique and ids increasing |
| MockAuth.UserStore.Login | hackteen-frontend-creator/src/mocks/handlers.js:22-29 | 200 exactly when some user has the e-mail and the password, with the public data and token of the first such user, as `users.find` returns; else 401 |
| Server.StoredDone | backend/server.js:200-207 | the stored `done` is 1 exactly when the body value is truthy, else 0 |
| Server.SecondWord | backend/server.js:25 | no second word exactly when the header has no space, and the word has no space |
| Server.SecondWordOf | backend/server.js:25 | the second word of `scheme token rest` is `token` |
| Server.SchemeIgnored | backend/server.js:22-33 | any first word followed by a token is accepted exactly when the token verifies |
| Server.MissingOrMalformedHeader | backend/server.js:22-33 | no header or an empty one gives "Token ausente"; one without a space gives "Token inválido" |
| Server.Authenticate | backend/server.js:22-33 | "Token ausente" exactly when the header is missing or empty, otherwise any refusal is "Token inválido"; accepted claims are what `verify` returned for the header's second word |
| Server.WithComments | backend/server.js:82-85 | one entry per post, copying its fields |
| Server.GroupingPlacesComments | backend/server.js:82-85 | every post carries exactly the comments on it, in order |
| Server.DeleteOwnedSparesOthers | backend/server.js:165-171 | a delete removes exactly the caller's row with that id, in order, and leaves other users' rows as they were |
| Server.DeleteOwned | backend/server.js:165-171 | no remaining row has the caller's key, and every remaining row was there before |
| Server.AddLike | backend/server.js:110-115 | the table keeps its length |
| Server.UpdateOnlyOwnRow | backend/server.js:200-207 | the update changes only the caller's row with the id, only in `done`, which becomes 1 exactly when the body is truthy |
| Server.LikeAddsOne | backend/server.js:110-115 | a like adds exactly one to the post with the id and changes nothing else |
| Server.SignupKeepsEmailsUnique | backend/server.js:36-53 | sign-up keeps e-mails unique and answers 200 exactly when all fields are given and the e-mail is new |
| Server.SignupRoute | backend/server.js:36-53 | the answer is 200, 400 or 409; only a 200 changes the tables, adding one user with the next id and the hash for a new e-mail |
| Server.LoginRoute | backend/server.js:55-68 | the answer is 200 for the given e-mail or the one 401 message |
| Server.LoginAcceptsIff | backend/server.js:55-68 | log-in answers 200 exactly when a user has the e-mail and the password matches the hash; both failures give the same 401 message |
| Server.FieldGuards | backend/server.js:36-198 | a missing field gives 400 with the route's message and changes nothing; a valid diary entry or checklist item appends exactly one row with the next id, owned by the caller |
| Server.CreatePost | backend/server.js:91-107 | 200 exactly when the content is given, and then one post is added after the others with the next id and no likes; otherwise nothing changes |
| Server.Like | backend/server.js:110-115 | only the posts change; the reply has no post exactly when no post has the id, and otherwise the post with that id |
| Server.AddComment | backend/server.js:118-134 | 200 exactly when the text is given, and then one comment with the next id is added; otherwise nothing changes |
| Server.AddDiary | backend/server.js:145-163 | 200 exactly when date and note are given, and then one entry owned by the caller is added after the others; otherwise nothing changes |
| Server.AddChecklist | backend/server.js:182-198 | 200 exactly when the text is given, and then one item owned by the caller and not done is added after the others; otherwise nothing changes |
| Server.ListsAreOwnerScoped | backend/server.js:137-198 | each user lists only their own rows, and a new checklist item appears in its author's list and nobody else's |
| Server.OwnDiary | backend/server.js:137-143 | the caller's diary rows: each is the caller's, all the caller's rows are there, in table order |
| Server.OwnChecklists | backend/server.js:174-180 | the caller's checklist rows: each is the caller's, all the caller's rows are there, in table order |
| Server.FilterAppendOne | backend/server.js:84 | filtering a list with one element appended |
| Server.OrphanCommentHidden | backend/server.js:118-134 | a comment on a missing post is stored but changes no post's listed comments |
| Server.NewPostListing | backend/server.js:91-107 | a new post is listed last with the reply's id, author, content and no likes; its comments are empty exactly when no stored comment names its id |
| Server.AppendAscending | backend/db.js:14 | inserting with the counter's id and advancing the counter keeps an `AUTOINCREMENT` table's ids increasing and below the counter |
| Server.FilterAscending | backend/server.js:165-171 | deleting rows keeps a table's ids increasing and below the counter |
| Server.SignupKeepsConsistent | backend/server.js:36-53 | sign-up keeps the schema's guarantees: unique e-mails and increasing ids below the counters |
| Server.CreatePostKeepsConsistent | backend/server.js:91-107 | a new post keeps the schema's guarantees |
| Server.AddCommentKeepsConsistent | backend/server.js:118-134 | a new comment keeps the schema's guarantees |
| Server.AddDiaryKeepsConsistent | backend/server.js:145-163 | a new diary entry keeps the schema's guarantees |
| Server.AddChecklistKeepsConsistent | backend/server.js:182-198 | a new checklist item keeps the schema's guarantees |
| Server.LikeKeepsConsistent | backend/server.js:110-115 | a like changes no id and keeps the schema's guarantees |
| Server.ChecklistChangesKeepConsistent | backend/server.js:165-215 | the checklist update and both owner-scoped deletes keep the schema's guarantees |
| Server.NewestFirst | backend/server.js:79 | with the schema's guarantees, the posts read from last to first are all the posts, each once, with strictly decreasing ids (`ORDER BY id DESC`) |
| Server.Database.constructor | backend/db.js:12-77 | empty tables, every counter at 1, and the schema's guarantees hold |
| Server.Database.Signup | backend/server.js:36-53 | performs `SignupRoute`; the schema's guarantees still hold afterwards |
| Server.Database.Login | backend/server.js:55-68 | answers `LoginRoute` and changes nothing; a given e-mail gets 200 exactly when a user has it and the password matches that user's hash |
| Server.Database.ListPosts | backend/server.js:78-88 | answers `WithComments` of the posts table read from last to first, so ids strictly decrease along the answer |
| Server.Database.NewPost | backend/server.js:91-107 | performs `CreatePost`; the schema's guarantees still hold afterwards |
| Server.Database.LikePost | backend/server.js:110-115 | performs `Like`; the schema's guarantees still hold afterwards |
| Server.Database.CommentPost | backend/server.js:118-134 | performs `AddComment`; the schema's guarantees still hold afterwards |
| Server.Database.ListDiary | backend/server.js:137-143 | answers the caller's diary rows |
| Server.Database.NewDiaryEntry | backend/server.js:145-163 | performs `AddDiary`; the schema's guarantees still hold afterwards |
| Server.Database.DeleteDiaryEntry | backend/server.js:165-171 | deletes the caller's row with the id and always answers success; the schema's guarantees still hold afterwards |
| Server.Database.ListChecklists | backend/server.js:174-180 | answers the caller's checklist rows |
| Server.Database.NewChecklistItem | backend/server.js:182-198 | performs `AddChecklist`; the schema's guarantees still hold afterwards |
| Server.Database.UpdateChecklistItem | backend/server.js:200-207 | performs `UpdateDone` with the truthiness of the body and answers success; the schema's guarantees still hold afterwards |
| Server.Database.DeleteChecklistItem | backend/server.js:209-215 | deletes the caller's row with the id and always answers success; the schema's guarantees still hold afterwards |
| Common.FirstIndex | hackteen-frontend-creator/src/pages/Checklists.jsx:70 | the position of the first element with the key, and none exactly when no element has it |
| Common.FindBy | backend/server.js:113 | the first element with the key, and none exactly when no element has it |
| Common.ReversedPermutes | backend/server.js:79 | reading a table from last to first keeps every row, as often as it occurs |
| Text.Trim | hackteen-frontend-creator/src/pages/Checklists.jsx:46 | the trimmed text is no longer than the input and neither starts nor ends with white space |
| Text.TrimEmptyIffAllSpace | hackteen-frontend-creator/src/pages/Community.jsx:27 | `!s.trim()` holds exactly when every character is white space |
| Text.TrimIsInfix | hackteen-frontend-creator/src/pages/Checklists.jsx:50 | the trimmed text is a piece of the input |
| Text.AsciiSpaces | hackteen-frontend-creator/src/pages/Signup.jsx:6 | on ASCII, `\s` is the space and tab through carriage return; no other printable ASCII character is white space |
| Text.LowerNormalizes | hackteen-frontend-creator/src/pages/Resources.jsx:41 | lower-casing leaves no upper-case ASCII letter, changes no other character, and is idempotent |

## Left out

- Timers are collapsed into explicit steps: the Snake interval, the Sequence flashes (only their schedule is computed), the 900 ms Emotions delay and the 1200 ms Sequence restart.
- The Snake start button's countdown of three seconds is not modelled, because it is a timer around `resetGame`.
- Randomness is a parameter: the food cell, the colour index and the distractor indices.
- The random-comparator sort at the end of `shuffleOptions` is not modelled; the options are returned in insertion order.
- Emotions.ShuffleOptions: with a finite list of random picks the loop may stop early. It then returns fewer than four labels, and the contract says this happens only when every drawn label is already present.
- Audio, the DOM, focus and navigation are not modelled.
- `localStorage` values are inputs of the constructors (high score, font size); the write-back is left to the caller, except for the font size.
- Dark mode's JSON round trip through storage is not modelled.
- The HTTP layer (`api/axios.js`, `AuthContext.jsx`) is not modelled; each page action takes the server's reply, or the failure, as an input.
- Clearing the error messages from `useEffect` is not modelled.
- A checklist creation reply without a body (`res.data || {}` in `addItem`) is not modelled; the reply is always a row.
- `bcrypt.hash`, `bcrypt.compare` and `jwt.verify` are parameters. The token `jwt.sign` issues on sign-up and log-in is not part of the reply model.
- The PubMed proxy (`backend/server.js:222-253`) is not modelled, because it performs network I/O.
- `GET /api/resources` is not modelled, because it is a fixed list. Neither are the mock's fixed resource and post lists.
- `handleLike` on the Community page is not modelled, because it only sends a request and reloads.
- SQL `ORDER BY`: posts and comments are read in table order, which the schema's guarantees make the order of their ids (`Server.NewestFirst`). The diary and checklist lists are returned in insertion order, not by `created_at`.
- SQLite's `AUTOINCREMENT` counter is modelled as one counter per table that only the table's inserts advance.
- `created_at` timestamps are not stored.
- Route parameters are integers, not the text Express passes.
- Text body fields are `Option<string>`. A number or boolean sent where text is expected is not modelled, except for the checklist `done` field.
- A missing password at back-end log-in is not modelled; `bcrypt.compare` would reject it.
- Server.AddLike: states only the table's length; the effect of a like is stated by `Server.LikeAddsOne`.
- `toLowerCase` is modelled for ASCII letters only.
- The avatar initial takes the first code point, where JavaScript takes the first UTF-16 unit; they differ only for characters outside the Basic Multilingual Plane.
- Checklists.ProgressRounds: `Math.round(d / t * 100)` on floating point is modelled as exact rational rounding with halves up. The two differ where the floating-point product falls just below a half: 23 of 40 items done gives 58 in the model, but JavaScript computes `23 / 40 * 100` as 57.49999999999999 and rounds it to 57.
- UiSettings.StoredFontSize: the stored entry is an integer or nothing. A hand-edited non-integer entry such as "17.5" or "Infinity" becomes a fractional or infinite size in the source; the model has no such value.
- Integers are unbounded; no counter in the source comes near its limits.
