# StudyBuddy core, modelled in Dafny

StudyBuddy is a study companion web app. This project models its logic, one Dafny module per source file:

- **The group-chat room hub** (`server.js`, module `ChatHub`).
  - The `activeGroups` presence map and the `messageHistory` map, capped at 50 messages per room.
  - The `join_group`, `leave_group`, `group_message` and `disconnect` handlers.
- **Its browser half** (`src/Component/GroupChat.jsx`, module `ChatClient`).
  - The list updaters for `receive_message`, `message_history`, `user_joined` and `user_left`.
  - The send guard, the optimistic pending entry, and its removal when the acknowledgement reports an error.
- **The two Pomodoro timers**.
  - `src/pages/Pomodoro.jsx`, module `ClassicPomodoro`: the work/break cycle with a long break after every fourth session.
  - `frontend/src/pages/Pomodoro.jsx`, module `SessionPomodoro`: session types, which it records through the API.
- **The built-in flashcard deck** (`src/pages/Flashcards.jsx`, module `DeckFlashcards`): wrap-around navigation, flip, the Fisher–Yates shuffle and reset.
- **Study mode** over the API's flashcards (`frontend/src/pages/Flashcards.jsx`, module `StudyFlashcards`).
- **The timed quiz** (`src/Component/QuizDuel.jsx`, module `QuizDuel`): scoring, countdown, high score, badge and the `m:ss` clock.
- **The notes page's search filter and editor form** (`frontend/src/pages/Notes.jsx`, module `NotesPage`).
- **The flashcard service** (`backend/app/services/flashcard_service.py`, module `FlashcardService`): the mastery update of a review, the partial update and delete.
- **The study-session service** (`backend/app/services/study_session_service.py`, module `StudySessionService`): the statistics loop and `complete_session`.
- **The signed-in user** (`src/context/AuthContext.jsx`, module `AuthContext`): login with its name check, logout, and the user kept in browser storage.
- **The sign-up form's validation chain** (`src/pages/Signup.jsx`, module `Signup`).

Two modules hold the shared vocabulary (`text.dfy`):

- `Wrappers`: an `Option` type for `undefined`/`null`/`None`.
- `JsText`: JavaScript truthiness of strings, `String.prototype.trim`, ASCII lower-casing, `includes`, and decimal formatting of naturals.

Most code that changes component or server state in place is modelled as a class:

- Its fields are the source's state variables.
- Its methods are the handlers; each states its whole new state.
- The handlers are specified by pure functions (`Completion`, `TickStep`, `Retain`, `LeftNotices`, `FilteredNotes`, `CountedSessions`, …), and the properties the code promises are proved as lemmas about those functions.

Things the model cannot see are parameters:

- the clock;
- `randomUUID`;
- `Math.random`;
- the replies of API and database calls;
- `window.confirm`.

A database collection is a sequence of documents in natural order; a query by id and user selects the first matching document.

Behaviour of the chat code worth knowing:

- **The sender receives its own broadcast.** `group_message` broadcasts to the whole room, sender included (`io.to(room)`), not only to the other members.
- **Sender names are not truncated.** Only the body is cut to 500 characters.
- **No empty history on join.** A join sends `message_history` only when the room's history is non-empty; a joiner of a room with empty history receives no history event.
- **No grace window for reconnection.** The hub removes presence on every disconnect and tells the room, with no reconnection grace logic (`ChatHub.Hub.Disconnect`).
- **The dedup does not merge a send with its echo.** The optimistic copy has id `local-<millis>` and the echo has the hub's UUID, so the sender's list shows the message twice (`ChatClient.EchoNotMerged`).
- **System notice ids can collide.** Two notices made in the same millisecond get the same `system-<millis>` id (`ChatClient.SystemIdsCollide`).
- **`message_history` replaces the list.** It does not merge with pending entries.

## Model

| member | source | states |
|---|---|---|
| JsText.TrimStartFacts | src/context/AuthContext.jsx:38 | the start of `trim` removes exactly the leading white space: the result is a suffix of the input that does not begin with white space, and every removed character is white space |
| JsText.TrimEndFacts | src/context/AuthContext.jsx:38 | the end of `trim` removes exactly the trailing white space: the result is a prefix that does not end with white space, and every removed character is white space |
| JsText.TrimSlice | src/Component/GroupChat.jsx:184-185 | a trimmed string is one contiguous slice of the input with no white space at either end |
| JsText.TrimIdempotent | src/pages/Signup.jsx:48 | trimming a trimmed name changes nothing, so the name handed to `login` is left as it is by login's own trim |
| JsText.BlankIffAllSpace | src/pages/Signup.jsx:26 | `!s.trim()` holds exactly when every character of `s` is white space |
| JsText.ToLower | frontend/src/pages/Notes.jsx:65 | lower-casing keeps the length and lowers each character in place |
| JsText.Contains | frontend/src/pages/Notes.jsx:65-66 | `hay.includes(needle)` is true exactly when the needle occurs at some index of the haystack |
| JsText.ContainsEmpty | frontend/src/pages/Notes.jsx:65 | every string includes the empty string |
| JsText.NatToString | src/Component/QuizDuel.jsx:126 | the decimal text of a natural is non-empty, all digits, without a leading zero, and one character exactly below 10 |
| JsText.NatToStringRoundTrip | src/Component/QuizDuel.jsx:126 | reading the decimal text of `n` back gives `n` |
| JsText.PadStart2 | src/Component/QuizDuel.jsx:126 | `padStart(2, "0")` has length max(2, \|s\|), ends with `s` and is zeros before it |
| ChatHub.JoinRoom | server.js:40-44 | the room key is `group_` followed by the group id, or by `default` when the id is missing or empty |
| ChatHub.JoinRoomKeys | server.js:40-44 | distinct non-empty group ids give distinct rooms; a missing or empty id shares the room of the id `default` |
| ChatHub.JoinIdempotent | server.js:48-51 | joining twice leaves the presence map as one join does; a join grows the room's set by one only for a socket not yet in it |
| ChatHub.Truncate | server.js:110 | the stored body is a prefix of the sent body of length min(\|body\|, 500) |
| ChatHub.Stored | server.js:104-112 | a stored message has the fresh id, the sender or else `Anonymous`, a non-empty prefix of at most 500 characters of the body (the whole body when it fits), and the client timestamp or else now |
| ChatHub.Retain | server.js:117-124 | push then `slice(-50)`: the new history has min(\|h\|+1, 50) messages, ends with the new one, and is a suffix of the old history plus the new message |
| ChatHub.LastNAppend | server.js:122-123 | cutting a list to its last 50 before appending does not change the last 50 after appending |
| ChatHub.RetainKeepsLast | server.js:117-124 | if a history is the last 50 of everything accepted, then after one append it is the last 50 of everything accepted including the new message |
| ChatHub.AppendAllKeepsLast | server.js:117-124 | bounded FIFO retention: after any run of appends, a history holds exactly the last min(50, n) messages in the order they were accepted |
| ChatHub.StripFromVisited | server.js:140-147 | the disconnect loop, having visited some rooms, has removed the socket from exactly those rooms' sets and left the others unchanged |
| ChatHub.StripFromAll | server.js:140-147 | after visiting every room, the socket is in no presence set and every other member is still present |
| ChatHub.StripStep | server.js:140-146 | a room not visited before still has its original set when the loop reaches it, and the map and the notices grow by that room's step alone |
| ChatHub.CountForAppend | server.js:145 | the number of emits addressed to a room adds up over concatenation |
| ChatHub.CountForNotice | server.js:141-145 | one room's step emits one notice to that room when its set holds the socket, and none otherwise |
| ChatHub.LeftNoticesShape | server.js:140-147 | every disconnect notice is a `user_left` for the socket, sent to the others in a visited room that held it |
| ChatHub.LeftNoticesOutside | server.js:140-147 | a room that was not visited gets no notice |
| ChatHub.LeftNoticesCount | server.js:140-147 | a visited room gets exactly one notice when its set held the socket and none otherwise |
| ChatHub.LeftNoticesExactlyOnce | server.js:140-147 | on disconnect every room that held the socket is notified exactly once, no other room is notified, and each notice is a `user_left` for that socket |
| ChatHub.GroupMessageAck | server.js:96-133 | the acknowledgement the handler should give: a rejection with `Invalid message format` exactly when the payload lacks data, group id or body, otherwise the stored message's id |
| ChatHub.OrderPut | server.js:48-49 | setting a room keeps `groupOrder` the Map's key order; a new key is appended at the end |
| ChatHub.OrderSameKeys | server.js:140-147 | changing sets without changing keys keeps the key order |
| ChatHub.HistoryCreate | server.js:59-60 | creating a room with an empty history keeps every history equal to the last 50 messages its room has accepted |
| ChatHub.HistoryAppend | server.js:117-124 | appending with `Retain` keeps every history equal to the last 50 messages its room has accepted |
| ChatHub.Hub.constructor | server.js:30-31 | both maps start empty |
| ChatHub.Hub.JoinGroup | server.js:38-66 | join adds the socket to the room, creating the set and an empty history on first use, sends a non-empty history to the joiner alone, and sends `user_joined` to the rest of the room |
| ChatHub.Hub.LeaveGroup | server.js:74-89 | with a group id, leave removes only that socket from only that room (no error if absent) and tells the others; without one it does nothing |
| ChatHub.Hub.GroupMessage | server.js:96-128 | a malformed payload gets an error to the sender and changes nothing; otherwise the stored message goes to the whole room including the sender, and is appended (keeping the last 50) only to a room that has a history |
| ChatHub.Hub.Disconnect | server.js:136-148 | disconnect removes the socket from every presence set, changes nothing else, and emits the `user_left` notices of `LeftNotices` in room order |
| ChatClient.Receive | src/Component/GroupChat.jsx:81-94 | a payload whose truthy id is already listed leaves the list unchanged; any other payload is appended at the end with its timestamp or else now |
| ChatClient.ReceiveIdempotent | src/Component/GroupChat.jsx:85-87 | receiving the same message with an id twice gives the list of receiving it once |
| ChatClient.ReceiveKeepsUnique | src/Component/GroupChat.jsx:85-91 | receiving keeps the truthy ids of the list distinct |
| ChatClient.SystemIdsCollide | src/Component/GroupChat.jsx:110 | two system notices share an id exactly when they are made in the same millisecond; no notice id is a local id |
| ChatClient.SystemEntry | src/Component/GroupChat.jsx:107-116 | a notice is a system entry from `System` with the given text, a `system-` id, and the event's timestamp or else now |
| ChatClient.Outbound | src/Component/GroupChat.jsx:182-187 | the emitted payload carries the group, the trimmed user name, the trimmed message and the send time |
| ChatClient.PendingEntry | src/Component/GroupChat.jsx:190-197 | the optimistic entry is the payload marked pending, with a `local-` id |
| ChatClient.SendRoundTrip | src/Component/GroupChat.jsx:182-187 | a payload the send guard lets through is accepted by the hub and stored with the trimmed sender and body and the client's timestamp; only the id is the hub's |
| ChatClient.EchoNotMerged | src/Component/GroupChat.jsx:193-197 | the hub's echo of a send is appended next to the pending copy instead of replacing it: the list grows by two entries with the same sender and text, one pending and one not |
| ChatClient.RemoveId | src/Component/GroupChat.jsx:212 | the filter keeps exactly the entries without that id and never grows the list |
| ChatClient.RemoveIdAppend | src/Component/GroupChat.jsx:212 | filtering distributes over concatenation |
| ChatClient.RemoveIdAbsent | src/Component/GroupChat.jsx:212 | filtering out an id the list does not hold changes nothing |
| ChatClient.AckErrorUndoesSend | src/Component/GroupChat.jsx:207-213 | an error acknowledgement removes exactly the pending entry; whatever arrived before or after it stays, in order |
| ChatClient.ChatView.constructor | src/Component/GroupChat.jsx:8-17 | the view mounts with empty messages and users, disconnected and not sending; it is connecting, or shows the initialisation error when no socket could be created |
| ChatClient.ChatView.OnConnect | src/Component/GroupChat.jsx:55-64 | connect marks the view connected, clears the error and joins the view's group |
| ChatClient.ChatView.OnConnectError | src/Component/GroupChat.jsx:66-72 | a connection error stops connecting and shows the connect failure |
| ChatClient.ChatView.OnDisconnect | src/Component/GroupChat.jsx:74-79 | disconnect marks the view disconnected and changes nothing else |
| ChatClient.ChatView.OnReceive | src/Component/GroupChat.jsx:81-94 | the list becomes `Receive` of the old list; nothing else changes |
| ChatClient.ChatView.OnHistory | src/Component/GroupChat.jsx:96-101 | an array replaces the whole list; any other payload is ignored |
| ChatClient.ChatView.OnUserJoined | src/Component/GroupChat.jsx:103-118 | the socket joins the active users and exactly one join notice is appended |
| ChatClient.ChatView.OnUserLeft | src/Component/GroupChat.jsx:120-139 | the socket leaves the active users and exactly one leave notice is appended |
| ChatClient.ChatView.OnError | src/Component/GroupChat.jsx:141-145 | an error event with a truthy message becomes the connection error |
| ChatClient.ChatView.OnType | src/Component/GroupChat.jsx:296-303 | typing sets the input, at most 500 characters, and nothing else |
| ChatClient.ChatView.HandleSendMessage | src/Component/GroupChat.jsx:174-200 | with a blank message, no socket, no connection or a blank name nothing happens; otherwise exactly one pending entry is appended, the input is cleared, sending starts, and the payload is emitted |
| ChatClient.ChatView.OnAck | src/Component/GroupChat.jsx:203-214 | the acknowledgement always ends sending; an error also sets the send-failure text and removes exactly the entry with the local id |
| ChatClient.LockedAfterSend | src/Component/GroupChat.jsx:302-309 | as written: after one accepted send and its echo, the message input and the Send button are both disabled |
| ChatClient.UnlockedAfterAck | src/Component/GroupChat.jsx:203-214 | as intended: with the hub acknowledging, the input is enabled again after a send, and the list shows the pending copy and the echo |
| ClassicPomodoro.Completion | src/pages/Pomodoro.jsx:45-70 | completing work counts one cycle and starts a break, long exactly when the new count is a multiple of 4; completing a break returns to 25-minute work with the count unchanged; the timer always stops |
| ClassicPomodoro.TickStep | src/pages/Pomodoro.jsx:23-36 | a tick of a running timer takes exactly one second off a non-zero clock in the same phase, completes the session at 0:00, and keeps seconds below 60 |
| ClassicPomodoro.CountDown | src/pages/Pomodoro.jsx:23-36 | n ticks of a running session leave it running in the same phase with n seconds fewer |
| ClassicPomodoro.RunsOut | src/pages/Pomodoro.jsx:24-28 | a running session completes on the tick after it reaches 0:00 |
| ClassicPomodoro.WorkAfterPairs | src/pages/Pomodoro.jsx:49-67 | each work session and its break bring the timer back to a stopped 25:00 work session with one more cycle |
| ClassicPomodoro.LongBreakEveryFourth | src/pages/Pomodoro.jsx:49-62 | from mount, the break after the k-th work session is the 15-minute one exactly when k is a multiple of 4 |
| ClassicPomodoro.Skip | src/pages/Pomodoro.jsx:94-113 | skipping stops the timer with seconds at zero |
| ClassicPomodoro.SkipIsCompletion | src/pages/Pomodoro.jsx:94-113 | skipping is the completion transition with the seconds cleared |
| ClassicPomodoro.Reset | src/pages/Pomodoro.jsx:83-91 | reset stops at the start of the phase, 5 minutes for any break (long ones included) and 25 for work, keeping phase and count |
| ClassicPomodoro.FormatTime | src/pages/Pomodoro.jsx:116-118 | values below 10 get one leading zero; the result is all digits |
| ClassicPomodoro.LeadingZero | src/pages/Pomodoro.jsx:117 | a leading zero does not change the value of a digit string |
| ClassicPomodoro.FormatTimeRoundTrip | src/pages/Pomodoro.jsx:116-118 | the formatted text reads back as the value, and has two characters for values below 100 |
| ClassicPomodoro.Timer.constructor | src/pages/Pomodoro.jsx:6-10 | the timer mounts as a stopped 25:00 work session with no cycles |
| ClassicPomodoro.Timer.Tick | src/pages/Pomodoro.jsx:19-42 | one interval firing moves the state by `TickStep`, and reports a completion exactly when a running clock was at 0:00 |
| ClassicPomodoro.Timer.HandleTimerCompletion | src/pages/Pomodoro.jsx:45-70 | the state moves by `Completion` |
| ClassicPomodoro.Timer.StartTimer | src/pages/Pomodoro.jsx:73-75 | start sets only the active flag |
| ClassicPomodoro.Timer.PauseTimer | src/pages/Pomodoro.jsx:78-80 | pause clears only the active flag |
| ClassicPomodoro.Timer.ResetTimer | src/pages/Pomodoro.jsx:83-91 | the state moves by `Reset` |
| ClassicPomodoro.Timer.SkipSession | src/pages/Pomodoro.jsx:94-113 | the state moves by `Skip` |
| SessionPomodoro.Duration | frontend/src/pages/Pomodoro.jsx:37 | a pomodoro lasts 25 minutes, a short break 5, and any other type 15, each exactly for its types |
| SessionPomodoro.NextType | frontend/src/pages/Pomodoro.jsx:74-80 | completion switches a pomodoro to a short break and any other type to a pomodoro |
| SessionPomodoro.Alternation | frontend/src/pages/Pomodoro.jsx:74-80 | completions alternate between pomodoro and short break from any start, and never reach a long break |
| SessionPomodoro.Complete | frontend/src/pages/Pomodoro.jsx:62-83 | completion stops the timer, forgets the session, switches type and restarts at the new type's full length |
| SessionPomodoro.Change | frontend/src/pages/Pomodoro.jsx:85-92 | changing type stops, forgets the session and sets the clock to that type's full length |
| SessionPomodoro.Reset | frontend/src/pages/Pomodoro.jsx:54-60 | reset is a change to the current type |
| SessionPomodoro.TickStep | frontend/src/pages/Pomodoro.jsx:14-27 | a tick of a running timer takes exactly one second off a non-zero clock, changing nothing else, and completes the session at 0:00 |
| SessionPomodoro.StepsFit | frontend/src/pages/Pomodoro.jsx:14-92 | every step keeps the clock a valid time no longer than the current type's full length |
| SessionPomodoro.SessionTimer.constructor | frontend/src/pages/Pomodoro.jsx:7-11 | the timer mounts as a stopped 25:00 pomodoro with no session |
| SessionPomodoro.SessionTimer.StartSession | frontend/src/pages/Pomodoro.jsx:35-48 | start asks to record a session of the current type and duration, keeps the created session if any, and starts the timer whether or not the call succeeded |
| SessionPomodoro.SessionTimer.PauseSession | frontend/src/pages/Pomodoro.jsx:50-52 | pause clears only the active flag |
| SessionPomodoro.SessionTimer.ResetSession | frontend/src/pages/Pomodoro.jsx:54-60 | the state moves by `Reset` |
| SessionPomodoro.SessionTimer.CompleteSession | frontend/src/pages/Pomodoro.jsx:62-83 | the state moves by `Complete`, and the recorded session (if any) is the one marked complete |
| SessionPomodoro.SessionTimer.ChangeSessionType | frontend/src/pages/Pomodoro.jsx:85-92 | the state moves by `Change` |
| SessionPomodoro.SessionTimer.Tick | frontend/src/pages/Pomodoro.jsx:14-33 | one interval firing moves the state by `TickStep`, ending the session exactly when a running clock was at 0:00 |
| DeckFlashcards.NextIndex | src/pages/Flashcards.jsx:77 | the next index is on the deck, and is i + 1 unless i is the last card |
| DeckFlashcards.PrevIndex | src/pages/Flashcards.jsx:78 | the previous index is on the deck: i − 1, or the last card from the first |
| DeckFlashcards.NextPrevInverse | src/pages/Flashcards.jsx:77-78 | next then prev, and prev then next, return to the same card |
| DeckFlashcards.Swap | src/pages/Flashcards.jsx:83 | the destructuring swap exchanges two positions and keeps every other one |
| DeckFlashcards.SwapPermutes | src/pages/Flashcards.jsx:83 | a swap keeps the multiset of cards |
| DeckFlashcards.ShufflePermutes | src/pages/Flashcards.jsx:79-89 | for any draws j ≤ i, the shuffle keeps the length and the multiset of cards |
| DeckFlashcards.ShuffleInPlace | src/pages/Flashcards.jsx:80-84 | the swap loop over the array produces the sequence of swaps for i from the last index down to 1, a permutation of its input |
| DeckFlashcards.Deck.constructor | src/pages/Flashcards.jsx:61-64 | the page mounts on the initial deck, first card, unflipped, not shuffled |
| DeckFlashcards.Deck.Next | src/pages/Flashcards.jsx:77 | next moves to `NextIndex` and unflips, keeping the deck |
| DeckFlashcards.Deck.Prev | src/pages/Flashcards.jsx:78 | prev moves to `PrevIndex` and unflips, keeping the deck |
| DeckFlashcards.Deck.Flip | src/pages/Flashcards.jsx:71 | space or a click toggles `flipped` and nothing else |
| DeckFlashcards.Deck.Shuffle | src/pages/Flashcards.jsx:79-89 | shuffle leaves the reordering of the displayed cards given by the draws, at the first card, unflipped and marked shuffled |
| DeckFlashcards.Deck.Reset | src/pages/Flashcards.jsx:90-95 | reset restores the initial deck at the first card, unflipped and not shuffled |
| DeckFlashcards.Mount | src/pages/Flashcards.jsx:60-64 | the page mounts on the built-in cards at the first card |
| QuizDuel.GetBadge | src/Component/QuizDuel.jsx:116-120 | Beginner exactly for scores up to 2, Achiever exactly for 3 and 4, Master exactly above 4 |
| QuizDuel.BadgeMonotone | src/Component/QuizDuel.jsx:116-120 | a higher score never earns a lower badge |
| QuizDuel.PaddedSeconds | src/Component/QuizDuel.jsx:125-126 | seconds below 60 are padded to exactly two digits that read back as them |
| QuizDuel.ReadJoined | src/Component/QuizDuel.jsx:126 | digits, a colon and two more digits read back as minutes·60 + seconds |
| QuizDuel.ClockText | src/Component/QuizDuel.jsx:123-127 | the `m:ss` text of m minutes and s < 60 seconds reads back as m·60 + s |
| QuizDuel.FormatTimeRoundTrip | src/Component/QuizDuel.jsx:123-127 | reading the formatted clock back gives the seconds it was made from |
| QuizDuel.Quiz.constructor | src/Component/QuizDuel.jsx:40-51 | the quiz mounts with 120 seconds, no score, the first question, nothing selected, not started, and the saved high score |
| QuizDuel.Quiz.HandleSelect | src/Component/QuizDuel.jsx:74-84 | a second selection is ignored; a first one is recorded and scores exactly when it is the answer; the score never exceeds the number of questions |
| QuizDuel.Quiz.HandleNext | src/Component/QuizDuel.jsx:87-96 | next moves to the following question with the selection cleared, or finishes after the last one |
| QuizDuel.Quiz.Countdown | src/Component/QuizDuel.jsx:54-63 | once started, a second comes off while time remains, and the quiz finishes at 0 |
| QuizDuel.Quiz.SaveHighScore | src/Component/QuizDuel.jsx:66-71 | a finished quiz raises the high score to max(high score, score) and stores it exactly when it changed |
| QuizDuel.Quiz.StartQuiz | src/Component/QuizDuel.jsx:99-101 | start sets only the started flag |
| QuizDuel.Quiz.RestartQuiz | src/Component/QuizDuel.jsx:104-113 | restart resets time, score, question, selection and feedback, starts at once, and keeps the high score |
| QuizDuel.Mount | src/Component/QuizDuel.jsx:6-51 | the component mounts on the five built-in questions with the saved high score |
| StudyFlashcards.FindIndex | frontend/src/pages/Flashcards.jsx:55 | `findIndex` is the first position holding the id, or −1 exactly when none does |
| StudyFlashcards.NextCardInOrder | frontend/src/pages/Flashcards.jsx:55-61 | with distinct ids, reviewing card i moves to card i + 1, and reviewing the last card ends study mode |
| StudyFlashcards.NextCardWhenGone | frontend/src/pages/Flashcards.jsx:55-57 | a current card no longer in the list sends the next review back to the first card |
| StudyFlashcards.StudyView.constructor | frontend/src/pages/Flashcards.jsx:7-13 | the page mounts loading, with no cards, not studying |
| StudyFlashcards.StudyView.OnFetched | frontend/src/pages/Flashcards.jsx:19-28 | a reply replaces the list, a failure keeps it, and loading ends either way |
| StudyFlashcards.StudyView.StartStudy | frontend/src/pages/Flashcards.jsx:42-48 | nothing happens for an empty list; otherwise study mode starts on the first card, unflipped |
| StudyFlashcards.StudyView.Flip | frontend/src/pages/Flashcards.jsx:83 | a click toggles `flipped` and nothing else |
| StudyFlashcards.StudyView.HandleReview | frontend/src/pages/Flashcards.jsx:50-66 | with no current card nothing happens; after an accepted review the next card by position becomes current, or study mode ends and the list is fetched again; after a failed review nothing changes |
| NotesPage.FilteredNotes | frontend/src/pages/Notes.jsx:63-67 | the filter returns no more notes than it is given, each one of the notes and matching the query |
| NotesPage.FilteredMembership | frontend/src/pages/Notes.jsx:63-67 | a note is shown exactly when it is one of the notes and its lower-cased title or content includes the lower-cased query |
| NotesPage.FilteredInOrder | frontend/src/pages/Notes.jsx:63-67 | the shown notes are a subsequence of the notes, in their order |
| NotesPage.EmptyQueryKeepsAll | frontend/src/pages/Notes.jsx:63-67 | an empty query shows every note |
| NotesPage.SearchIgnoresCase | frontend/src/pages/Notes.jsx:63-67 | queries equal up to case show the same notes |
| NotesPage.NotesView.constructor | frontend/src/pages/Notes.jsx:7-12 | the page mounts loading, with no notes, an empty search and an empty, closed form |
| NotesPage.NotesView.OnFetched | frontend/src/pages/Notes.jsx:18-27 | a reply replaces the notes, a failure keeps them, and loading ends either way |
| NotesPage.NotesView.Search | frontend/src/pages/Notes.jsx:94-99 | typing a query shows `FilteredNotes` of the notes for it and changes nothing else |
| NotesPage.NotesView.ToggleForm | frontend/src/pages/Notes.jsx:82 | the New Note button toggles the form and starts a new, empty note |
| NotesPage.NotesView.HandleEdit | frontend/src/pages/Notes.jsx:57-61 | edit copies title and content into the form, tags or else none, and edits that note in an open form |
| NotesPage.NotesView.HandleSubmit | frontend/src/pages/Notes.jsx:29-44 | submit sends an update of the note being edited or else a create; on success the form is emptied and closed, editing ends and the notes are refetched; on failure nothing changes |
| NotesPage.NotesView.HandleDelete | frontend/src/pages/Notes.jsx:46-55 | a delete is sent exactly when the user confirms, and the notes are refetched exactly when it succeeds |
| FlashcardService.FindDoc | backend/app/services/flashcard_service.py:35-40 | the query by id and user selects the first document owned by that user with that id, or none exactly when there is none |
| FlashcardService.MasteryInRange | backend/app/services/flashcard_service.py:69-73 | a mastery in 0..5 stays in 0..5, moving up one on a correct answer unless already 5 and down one on a wrong one unless already 0 |
| FlashcardService.RepeatedReviews | backend/app/services/flashcard_service.py:69-73 | n correct reviews reach min(5, m + n) and n wrong ones max(0, m − n) |
| FlashcardService.PatchFacts | backend/app/services/flashcard_service.py:44-51 | an update sets exactly the fields present and the update time, keeps every other field, is idempotent, and an empty update only touches the time |
| FlashcardService.FlashcardCollection.constructor | backend/app/services/flashcard_service.py:7-10 | the collection holds the given documents, all with mastery in 0..5 |
| FlashcardService.FlashcardCollection.ReviewFlashcard | backend/app/services/flashcard_service.py:62-90 | a missing card gives None and no change; a stored card that cannot be read back (get_flashcard_by_id raises at line 39) gives the validation error and no change; otherwise only that card changes: mastery by the clamp, review count up by exactly one, review and update time set; mastery stays in 0..5 and readable cards stay readable |
| FlashcardService.FlashcardCollection.UpdateFlashcard | backend/app/services/flashcard_service.py:42-55 | as written: a missing card gives None and no change; otherwise the patch is written to that card alone whatever it holds, and the patched card is returned when it meets the field constraints, or the validation error (raised at line 54) when it does not, with the write kept |
| FlashcardService.FlashcardCollection.UpdateFlashcardChecked | backend/app/models/flashcard.py:7-11 | as intended: a patch breaking the field constraints is refused before any write; otherwise as the update, returning the patched card; every card stays readable |
| FlashcardService.PatchedValidIff | backend/app/models/flashcard.py:7-20 | on a readable card, the patched card is readable exactly when the patch meets FlashcardBase's constraints (non-empty question and answer, difficulty absent or easy/medium/hard), which FlashcardUpdate does not check |
| FlashcardService.InvalidPatchUnreadable | backend/app/models/flashcard.py:16-20 | an empty question or the difficulty `extreme` passes FlashcardUpdate and makes a readable card unreadable |
| FlashcardService.InvalidUpdateBreaksReview | backend/app/services/flashcard_service.py:35-90 | as written: after an update with an empty question, the update answers with the validation error and every later review of that card does too |
| FlashcardService.FlashcardCollection.DeleteFlashcard | backend/app/services/flashcard_service.py:57-60 | the result is true exactly when the user had a card with that id; that card is then gone and every other card stays in order |
| StudySessionService.CountedMembership | backend/app/services/study_session_service.py:56-60 | a session is counted exactly when it is one of the documents, belongs to the user, is completed and started at or after the window's start |
| StudySessionService.TypesOf | backend/app/services/study_session_service.py:71-74 | one type per counted session |
| StudySessionService.SumOverPick | backend/app/services/study_session_service.py:71-74 | the sum of a map's values can take any key first |
| StudySessionService.SumOverSame | backend/app/services/study_session_service.py:71-74 | the sum over keys depends only on the values at those keys |
| StudySessionService.MapSumAddOne | backend/app/services/study_session_service.py:71-74 | counting one more session of a type raises the sum of the counts by one |
| StudySessionService.TypeCountsAreOccurrences | backend/app/services/study_session_service.py:71-74 | the keys of `sessions_by_type` are exactly the types that occur, each mapped to the number of its occurrences |
| StudySessionService.TypeCountsSum | backend/app/services/study_session_service.py:66-74 | the per-type counts add up to the number of sessions |
| StudySessionService.CountedStep | backend/app/services/study_session_service.py:66-74 | one more document joins the counted sessions exactly when it qualifies, and adds its minutes and one to its type |
| StudySessionService.SessionStats | backend/app/services/study_session_service.py:52-81 | the statistics are the number, the total minutes and the per-type counts of the user's completed sessions in the window, and the echoed period |
| StudySessionService.StatsConsistent | backend/app/services/study_session_service.py:62-81 | the per-type counts sum to the session count, their keys are the types that occurred with their occurrence counts, and no sessions give all-zero totals and an empty map |
| StudySessionService.FindSession | backend/app/services/study_session_service.py:42-44 | the query by id and user selects the first such session, or none exactly when there is none |
| StudySessionService.SessionCollection.constructor | backend/app/services/study_session_service.py:7-10 | the collection holds the given documents |
| StudySessionService.SessionCollection.CompleteSession | backend/app/services/study_session_service.py:40-50 | a missing session gives None and no change; otherwise only that session gets the end time and completed flag, and is returned |
| AuthContext.ValidNameIffNotBlank | src/context/AuthContext.jsx:38-40 | `login`'s check refuses exactly the missing names and those made only of white space |
| AuthContext.AuthProvider.constructor | src/context/AuthContext.jsx:6-8 | the provider starts with no user, loading, over the stored entry |
| AuthContext.AuthProvider.Load | src/context/AuthContext.jsx:11-22 | a stored user (or null) is restored, corrupt text is removed, an absent or empty entry is ignored, and loading ends in every case |
| AuthContext.AuthProvider.Persist | src/context/AuthContext.jsx:25-34 | once loading is over, a user is written to storage and no user removes the entry; during loading storage is untouched |
| AuthContext.AuthProvider.Login | src/context/AuthContext.jsx:37-42 | login fails with `Invalid username`, changing nothing, exactly for a missing or blank name; otherwise the user is the trimmed name at the login time |
| AuthContext.AuthProvider.Logout | src/context/AuthContext.jsx:45-47 | logout clears the user |
| AuthContext.ReloadAfterLogin | src/context/AuthContext.jsx:11-34 | after a login and save, a reloaded provider over the same storage restores the same user; after a logout it restores none |
| Signup.ContainsChar | src/pages/Signup.jsx:36 | a one-character `includes` is membership |
| Signup.ValidateFirstFailureWins | src/pages/Signup.jsx:26-39 | each message appears exactly when its check is the first to fail (blank name; blank e-mail; no `@` or no `.`), and there is none exactly when all pass |
| Signup.SignupForm.constructor | src/pages/Signup.jsx:8-13 | the form starts empty, without error, not submitting |
| Signup.SignupForm.ChangeName | src/pages/Signup.jsx:97 | typing a name sets it and clears the error shown |
| Signup.SignupForm.ChangeEmail | src/pages/Signup.jsx:111 | typing an e-mail sets it and clears the error shown |
| Signup.SignupForm.HandleSubmit | src/pages/Signup.jsx:22-56 | a failed check shows its message and nothing else happens; otherwise the error is cleared, the user signs in under the trimmed name, the page moves on and submitting ends |

## Left out

- **Transport and server setup.** The socket.io transport is not modelled: connection handshake, reconnection attempts, the recovery grace window, room subscription inside socket.io, and timeouts. Presence in `activeGroups` stands in for socket.io's room membership. The Express and HTTP setup, the health endpoint, `listen` and console logging are left out.
- **Catch blocks of the hub.** Payload fields are modelled as strings (`Inbound`). A truthy body that is not a string (a number, say) makes `slice(0, 500)` throw at server.js:110, and the catch sends `error` with `Failed to send message` (server.js:129-131); that path is not modelled. The `catch` blocks of `join_group` and `leave_group` are not modelled either.
- **The unmount cleanup of the chat view.** This is the `leave_group` emit and disconnect (GroupChat.jsx:147-154). The `isMounted` flag is taken to be true while the view is mounted.
- **Chat name persistence and panel toggle.** The username effects that copy the name to and from `localStorage` (GroupChat.jsx:21-34) are left out; the view takes its user name as a parameter. `toggleChat`, the chat panel's open/reconnect button, is left out too.
- **The clock, `randomUUID`, `Math.random` and `Date.now`** are parameters: `now`, `freshId`, the draws `choose`, and `millis`. One reading stands for all readings of a handler: `ChatHub.Hub.Disconnect` stamps every `user_left` notice with one `now`, while the source reads `new Date().toISOString()` once per room inside the loop (server.js:145).
- **The interval timers.** Each firing of `setInterval` is one call of `Tick` or `Countdown`; the one-second period is not modelled.
- **The audio alarm** of the classic timer is not modelled.
- **`calculateProgress`** is left out: floating-point percentage for display.
- **The stored high score.** QuizDuel's `parseInt` of the stored high score is taken to produce a natural (`saved`). Writing it back is the `stored` result of `SaveHighScore`.
- **The explanation texts** of the quiz questions are not modelled; they are only displayed.
- **QuizDuel.Quiz.HandleSelect** requires the option to be one of the current question's options, the only values the option buttons pass.
- **DeckFlashcards.InitialDeck** lists eight of the page's 52 built-in cards (the first six and the last two). No property depends on the cards' text, and `Deck` takes its initial deck as a constructor argument.
- **API and database calls.** Their replies and failures are parameters (`reply`, `ok`, `apiOk`, `created`). A request a handler sends is returned as a value. The `refetch` result stands for the follow-up `fetchFlashcards`/`fetchNotes` call.
- **The create form of the study flashcards page** (`handleSubmit`, frontend/src/pages/Flashcards.jsx:30-40) is not modelled, because it is not part of study mode.
- **The other service operations.** `create_flashcard`, `get_user_flashcards`, `get_due_for_review`, `create_session`, `get_user_sessions` and `get_session_by_id` are plain database queries and inserts, and are not modelled.
- **Backend dates.** Times are integers, and `timedelta(days=days)` is `days * 86400` seconds. `review_flashcard` calls `datetime.utcnow()` twice, for `last_reviewed` and `updated_at` (backend/app/services/flashcard_service.py:79, 81); the model gives both the same `now`.
- **JSON in storage.** `JSON.parse` and `JSON.stringify` of the stored user are abstracted to the `Content` datatype. A stored value that parses to something other than a user or null (say, a number) is not modelled.
- **Asynchronous handlers as atomic steps.** `review_flashcard` reads the card (backend/app/services/flashcard_service.py:64) and writes it in a second call (:75-86); each is modelled as one step, so two concurrent reviews that both raise the same mastery by one while `$inc` adds two to `times_reviewed` are not captured. Likewise these awaits are each taken as one step: `completeSession`'s (frontend/src/pages/Pomodoro.jsx:65-69), `startSession`'s (frontend/src/pages/Pomodoro.jsx:38), and `handleReview`'s, after which it reads the `flashcards` of the render that started it (frontend/src/pages/Flashcards.jsx:54-55; `StudyFlashcards.StudyView.HandleReview`).
- **The Signup `catch` branch** ("An error occurred during signup") is not modelled, because `login` cannot throw after the name has passed the form's own check. `HandleSubmit` proves this. The 500 ms delay before `login` and the redirect effect for a signed-in user are left out.
- **Case and Unicode.** `toLowerCase` is modelled for the ASCII letters only; other characters are kept as they are. Strings are sequences of Unicode scalar values, not of UTF-16 code units, so text that JavaScript counts in surrogate pairs is left out: its JS length, and `slice(0, 500)` (server.js:110) or `maxLength={500}` (src/Component/GroupChat.jsx:303) cutting a pair in half.

## Findings

| source | as written | input that shows it | evidently intended | confidence | as-written member | corrected member |
|---|---|---|---|---|---|---|
| server.js:96-133 | The client passes an acknowledgement callback to `group_message` (src/Component/GroupChat.jsx:203-214), but the handler takes only `data` and never calls it. `isSending`, set by the send, is reset only inside that callback, and the message input and the Send button are disabled while it is set (GroupChat.jsx:302, 309). | one accepted send of any non-blank text from a connected view | the hub answers the callback with the stored message's id, or with the error, so the view leaves the sending state | not executed | ChatClient.LockedAfterSend | ChatClient.UnlockedAfterAck |
| backend/app/models/flashcard.py:16-20 | `FlashcardUpdate` declares its fields as plain optional strings, without the `min_length=1` bounds and the easy, medium or hard pattern of `FlashcardBase` (lines 7-11); `update_flashcard` writes the patch with `$set` (backend/app/services/flashcard_service.py:47-51) and only then builds a `FlashcardInDB` from the result (line 54), which raises | an update of an existing card with `question` set to `""`, or `difficulty` set to `extreme` | the update is validated like a created card and refused before anything is written, so stored cards stay readable | not executed | FlashcardService.InvalidUpdateBreaksReview | FlashcardService.FlashcardCollection.UpdateFlashcardChecked |
