# GIF Battle game session, modelled in Dafny

GIF Battle is a party game played over socket.io. One participant, the game
master (GM), writes a prompt each round. Every other participant answers with
a GIF, votes for someone else's GIF, and may comment on the results. Points
add up over a fixed number of rounds (1 to 50, 10 by default), and at the end
the server announces the leaderboard, the winner or the tie, and the history
of the rounds. Eight seconds later the server resets itself to an empty lobby.

The server keeps the whole session in one object, `gameState`. Socket events
and timer callbacks change it one at a time. This project models that object
and its handlers (`server.js`, lines 22-571) at two levels:

- **Values.** The modules `Collections`, `Entities`, `Ballots`, `Scoring`,
  `History`, `Sorting` and `Session` describe the session as a value (`Session.State`).
  Each handler and timer callback is a transition function returning the next
  state and what the clients are told (`Session.Step`). The session invariant
  `Session.Inv` holds in the initial state and every transition keeps it.
  `Rules` states what each handler does, in the game's own terms.
- **The server object.** `Server.GameServer` is a class with the fields of
  `gameState`. Its methods are the handlers and routines of `server.js`; they
  mutate the fields in place and run the `forEach` loops as `while` loops.
  Each method is proved to leave the object in exactly the state the
  corresponding transition function gives, and to keep the invariant.

Plain JavaScript objects keyed by socket id (`players`, `gifs`, `votes`,
`comments`) are `Collections.Dict`: a sequence of keys in insertion order plus
a map. Their key order decides the order of result lists and history entries.
The one timer slot `gameState.timer` is `timer: Option<TimerKind>`. The 8 s
reset timers armed by `endGame` are never cancelled, so the model counts them
in `pendingResets`. A `TimerFired` or `ResetTimerFired` event stands for one
of them going off.

Points of the code that the model keeps as they are:

- The quorum of every phase counts the registered ids other than
  `gameMaster` (`server.js:392`, `425`, `461`, `516`). A GM who re-sent
  `player:join` loses the `isGM` flag but keeps `gameMaster`, so they still
  count as the GM; on leaving they are removed as a regular player while
  `gameMaster` still names them.
- The 45 s timeout on the last round's results calls `endGame` without
  recording that round, so the history stops one round short
  (`Rules.TimeoutRule`).
- The vote counts in a history record are recounted from `votes` when the
  record is built. A voter who leaves between the results and the record is
  filtered out of the lists, so the recorded count can be lower than the one
  shown with the results.
- The quorum is not re-checked when a regular player leaves: the phase and its
  timer stay as they were (`Rules.DisconnectRule`).

## Model

| member | source | states |
|---|---|---|
| Collections.Without | server.js:445 | `filter(v => v !== x)` keeps exactly the elements different from `x` |
| Collections.WithoutCounts | server.js:445 | the filter removes every occurrence of `x`, keeps each other element's count, and shortens the list by the number of removed copies |
| Collections.WithoutAppend | server.js:445 | the filter works in place: filtering a concatenation is the concatenation of the filtered parts, so the kept elements keep their relative order |
| Collections.WithoutAbsent | server.js:445 | filtering out an element that is not in the list returns the list unchanged |
| Collections.Dict.Put | server.js:319-325 | assigning a key of a JS object: a new key goes at the end of the key order, an existing key keeps its place; the value is replaced |
| Collections.Dict.Remove | server.js:559-562 | `delete obj[k]`: the key leaves the key order and the map, the object stays well formed, and its size drops by one exactly when the key was there |
| Collections.RemoveKeepsOrder | server.js:559-562 | deleting key `k` from an object whose keys are `a`, `k`, `b` leaves the keys `a` followed by `b`: the remaining keys keep their registration order |
| Sorting.SortDesc | server.js:256 | `sort((a, b) => b.votes - a.votes)` returns a permutation of its input with keys in descending order |
| Sorting.InsertDesc | server.js:256 | one insertion step of the sort keeps the list sorted and adds exactly the inserted element |
| Sorting.SortDescStable | server.js:273-276 | the sort is stable: the elements sharing a key keep their original relative order |
| Sorting.WithKeyMembers | server.js:276 | `filter(p => p.points === topScore)` keeps exactly the elements with that key |
| Sorting.FirstIsLargest | server.js:275 | the first element of a list sorted by descending key has the largest key |
| Scoring.PlayersList | server.js:38-46 | `getPlayersList()` lists every registered player once, in registration order |
| Scoring.Leaderboard | server.js:166 | the leaderboard is the players list re-ordered by descending points |
| Scoring.Credited | server.js:121-134 | crediting keeps the registered ids and their order |
| Scoring.CreditedPoints | server.js:121-134 | each registered player gains exactly the number of voters in the list under their id (0 when there is none); nothing else about a player changes |
| Scoring.VotedEntriesShape | server.js:121-134 | the first pass lists every registered vote target once, with its name, GIF and voter count |
| Scoring.UnvotedEntriesShape | server.js:137-148 | the second pass lists once, with 0 votes, every registered submitter who has no list in the vote map |
| Scoring.RoundResultsContents | server.js:119-148 | the results name every registered player who submitted a GIF or is a vote target, each once, with their name, their GIF if any and the size of their voter list, and nobody else |
| Scoring.MaxPoints | server.js:275 | the highest score among the players is at least every player's score and is reached by one of them |
| Scoring.LeaderboardTop | server.js:273-275 | `leaderboard[0].points` is the highest score |
| Scoring.WinnerRule | server.js:275-277 | no winner exactly when the highest score is 0; otherwise a single top scorer is the winner and several top scorers, in registration order, are the tie |
| Ballots.WithoutVoter | server.js:443-447 | after withdrawing a voter, no list holds them and every target keeps its key and its place in the key order |
| Ballots.WithoutVoterLists | server.js:443-447 | withdrawing a voter leaves every other voter in each list as many times as before, so nobody else's ballot moves |
| Ballots.AddVote | server.js:449-452 | `votes[t] ||= []; votes[t].push(voter)` makes the target's list its old list (or none) followed by the voter, puts a new target last in the key order, and leaves other lists alone |
| Ballots.WithoutVoterCounts | server.js:443-447 | withdrawing a voter removes all their entries and keeps everybody else's; the total drops by their entries |
| Ballots.WithoutVoterTally | server.js:443-447 | withdrawing a voter takes from each GIF's tally exactly the entries that voter had in its list |
| Ballots.AddVoteCounts | server.js:449-452 | the push adds exactly one entry, for the voter, to the total |
| Ballots.RecastSingleBallot | server.js:441-452 | after `vote:cast` the voter is in the target's list and appears exactly once in the whole map; every other voter stays in each list as many times as before; the keys are the old ones, with the target added last when it had no list |
| Ballots.RecastBallots | server.js:441-452 | the same facts for every other voter at once: nobody else's entry moves to another list or changes count, and the key order is kept |
| Ballots.RecastTotal | server.js:462 | `Object.values(votes).flat().length` grows by one on a first vote and is unchanged on a changed vote |
| History.CommentsBy | server.js:231-250 | one commenter contributes at most two comments to a GIF |
| History.CommentsOnContents | server.js:231-250 | a GIF's comments are exactly the non-empty vote comments of those who named it as their vote and the non-empty own comments of those who named it as their own, under the commenter's name or `Anonymous` |
| History.GifEntriesShape | server.js:219-253 | before sorting, the entries follow the order of the submitted GIFs, one per GIF, each with its owner, URLs, `votes[id]?.length \|\| 0` and comments |
| History.PermutedEntries | server.js:256 | re-ordering the entries keeps every entry correct and every GIF present exactly once |
| History.RoundRecordContents | server.js:208-257 | a round record holds the round number and prompt and every submitted GIF once, each with its vote count and comments, sorted by descending votes |
| History.NoCommentsRecorded | server.js:481-493 | a round skipped by `round:next` is recorded with no comments on any GIF |
| Session.CountOthersFormula | server.js:392 | the quorum is the number of registered ids, less one when the `gameMaster` id is registered |
| Session.ClampRounds | server.js:399-401 | a requested round count is clamped to 1..50, a non-number or 0 gives 10, and an absent or falsy field keeps the current count |
| Session.MakeGif | server.js:420-423 | the stored preview URL falls back to the GIF URL when it is empty |
| Session.ResetState | server.js:292-306 | `resetGame` leaves an empty lobby with no GM, no timer, no history and 10 rounds |
| Session.InitialInv | server.js:22-35 | the session the server starts with satisfies the invariant |
| Session.ResetInv | server.js:292-306 | the reset session satisfies the invariant |
| Session.EndRoundInv | server.js:115-171 | `endRound`, from submitting or voting, leads to the results phase and keeps the invariant, with the 45 s timer armed exactly on the last round |
| Session.AdvanceInv | server.js:259-267 | closing a round keeps the invariant. After the last round it is exactly `endGame`: phase ended, timer cleared, one more reset pending, and the leaderboard, its `WinnerOf` winner and the history announced. Otherwise the round number goes up by one and the prompt phase opens, with nothing else changed |
| Session.JoinInv | server.js:318-343 | `player:join` keeps the invariant: at most one player carries the GM flag, and it is the one `gameMaster` names |
| Session.StartGameInv | server.js:390-407 | `game:start` keeps the invariant |
| Session.SubmitPromptInv | server.js:410-415 | `prompt:submit` keeps the invariant |
| Session.SubmitGifInv | server.js:418-437 | `gif:submit` keeps the invariant |
| Session.CastVoteInv | server.js:440-468 | `vote:cast` keeps the invariant, in particular one entry per voter and none by the GM |
| Session.StartCommentingInv | server.js:471-475 | `start:commenting` keeps the invariant |
| Session.NextRoundInv | server.js:478-504 | `round:next` keeps the invariant, in particular one history record per closed round |
| Session.SaveRoundInv | server.js:208-268 | `saveRoundAndAdvance` from the commenting phase keeps the invariant |
| Session.SubmitCommentInv | server.js:507-529 | `comment:submit` keeps the invariant |
| Session.PurgeInv | server.js:557-568 | a regular player leaving keeps the invariant |
| Session.DisconnectInv | server.js:532-571 | `disconnect` keeps the invariant |
| Session.TimeoutInv | server.js:59-206 | the stored timer's callback keeps the invariant, whichever of the four deadlines it is |
| Session.ResetTimeoutInv | server.js:286-289 | the 8 s reset callback keeps the invariant |
| Session.HandleInv | server.js:309-571 | every socket event and timer callback keeps the invariant |
| Session.RunInv | server.js:309-571 | every state reachable from a valid state by any sequence of events satisfies the invariant |
| Rules.AtMostOneGameMaster | server.js:327-333 | any two players flagged as game master are the same player, the one `gameMaster` names |
| Rules.JoinRule | server.js:318-338 | `player:join` registers the sender with 0 points (in place when known, last otherwise); the sender becomes GM exactly when asking while there is none, and is told so; nothing else changes |
| Rules.StartGameRule | server.js:390-407 | the game starts exactly when the GM asks in the lobby with at least two other registered players; it then opens round 1 with the clamped round count. With fewer players the GM gets the error and nothing changes; any other request is ignored |
| Rules.SubmitGifRule | server.js:418-437 | outside submission or from the GM nothing changes; otherwise the sender's GIF is stored or replaced (a new sender last in the key order), registered or not; voting, with the 60 s timer, starts exactly when the number of GIFs equals the quorum; nothing else in the session changes |
| Rules.SubmitPromptRule | server.js:410-415 | `prompt:submit` from the GM in the prompt phase sets the prompt, empties GIFs and ballots, enters submission and arms the 60 s timer, changing nothing else; from anyone else or in any other phase nothing changes |
| Rules.CastVoteRule | server.js:440-468 | outside voting, for oneself or from the GM nothing changes; otherwise the sender ends up exactly once in the map, in the target's list (the target may be any id that is not an inherited object property, see "Left out"), every other voter stays in each list as many times as before, and the round ends exactly when the ballots reach the quorum: then the round ends as `endRound` does: the phase becomes results, the players are credited with the new ballots, the 45 s timer is armed exactly on the last round (no timer otherwise), and the broadcast carries the results of the new ballots, the leaderboard of the credited players, `isLastRound` and `hasGifs`; otherwise only the vote map changes |
| Rules.ResultsMatchScores | server.js:115-171 | every player in the results gains exactly the votes the results show for them, and `isLastRound` is true exactly when the 45 s timer is armed |
| Rules.VoterTargetsSound | server.js:189-194 | a voter named in exactly one list is mapped to that list's GIF |
| Rules.VoterTargetsComplete | server.js:189-194 | every voter in `playerVotes` stands in the list of the GIF it is mapped to |
| Rules.PlayerVotesRule | server.js:173-206 | from anyone but the GM or outside results nothing changes; otherwise `start:commenting` clears the comments, arms the 90 s timer, changes nothing else, and tells every voter in the map the GIF they voted for, and nobody else anything |
| Rules.NextRoundRule | server.js:478-504 | from anyone but the GM or outside results nothing changes; otherwise `round:next` appends exactly one record, numbered with the current round, holding every GIF without comments; then the game ends (phase, timer, pending reset; leaderboard, `WinnerOf` winner and history announced) after the last round, otherwise round + 1 opens with its prompt phase and nothing else changes |
| Rules.SubmitCommentRule | server.js:507-529 | outside commenting or from the GM nothing changes; otherwise the sender's comments are stored, and once the comment count equals the quorum the round is recorded with them, the timer is cleared, and the game ends after the last round (announcing the leaderboard, its `WinnerOf` winner and the history with this round) or round + 1 opens in the prompt phase |
| Rules.DisconnectRule | server.js:532-571 | an unknown id changes nothing; a player flagged GM resets the session, announcing the end (leaderboard, `WinnerOf` winner, history, reason) unless in the lobby or already ended; anyone else loses their player, GIF and comments (the remaining players, GIFs and comments keep their key order) and their ballot, every other voter stays in each list as many times as before, each tally drops by the leaver's entries, and everything else, including the vote lists under their id, the phase, the timer and the round, stays, with no quorum re-check |
| Rules.TimeoutRule | server.js:59-206 | each deadline fires only in the phase that armed it and never twice, and each gives the whole next state and notice. Submission closes into voting with the 60 s vote timer, or, when no GIF came, into `endRound`'s results (players credited, `RoundResults` announced, 45 s timer on the last round). Voting closes into the same results. The 45 s timer ends the game with the last round unrecorded, announcing the leaderboard, its `WinnerOf` winner and the history, and arms one more reset. The comment deadline records the round with its comments, then ends the game the same way after the last round or opens round + 1 in the prompt phase |
| Rules.ResetTimeoutRule | server.js:285-306 | a pending reset timer empties the session whatever phase it is in by then |
| Server.CreditFoldDone | server.js:121-124 | crediting the vote lists one key after the other gives every registered player the votes under their id |
| Server.GameServer.constructor | server.js:22-35 | the server starts as an empty lobby satisfying the invariant |
| Server.GameServer.NonGMPlayers | server.js:392 | the counting loop returns the quorum |
| Server.GameServer.BallotCount | server.js:462 | the counting loop returns the total number of ballots |
| Server.GameServer.PurgeVoter | server.js:443-447 | the loop over the vote map filters the voter out of every list and keeps every key |
| Server.GameServer.StartSubmittingPhase | server.js:59-75 | clears GIFs and votes, enters submission and arms the 60 s timer |
| Server.CreditBallots | server.js:121-134 | the first loop of `endRound`, on values: the players come out credited with exactly the votes under their id, the first-pass result list is `Scoring.VotedEntries`, and an id is listed exactly when it holds a ballot list and is registered |
| Server.GameServer.CreditVotes | server.js:121-134 | the first loop of `endRound` credits every registered vote target and produces the first-pass result list |
| Server.GameServer.TallyResults | server.js:121-148 | both passes together credit the players and give exactly the round result list of the transition function |
| Server.GameServer.ShowResults | server.js:150-170 | the results phase is entered, the 45 s timer is armed exactly on the last round, and the results broadcast carries the results and leaderboard it is given |
| Server.GameServer.UnvotedResults | server.js:137-148 | the second loop adds, with 0 votes, every registered submitter not listed yet |
| Server.GameServer.EndRound | server.js:115-171 | `endRound` produces exactly the state and results of the transition function |
| Server.GameServer.StartVotingPhase | server.js:77-113 | voting starts when there are GIFs; otherwise the round ends at once |
| Server.GameServer.RemovePlayer | server.js:559-567 | deletes the player, their GIF and comments, and filters them out of every vote list |
| Server.GameServer.EndGame | server.js:270-290 | `endGame` ends the session, announces leaderboard, winner and history, and arms one more reset timer |
| Server.GameServer.ResetGame | server.js:292-306 | `resetGame` empties the session; pending reset timers stay pending |
| Server.GameServer.StartCommentingPhase | server.js:173-206 | enters commenting with no comments and the 90 s timer, telling each voter their vote |
| Server.GameServer.PlayerVotes | server.js:189-194 | the nested loops build the voter-to-GIF map, later lists overriding earlier ones |
| Server.GameServer.CommentsFor | server.js:231-250 | the loop over the comments collects the comments on one GIF in comment order |
| Server.GameServer.RoundEntries | server.js:219-253 | the loop over the GIFs builds one history entry per GIF in submission order |
| Server.GameServer.Advance | server.js:259-267 | ends the game after the last round, otherwise opens the next round's prompt phase |
| Server.GameServer.SaveRoundAndAdvance | server.js:208-268 | records the round with its comments, sorted by votes, then advances |
| Server.GameServer.Join | server.js:318-343 | the handler's effect is the transition's, and the invariant is kept |
| Server.GameServer.StartGame | server.js:390-407 | the handler's effect is the transition's, and the invariant is kept |
| Server.GameServer.SubmitPrompt | server.js:410-415 | the handler's effect is the transition's, and the invariant is kept |
| Server.GameServer.SubmitGif | server.js:418-437 | the handler's effect is the transition's, and the invariant is kept |
| Server.GameServer.CastVote | server.js:440-468 | the handler's effect is the transition's, and the invariant is kept |
| Server.GameServer.StartCommenting | server.js:471-475 | the handler's effect is the transition's, and the invariant is kept |
| Server.GameServer.NextRound | server.js:478-504 | the handler's effect is the transition's (the stored timer is left as it is), and the invariant is kept |
| Server.GameServer.SubmitComment | server.js:507-529 | the handler's effect is the transition's, and the invariant is kept |
| Server.GameServer.Disconnect | server.js:532-571 | the handler's effect is the transition's, and the invariant is kept |
| Server.GameServer.TimerFires | server.js:59-206 | the stored timer's callback has the effect of the transition, and the invariant is kept |
| Server.GameServer.ResetTimerFires | server.js:286-289 | the reset callback has the effect of the transition, and the invariant is kept |

## Left out

- Express, the static file server and socket.io itself (`server.js:1-19`, `574-577`) are not modelled. The client code under `public/` is not part of this model.
- Broadcasts are modelled only where they carry game results. These are the `player:joined` flag, the start error, `phase:results`, `phase:commenting`'s `playerVotes` and `game:ended`. The others are left out: `game:state`, `players:update`, `gm:status`, `phase:submitting`, `phase:voting`, `votes:update`, `gifs:submitted`, `comments:submitted` and `game:reset`.
- The `gm:check` handler (`server.js:313-315`) only reads the state, so it is left out.
- The late-joiner catch-up in `player:join` (`server.js:344-386`) only sends messages to the new socket, so it is left out.
- The GIF shuffles (`server.js:96-99`, `356-359`) need randomness and only order a broadcast, so they are left out.
- Real time is left out. `Date.now()` and `timerEndTime` are not modelled. A deadline is a `TimerKind` in the timer slot; its delay (60 s, 60 s, 45 s, 90 s, and 8 s for the reset) appears only in comments. When a timer fires is an input (a `TimerFired` or `ResetTimerFired` event).
- `parseInt` is left out. The round request arrives already classified as absent or falsy, not a number, or the integer it parses to (`Session.RoundsRequest`).
- JavaScript truthiness is reduced to booleans and empty strings. `data.isGM` is a `bool`. A missing or empty comment is `""`. A missing GIF id in a comment is `None`.
- JavaScript puts integer-like property names (such as `"7"`) before all other keys. The model keeps every key in insertion order. Socket ids are never integer-like, but a vote target may be any string; the key order is the only difference the model leaves for such targets.
- Rules.CastVoteRule, Ballots.AddVote, Session.CastVote: a vote target naming a property that every plain object inherits (`constructor`, `__proto__`, `toString`, `valueOf`, `hasOwnProperty`, `isPrototypeOf`, `propertyIsEnumerable`, `toLocaleString`, `__defineGetter__`, `__defineSetter__`, `__lookupGetter__`, `__lookupSetter__`) is not modelled as the code runs it. For such a target `gameState.votes[data.gifId]` is the inherited value, which is truthy, so no list is created (`server.js:448-450`). The `.push` at `server.js:451` then throws a `TypeError`. This happens after the sender's earlier ballot was withdrawn (`server.js:442-446`), so the quorum check (`server.js:461-466`) never runs. What the exception does to the server process is decided by socket.io and Node, outside this model. The model treats such a target like any other id: it records the ballot under that key and may end the round.
- Player records are copied as values. The JS credits points on the shared player objects in place; the model credits a copy and stores it back, which has the same effect because nothing else holds those objects.
