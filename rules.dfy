/**
 * What the handlers promise, stated on the transition functions of the
 * session: the start guard and round clamp, submissions, one ballot per
 * voter, the results and the scores, closing a round, departures and the
 * timers.
 */
module Rules {
  import opened Collections
  import opened Entities
  import opened Ballots
  import opened Scoring
  import opened History
  import opened Session

  /** Only the player `gameMaster` names can carry the game-master flag, so at most one player does. */
  lemma AtMostOneGameMaster(s: State, p: Id, q: Id)
    requires Inv(s)
    requires p in s.players.vals && s.players.vals[p].isGM
    requires q in s.players.vals && s.players.vals[q].isGM
    ensures p == q && s.gameMaster == Some(p)
  {
  }

  /**
   * `player:join` (re-)registers the sender with 0 points, in place when the
   * id is known and at the end otherwise; the sender becomes game master
   * only when asking for it while there is none.
   */
  lemma JoinRule(s: State, sender: Id, name: string, emoji: string, wantsGM: bool)
    requires Inv(s)
    ensures var st := Join(s, sender, name, emoji, wantsGM);
      var becomesGM := wantsGM && s.gameMaster == None;
      && st.next.players.vals == s.players.vals[sender := Player(sender, name, emoji, 0, becomesGM)]
      && (sender in s.players.vals ==> st.next.players.keys == s.players.keys)
      && (sender !in s.players.vals ==> st.next.players.keys == s.players.keys + [sender])
      && st.next.gameMaster == (if becomesGM then Some(sender) else s.gameMaster)
      && st.notice == Joined(becomesGM)
      && st.next.(players := s.players, gameMaster := s.gameMaster) == s
  {
  }

  /**
   * `game:start` succeeds only for the game master in the lobby with at
   * least two registered players besides the game master; it then opens
   * round 1 with the clamped round count. A short lobby gets the error and
   * nothing changes; anyone else is ignored.
   */
  lemma StartGameRule(s: State, sender: Id, req: RoundsRequest)
    requires Inv(s)
    ensures var st := StartGame(s, sender, req);
      var others := |s.players.keys| - (if s.gameMaster.Some? && s.gameMaster.value in s.players.vals then 1 else 0);
      var asked := s.gameMaster == Some(sender) && s.phase == Waiting;
      && (asked && others >= 2 <==> s.phase == Waiting && st.next.phase == Prompt)
      && (asked && others >= 2 ==>
            && st.next == s.(phase := Prompt, currentRound := 1, maxRounds := ClampRounds(req, s.maxRounds))
            && st.notice == Silent)
      && (asked && others < 2 ==> st.next == s && st.notice == Refused(NotEnoughPlayersMessage))
      && (!asked ==> st.next == s && st.notice == Silent)
      && MinRounds <= st.next.maxRounds <= MaxRoundsLimit
  {
    CountOthersFormula(s.players.keys, s.gameMaster);
  }

  /**
   * `gif:submit` from anyone but the game master during submission stores
   * (or replaces) the sender's GIF, registered or not; voting starts as soon
   * as the number of GIFs equals the number of registered non-GM ids.
   */
  lemma SubmitGifRule(s: State, sender: Id, url: string, previewUrl: string)
    requires Inv(s)
    ensures var st := SubmitGif(s, sender, url, previewUrl);
      var accepted := s.phase == Submitting && s.gameMaster != Some(sender);
      && (!accepted ==> st.next == s && st.notice == Silent)
      && (accepted ==>
            && st.next.gifs.vals == s.gifs.vals[sender := MakeGif(url, previewUrl)]
            && (sender in s.gifs.vals ==> st.next.gifs.keys == s.gifs.keys)
            && (sender !in s.gifs.vals ==> st.next.gifs.keys == s.gifs.keys + [sender])
            && (st.next.phase == Voting <==> |st.next.gifs.keys| == NonGMCount(s))
            && (st.next.phase == Voting ==>
                  st.next == s.(gifs := st.next.gifs, phase := Voting, timer := Some(VoteDeadline)))
            && (st.next.phase != Voting ==>
                  st.next == s.(gifs := st.next.gifs) && st.next.timer == Some(SubmitDeadline))
            && st.notice == Silent)
  {
  }

  /**
   * `prompt:submit` from the game master in the prompt phase sets the prompt,
   * empties the GIFs and the ballots and opens the 60 s submission phase;
   * anyone else, or any other phase, changes nothing.
   */
  lemma SubmitPromptRule(s: State, sender: Id, prompt: string)
    requires Inv(s)
    ensures var st := SubmitPrompt(s, sender, prompt);
      var asked := s.gameMaster == Some(sender) && s.phase == Prompt;
      && (!asked ==> st.next == s && st.notice == Silent)
      && (asked ==>
            && st.next == s.(currentPrompt := prompt, phase := Submitting, gifs := EmptyDict(),
                             votes := EmptyDict(), timer := Some(SubmitDeadline))
            && |st.next.gifs.keys| == 0 && TotalVotes(st.next.votes) == 0
            && st.notice == Silent)
  {
  }

  /**
   * One vote per voter: an accepted `vote:cast` (during voting, not for
   * oneself, not by the game master; the target may be any id) leaves the
   * sender exactly once in the whole vote map, in the target's list, without
   * touching anyone else's ballot; the round ends exactly when the number of
   * ballots reaches the number of registered non-GM ids, and then it ends as
   * at the vote deadline: players credited, results and leaderboard shown,
   * and the 45 s timer armed exactly on the last round.
   */
  lemma CastVoteRule(s: State, sender: Id, target: Id)
    requires Inv(s)
    ensures var st := CastVote(s, sender, target);
      var accepted := s.phase == Voting && target != sender && s.gameMaster != Some(sender);
      && (!accepted ==> st.next == s && st.notice == Silent)
      && (accepted ==>
            && target in st.next.votes.vals && sender in st.next.votes.vals[target]
            && Occurrences(st.next.votes, sender) == 1
            && (forall x :: x != sender ==> Occurrences(st.next.votes, x) == Occurrences(s.votes, x))
            && (forall t, x :: x != sender ==>
                  multiset(VotersOf(st.next.votes, t))[x] == multiset(VotersOf(s.votes, t))[x])
            && st.next.votes.keys == (if target in s.votes.vals then s.votes.keys else s.votes.keys + [target])
            && TotalVotes(st.next.votes) == TotalVotes(s.votes) + 1 - Occurrences(s.votes, sender)
            && (st.next.phase == Results <==> TotalVotes(st.next.votes) == NonGMCount(s))
            && (st.next.phase != Results ==> st.next == s.(votes := st.next.votes) && st.notice == Silent)
            && (st.next.phase == Results ==>
                  var r := st.next.votes;
                  var credited := Credited(s.players, r);
                  && st.next == s.(votes := r, phase := Results, players := credited,
                                   timer := if s.currentRound >= s.maxRounds then Some(FinalResultsDeadline) else None)
                  && st.notice == ResultsShown(RoundResults(s.players, s.gifs, r), Leaderboard(credited),
                                               s.currentRound >= s.maxRounds, |s.gifs.keys| > 0)))
  {
    if s.phase == Voting && target != sender && s.gameMaster != Some(sender) {
      var r := Recast(s.votes, sender, target);
      var s1 := s.(votes := r);
      var st := CastVote(s, sender, target);
      RecastBallots(s.votes, sender, target);
      RecastTotal(s.votes, sender, target);
      assert NonGMCount(s1) == NonGMCount(s);
      if TotalVotes(r) == NonGMCount(s) {
        assert st == EndRound(s1);
      } else {
        assert st == Step(s1, Silent);
      }
    }
  }

  /**
   * The results agree with the scores: every player listed in the results
   * gains exactly the votes the results show for them.
   */
  lemma ResultsMatchScores(s: State)
    requires s.players.Wf() && s.gifs.Wf() && s.votes.Wf()
    ensures var st := EndRound(s);
      && st.notice.ResultsShown?
      && (st.notice.isLastRound <==> st.next.timer == Some(FinalResultsDeadline))
      && (forall e :: e in st.notice.results ==>
            && e.playerId in s.players.vals && e.playerId in st.next.players.vals
            && st.next.players.vals[e.playerId].points == s.players.vals[e.playerId].points + e.votes)
  {
    var st := EndRound(s);
    var results := RoundResults(s.players, s.gifs, s.votes);
    RoundResultsContents(s.players, s.gifs, s.votes);
    forall e | e in results
      ensures e.playerId in st.next.players.vals
      ensures st.next.players.vals[e.playerId].points == s.players.vals[e.playerId].points + e.votes
    {
      var i :| 0 <= i < |results| && results[i] == e;
      CreditedPoints(s.players, s.votes, e.playerId);
    }
  }

  /** A list stored under a listed key contributes its measure to the sum. */
  lemma {:induction false} SumInAtLeast(keys: seq<Id>, vals: map<Id, seq<Id>>, m: Measure, t: Id)
    requires t in keys && t in vals
    ensures SumIn(keys, vals, m) >= m.Of(vals[t])
  {
    var init := keys[..|keys| - 1];
    if keys[|keys| - 1] != t {
      assert keys == init + [keys[|keys| - 1]];
      SumInAtLeast(init, vals, m, t);
    }
  }

  /** A voter named once in the map is mapped to the GIF whose list names them. */
  lemma {:induction false} VoterTargetsSound(keys: seq<Id>, vals: map<Id, seq<Id>>, v: Id, t: Id)
    requires Distinct(keys) && t in keys && t in vals && v in vals[t]
    requires SumIn(keys, vals, CountOf(v)) <= 1
    ensures v in VoterTargets(keys, vals) && VoterTargets(keys, vals)[v] == t
  {
    var init := keys[..|keys| - 1];
    var k := keys[|keys| - 1];
    assert keys == init + [k];
    if k != t {
      assert t in init;
      SumInAtLeast(init, vals, CountOf(v), t);
      assert CountOf(v).Of(vals[t]) >= 1;
      assert k in vals ==> v !in vals[k];
      VoterTargetsSound(init, vals, v, t);
    }
  }

  /** Every voter in the map stands in the list of the GIF it is mapped to. */
  lemma {:induction false} VoterTargetsComplete(keys: seq<Id>, vals: map<Id, seq<Id>>, v: Id)
    requires v in VoterTargets(keys, vals)
    ensures VoterTargets(keys, vals)[v] in keys
    ensures VoterTargets(keys, vals)[v] in vals && v in vals[VoterTargets(keys, vals)[v]]
  {
    var init := keys[..|keys| - 1];
    var k := keys[|keys| - 1];
    if !(k in vals && v in vals[k]) {
      VoterTargetsComplete(init, vals, v);
    }
  }

  /**
   * `start:commenting` tells every voter the GIF they voted for: with one
   * ballot per voter, `playerVotes` maps each voter in the vote map to the
   * GIF whose list names them, and names nobody else.
   */
  lemma PlayerVotesRule(s: State, sender: Id)
    requires Inv(s)
    ensures var st := StartCommenting(s, sender);
      var asked := s.gameMaster == Some(sender) && s.phase == Results;
      && (!asked ==> st.next == s && st.notice == Silent)
      && (asked ==>
            && st.notice.CommentingStarted?
            && st.next == s.(phase := Commenting, comments := EmptyDict(), timer := Some(CommentDeadline))
            && (forall v, t :: t in s.votes.vals && v in s.votes.vals[t] ==>
                  v in st.notice.playerVotes && st.notice.playerVotes[v] == t)
            && (forall v :: v in st.notice.playerVotes ==>
                  st.notice.playerVotes[v] in s.votes.vals && v in s.votes.vals[st.notice.playerVotes[v]]))
  {
    var pv := VoterTargets(s.votes.keys, s.votes.vals);
    forall v, t | t in s.votes.vals && v in s.votes.vals[t] ensures v in pv && pv[v] == t {
      assert Occurrences(s.votes, v) <= 1;
      VoterTargetsSound(s.votes.keys, s.votes.vals, v, t);
    }
    forall v | v in pv ensures pv[v] in s.votes.vals && v in s.votes.vals[pv[v]] {
      VoterTargetsComplete(s.votes.keys, s.votes.vals, v);
    }
  }

  /**
   * `round:next` appends exactly one record, for the current round, holding
   * every GIF without comments; then the game ends after the last round and
   * the next round's prompt phase opens otherwise.
   */
  lemma NextRoundRule(s: State, sender: Id)
    requires Inv(s)
    ensures var st := NextRound(s, sender);
      var asked := s.gameMaster == Some(sender) && s.phase == Results;
      var rec := RoundRecordOf(s.currentRound, s.currentPrompt, s.players, s.gifs, s.votes, EmptyDict());
      && (!asked ==> st.next == s && st.notice == Silent)
      && (asked ==>
            && st.next.history == s.history + [rec]
            && rec.round == s.currentRound == |s.history| + 1
            && |rec.gifs| == |s.gifs.keys|
            && (forall e :: e in rec.gifs ==> e.comments == [])
            && (s.currentRound >= s.maxRounds ==>
                  && st.next == s.(history := s.history + [rec], timer := None, phase := Ended,
                                   pendingResets := s.pendingResets + 1)
                  && st.notice == GameEnded(Leaderboard(s.players), WinnerOf(Leaderboard(s.players)),
                                            s.history + [rec], None))
            && (s.currentRound < s.maxRounds ==>
                  && st.next == s.(history := s.history + [rec], currentRound := s.currentRound + 1, phase := Prompt)
                  && st.next.timer == None && st.notice == Silent))
  {
    NoCommentsRecorded(s.currentRound, s.currentPrompt, s.players, s.gifs, s.votes);
    RoundRecordContents(s.currentRound, s.currentPrompt, s.players, s.gifs, s.votes, EmptyDict());
  }

  /**
   * `comment:submit` from anyone but the game master during commenting
   * stores (or replaces) the sender's comments; once every registered
   * non-GM id is matched by a comment entry the round is saved with them.
   */
  lemma SubmitCommentRule(s: State, sender: Id, comment: Comment)
    requires Inv(s)
    ensures var st := SubmitComment(s, sender, comment);
      var accepted := s.phase == Commenting && s.gameMaster != Some(sender);
      var cs := s.comments.Put(sender, comment);
      && (!accepted ==> st.next == s && st.notice == Silent)
      && (accepted && |cs.keys| != NonGMCount(s) ==> st.next == s.(comments := cs) && st.notice == Silent)
      && (accepted && |cs.keys| == NonGMCount(s) ==>
            var h := s.history + [RoundRecordOf(s.currentRound, s.currentPrompt, s.players, s.gifs, s.votes, cs)];
            && (s.currentRound >= s.maxRounds ==>
                  && st.next == s.(comments := cs, history := h, timer := None, phase := Ended,
                                   pendingResets := s.pendingResets + 1)
                  && st.notice == GameEnded(Leaderboard(s.players), WinnerOf(Leaderboard(s.players)), h, None))
            && (s.currentRound < s.maxRounds ==>
                  && st.next == s.(comments := cs, history := h, timer := None,
                                   currentRound := s.currentRound + 1, phase := Prompt)
                  && st.notice == Silent))
  {
    var cs := s.comments.Put(sender, comment);
    if s.phase == Commenting && s.gameMaster != Some(sender) && |cs.keys| == NonGMCount(s) {
      var s1 := s.(comments := cs);
      assert NonGMCount(s1) == NonGMCount(s);
      var rec := RoundRecordOf(s.currentRound, s.currentPrompt, s.players, s.gifs, s.votes, cs);
      assert SubmitComment(s, sender, comment) == Advance(s1.(timer := None, history := s.history + [rec]));
    }
  }

  /**
   * `disconnect`: an unknown id changes nothing; a player flagged as game
   * master resets the session (announcing the end unless the session was in
   * the lobby or already over); anyone else is removed with their GIF,
   * comments and ballot (the remaining keys keep their order), while the
   * phase, its timer and the vote lists stored under their id stay as they
   * were.
   */
  lemma DisconnectRule(s: State, sender: Id)
    requires Inv(s)
    ensures var st := Disconnect(s, sender);
      && (sender !in s.players.vals ==> st.next == s && st.notice == Silent)
      && (sender in s.players.vals && s.players.vals[sender].isGM ==>
            && st.next == ResetState(s.pendingResets)
            && (st.notice.GameEnded? <==> s.phase != Waiting && s.phase != Ended)
            && (st.notice.GameEnded? ==>
                  st.notice == GameEnded(Leaderboard(s.players), WinnerOf(Leaderboard(s.players)), s.history,
                                         Some(GameMasterLeftReason))))
      && (sender in s.players.vals && !s.players.vals[sender].isGM ==>
            && st.notice == Silent
            && st.next.players.vals == s.players.vals - {sender}
            && |st.next.players.keys| == |s.players.keys| - 1
            && st.next.gifs.vals == s.gifs.vals - {sender}
            && st.next.gifs.keys == Without(s.gifs.keys, sender)
            && st.next.comments.vals == s.comments.vals - {sender}
            && st.next.comments.keys == Without(s.comments.keys, sender)
            && st.next.players.keys == Without(s.players.keys, sender)
            && st.next.votes.keys == s.votes.keys
            && (forall t :: t in st.next.votes.vals <==> t in s.votes.vals)
            && Occurrences(st.next.votes, sender) == 0
            && (forall x :: x != sender ==> Occurrences(st.next.votes, x) == Occurrences(s.votes, x))
            && (forall t, x :: x != sender ==>
                  multiset(VotersOf(st.next.votes, t))[x] == multiset(VotersOf(s.votes, t))[x])
            && (forall t :: VotesFor(st.next.votes, t) == VotesFor(s.votes, t) - multiset(VotersOf(s.votes, t))[sender])
            && st.next.(players := s.players, gifs := s.gifs, comments := s.comments, votes := s.votes) == s)
  {
    if sender in s.players.vals && !s.players.vals[sender].isGM {
      var w := WithoutVoter(s.votes, sender);
      WithoutVoterCounts(s.votes, sender, sender);
      forall x | x != sender ensures Occurrences(w, x) == Occurrences(s.votes, x) {
        WithoutVoterCounts(s.votes, sender, x);
      }
      WithoutVoterLists(s.votes, sender);
      forall t ensures VotesFor(w, t) == VotesFor(s.votes, t) - multiset(VotersOf(s.votes, t))[sender] {
        WithoutVoterTally(s.votes, sender, t);
      }
    }
  }

  /**
   * The stored timer fires only in the phase that armed it, and never twice:
   * the slot afterwards holds a different deadline or none. The 45 s timer
   * of the last round ends the game without recording that round.
   */
  lemma TimeoutRule(s: State)
    requires Inv(s)
    ensures var st := Timeout(s);
      var credited := Credited(s.players, s.votes);
      var board := Leaderboard(s.players);
      && (s.timer == None ==> st.next == s && st.notice == Silent)
      && (s.timer.Some? ==> st.next.timer != s.timer)
      && (s.timer == Some(SubmitDeadline) ==>
            && s.phase == Submitting
            && (|s.gifs.keys| > 0 ==> st.next == s.(phase := Voting, timer := Some(VoteDeadline)) && st.notice == Silent)
            && (|s.gifs.keys| == 0 ==>
                  && st.next == s.(phase := Results, players := credited,
                                   timer := if s.currentRound >= s.maxRounds then Some(FinalResultsDeadline) else None)
                  && st.notice == ResultsShown(RoundResults(s.players, s.gifs, s.votes), Leaderboard(credited),
                                               s.currentRound >= s.maxRounds, false)))
      && (s.timer == Some(VoteDeadline) ==>
            && s.phase == Voting
            && st.next == s.(phase := Results, players := credited,
                             timer := if s.currentRound >= s.maxRounds then Some(FinalResultsDeadline) else None)
            && st.notice == ResultsShown(RoundResults(s.players, s.gifs, s.votes), Leaderboard(credited),
                                         s.currentRound >= s.maxRounds, |s.gifs.keys| > 0))
      && (s.timer == Some(FinalResultsDeadline) ==>
            && s.phase == Results && s.currentRound >= s.maxRounds
            && st.next == s.(timer := None, phase := Ended, pendingResets := s.pendingResets + 1)
            && st.notice == GameEnded(board, WinnerOf(board), s.history, None)
            && |st.next.history| == s.currentRound - 1)
      && (s.timer == Some(CommentDeadline) ==>
            var h := s.history + [RoundRecordOf(s.currentRound, s.currentPrompt, s.players, s.gifs, s.votes, s.comments)];
            && s.phase == Commenting
            && (s.currentRound >= s.maxRounds ==>
                  && st.next == s.(history := h, timer := None, phase := Ended, pendingResets := s.pendingResets + 1)
                  && st.notice == GameEnded(board, WinnerOf(board), h, None))
            && (s.currentRound < s.maxRounds ==>
                  && st.next == s.(history := h, timer := None, currentRound := s.currentRound + 1, phase := Prompt)
                  && st.notice == Silent))
  {
    if s.timer == Some(SubmitDeadline) {
      SubmitDeadlineRule(s);
    } else if s.timer == Some(VoteDeadline) {
      VoteDeadlineRule(s);
    } else if s.timer == Some(FinalResultsDeadline) {
      FinalResultsDeadlineRule(s);
    } else if s.timer == Some(CommentDeadline) {
      CommentDeadlineRule(s);
    }
  }

  /** The submission deadline: voting opens, or the round ends at once when no GIF came. */
  lemma SubmitDeadlineRule(s: State)
    requires Inv(s) && s.timer == Some(SubmitDeadline)
    ensures var st := Timeout(s);
      var credited := Credited(s.players, s.votes);
      && s.phase == Submitting
      && (|s.gifs.keys| > 0 ==> st.next == s.(phase := Voting, timer := Some(VoteDeadline)) && st.notice == Silent)
      && (|s.gifs.keys| == 0 ==>
            && st.next == s.(phase := Results, players := credited,
                             timer := if s.currentRound >= s.maxRounds then Some(FinalResultsDeadline) else None)
            && st.notice == ResultsShown(RoundResults(s.players, s.gifs, s.votes), Leaderboard(credited),
                                         s.currentRound >= s.maxRounds, false))
  {
  }

  /** The vote deadline: the round ends with the ballots cast so far. */
  lemma VoteDeadlineRule(s: State)
    requires Inv(s) && s.timer == Some(VoteDeadline)
    ensures var st := Timeout(s);
      var credited := Credited(s.players, s.votes);
      && s.phase == Voting
      && st.next == s.(phase := Results, players := credited,
                       timer := if s.currentRound >= s.maxRounds then Some(FinalResultsDeadline) else None)
      && st.notice == ResultsShown(RoundResults(s.players, s.gifs, s.votes), Leaderboard(credited),
                                   s.currentRound >= s.maxRounds, |s.gifs.keys| > 0)
  {
  }

  /** The 45 s deadline on the last round's results: the game ends without recording that round. */
  lemma FinalResultsDeadlineRule(s: State)
    requires Inv(s) && s.timer == Some(FinalResultsDeadline)
    ensures var st := Timeout(s);
      var board := Leaderboard(s.players);
      && s.phase == Results && s.currentRound >= s.maxRounds
      && st.next == s.(timer := None, phase := Ended, pendingResets := s.pendingResets + 1)
      && st.notice == GameEnded(board, WinnerOf(board), s.history, None)
      && |st.next.history| == s.currentRound - 1
  {
    assert s.phase == Results;
    assert Timeout(s) == EndGame(s.(timer := None));
  }

  /** The comment deadline: the round is recorded with its comments, then the game moves on. */
  lemma CommentDeadlineRule(s: State)
    requires Inv(s) && s.timer == Some(CommentDeadline)
    ensures var st := Timeout(s);
      var board := Leaderboard(s.players);
      var h := s.history + [RoundRecordOf(s.currentRound, s.currentPrompt, s.players, s.gifs, s.votes, s.comments)];
      && s.phase == Commenting
      && (s.currentRound >= s.maxRounds ==>
            && st.next == s.(history := h, timer := None, phase := Ended, pendingResets := s.pendingResets + 1)
            && st.notice == GameEnded(board, WinnerOf(board), h, None))
      && (s.currentRound < s.maxRounds ==>
            && st.next == s.(history := h, timer := None, currentRound := s.currentRound + 1, phase := Prompt)
            && st.notice == Silent)
  {
  }

  /** A reset timer armed by an earlier game end wipes the session whatever it holds by then. */
  lemma ResetTimeoutRule(s: State)
    requires Inv(s) && s.pendingResets > 0
    ensures var st := ResetTimeout(s);
      && st.next == ResetState(s.pendingResets - 1)
      && st.next.phase == Waiting && |st.next.players.keys| == 0 && st.next.gameMaster == None
  {
  }
}
