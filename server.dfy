/**
 * The game server as the program runs it: one object holding the session
 * fields, updated in place by the socket handlers and the timer callbacks.
 * Every handler is proved to perform the transition of the same name in
 * `Session` and to keep the session invariant.
 */
module Server {
  import opened Collections
  import opened Entities
  import opened Ballots
  import opened Sorting
  import opened Scoring
  import opened History
  import opened Session

  /** Registered players whose points were credited keep everything the unvoted results read. */
  lemma {:induction false} UnvotedEntriesCredited(keys: seq<Id>, players: Players, gifs: Dict<Gif>, votes: Votes)
    requires players.Wf()
    ensures UnvotedEntries(keys, Credited(players, votes), gifs, votes) == UnvotedEntries(keys, players, gifs, votes)
  {
    if keys != [] {
      var k := keys[|keys| - 1];
      UnvotedEntriesCredited(keys[..|keys| - 1], players, gifs, votes);
      if k in players.vals {
        CreditedPoints(players, votes, k);
      }
    }
  }

  /** The players after the vote lists stored under `keys` have been credited, one key after the other. */
  function CreditFold(players: Players, votes: Votes, keys: seq<Id>): Players {
    if keys == [] then players
    else
      var k := keys[|keys| - 1];
      var c := CreditFold(players, votes, keys[..|keys| - 1]);
      if k in c.vals then c.(vals := c.vals[k := c.vals[k].(points := c.vals[k].points + VotesFor(votes, k))])
      else c
  }

  /** Crediting touches points only. */
  lemma {:induction false} CreditFoldKeeps(players: Players, votes: Votes, keys: seq<Id>, p: Id)
    ensures p in CreditFold(players, votes, keys).vals <==> p in players.vals
    ensures p in players.vals ==>
      CreditFold(players, votes, keys).vals[p].(points := players.vals[p].points) == players.vals[p]
  {
    if keys != [] {
      CreditFoldKeeps(players, votes, keys[..|keys| - 1], p);
    }
  }

  /** With every key listed once, each player gains the votes under their own id when it is listed. */
  lemma {:induction false} CreditFoldPoints(players: Players, votes: Votes, keys: seq<Id>)
    requires Distinct(keys)
    ensures CreditFold(players, votes, keys).keys == players.keys
    ensures forall p :: p in CreditFold(players, votes, keys).vals <==> p in players.vals
    ensures forall p :: p in players.vals ==>
      CreditFold(players, votes, keys).vals[p]
      == players.vals[p].(points := players.vals[p].points + if p in keys then VotesFor(votes, p) else 0)
  {
    if keys != [] {
      var init := keys[..|keys| - 1];
      var k := keys[|keys| - 1];
      assert keys == init + [k];
      assert k !in init by {
        forall j | 0 <= j < |init| ensures init[j] != k {
          assert keys[j] != keys[|keys| - 1];
        }
      }
      CreditFoldPoints(players, votes, init);
    }
  }

  /** Crediting the lists one by one, in key order, is crediting them all. */
  lemma CreditFoldDone(players: Players, votes: Votes)
    requires players.Wf() && votes.Wf()
    ensures CreditFold(players, votes, votes.keys) == Credited(players, votes)
  {
    CreditFoldPoints(players, votes, votes.keys);
    var c, d := CreditFold(players, votes, votes.keys), Credited(players, votes);
    forall p | p in players.vals ensures c.vals[p] == d.vals[p] {
      CreditedPoints(players, votes, p);
    }
    assert c.vals.Keys == d.vals.Keys;
  }

  lemma VotedStep(keys: seq<Id>, i: nat, players: Players, gifs: Dict<Gif>, votes: Votes)
    requires i < |keys|
    ensures VotedEntries(keys[..i + 1], players, gifs, votes)
      == VotedEntries(keys[..i], players, gifs, votes)
         + if keys[i] in players.vals then [EntryFor(keys[i], players, gifs, VotesFor(votes, keys[i]))] else []
  {
    assert keys[..i + 1][..i] == keys[..i];
  }

  /** One more key of the vote map credited. */
  lemma CreditStep(keys: seq<Id>, i: nat, players: Players, votes: Votes)
    requires i < |keys|
    ensures var c := CreditFold(players, votes, keys[..i]);
      CreditFold(players, votes, keys[..i + 1])
      == if keys[i] in c.vals
         then c.(vals := c.vals[keys[i] := c.vals[keys[i]].(points := c.vals[keys[i]].points + VotesFor(votes, keys[i]))])
         else c
    ensures forall x :: x in keys[..i + 1] <==> x in keys[..i] || x == keys[i]
  {
    assert keys[..i + 1] == keys[..i] + [keys[i]];
  }

  /** `m` with each voter of `voters` mapped to `k`, one voter after the other. */
  function Assign(m: map<Id, Id>, voters: seq<Id>, k: Id): map<Id, Id> {
    if voters == [] then m else Assign(m, voters[..|voters| - 1], k)[voters[|voters| - 1] := k]
  }

  lemma {:induction false} AssignAll(m: map<Id, Id>, voters: seq<Id>, k: Id)
    ensures Assign(m, voters, k) == m + map v | v in voters :: k
  {
    if voters != [] {
      var init := voters[..|voters| - 1];
      assert voters == init + [voters[|voters| - 1]];
      AssignAll(m, init, k);
    }
  }

  /** The first pass of `endRound` over the ballot lists, on values: each listed, registered author gets their votes. */
  method CreditBallots(before: Players, submitted: Dict<Gif>, ballots: Votes) returns (credited: Players, results: seq<ResultEntry>, listed: set<Id>)
    requires before.Wf() && ballots.Wf()
    ensures credited == Credited(before, ballots)
    ensures results == VotedEntries(ballots.keys, before, submitted, ballots)
    ensures forall k :: k in listed <==> k in ballots.vals && k in before.vals
  {
    credited := before;
    var keys := ballots.keys;
    results := [];
    listed := {};
    var i := 0;
    while i < |keys|
      invariant 0 <= i <= |keys|
      invariant credited == CreditFold(before, ballots, keys[..i])
      invariant results == VotedEntries(keys[..i], before, submitted, ballots)
      invariant forall x :: x in listed <==> x in keys[..i] && x in before.vals
    {
      var k := keys[i];
      var voters := ballots.vals[k];
      CreditFoldKeeps(before, ballots, keys[..i], k);
      VotedStep(keys, i, before, submitted, ballots);
      CreditStep(keys, i, before, ballots);
      if k in credited.vals {
        var p := credited.vals[k];
        credited := credited.(vals := credited.vals[k := p.(points := p.points + |voters|)]);
        results := results + [ResultEntry(k, p.name, p.emoji,
                                          if k in submitted.vals then Some(submitted.vals[k]) else None, |voters|)];
        listed := listed + {k};
      }
      i := i + 1;
    }
    assert keys[..i] == keys;
    CreditFoldDone(before, ballots);
  }

  class GameServer {
    var players: Dict<Player>
    var gameMaster: Option<Id>
    var currentRound: nat
    var maxRounds: nat
    var phase: Phase
    var currentPrompt: string
    var gifs: Dict<Gif>
    var votes: Votes
    var comments: Dict<Comment>
    var timer: Option<TimerKind>
    var pendingResets: nat
    var history: seq<RoundRecord>

    /** The fields as one session value. */
    function Snapshot(): Session.State
      reads this
    {
      Session.State(players, gameMaster, currentRound, maxRounds, phase, currentPrompt,
                    gifs, votes, comments, timer, pendingResets, history)
    }

    ghost predicate Valid()
      reads this
    {
      Inv(Snapshot())
    }

    /** The session when the server starts: an empty lobby. */
    constructor()
      ensures Snapshot() == InitialState() && Valid()
    {
      players := EmptyDict();
      gameMaster := None;
      currentRound := 0;
      maxRounds := DefaultMaxRounds;
      phase := Waiting;
      currentPrompt := "";
      gifs := EmptyDict();
      votes := EmptyDict();
      comments := EmptyDict();
      timer := None;
      pendingResets := 0;
      history := [];
    }

    // -------------------------------------------------------------------------
    // Counting

    /** `Object.keys(players).filter(id => id !== gameMaster).length` */
    method NonGMPlayers() returns (n: nat)
      ensures n == NonGMCount(Snapshot())
    {
      var keys := players.keys;
      n := 0;
      var i := 0;
      while i < |keys|
        invariant 0 <= i <= |keys|
        invariant n == CountOthers(keys[..i], gameMaster)
      {
        assert keys[..i + 1][..i] == keys[..i];
        if gameMaster != Some(keys[i]) {
          n := n + 1;
        }
        i := i + 1;
      }
      assert keys[..i] == keys;
    }

    /** `Object.values(votes).flat().length` */
    method BallotCount() returns (n: nat)
      requires votes.Wf()
      ensures n == TotalVotes(votes)
    {
      var keys := votes.keys;
      n := 0;
      var i := 0;
      while i < |keys|
        invariant 0 <= i <= |keys|
        invariant n == SumIn(keys[..i], votes.vals, Length)
      {
        assert keys[..i + 1][..i] == keys[..i];
        n := n + |votes.vals[keys[i]]|;
        i := i + 1;
      }
      assert keys[..i] == keys;
    }

    /** Filter `voter` out of every list of the vote map; every key stays. */
    method PurgeVoter(voter: Id)
      requires votes.Wf()
      modifies this`votes
      ensures votes == WithoutVoter(old(votes), voter)
    {
      var keys := votes.keys;
      var lists := votes.vals;
      var i := 0;
      while i < |keys|
        invariant 0 <= i <= |keys|
        invariant lists.Keys == votes.vals.Keys
        invariant forall j :: 0 <= j < i ==> lists[keys[j]] == Without(votes.vals[keys[j]], voter)
        invariant forall j :: i <= j < |keys| ==> lists[keys[j]] == votes.vals[keys[j]]
      {
        var k := keys[i];
        lists := lists[k := Without(lists[k], voter)];
        i := i + 1;
      }
      ghost var target := WithoutVoter(votes, voter);
      forall t | t in lists ensures lists[t] == target.vals[t] {
        var j :| 0 <= j < |keys| && keys[j] == t;
      }
      assert lists == target.vals;
      votes := Dict(keys, lists);
    }

    // -------------------------------------------------------------------------
    // Phase routines

    method StartSubmittingPhase()
      modifies this
      ensures Snapshot() == Session.StartSubmittingPhase(old(Snapshot()))
    {
      phase := Submitting;
      gifs := EmptyDict();
      votes := EmptyDict();
      timer := Some(SubmitDeadline);
    }

    /** The first pass of `endRound`: credit every registered vote target and list it in the results. */
    method CreditVotes() returns (results: seq<ResultEntry>, listed: set<Id>)
      requires players.Wf() && votes.Wf()
      modifies this`players
      ensures players == Credited(old(players), votes)
      ensures results == VotedEntries(votes.keys, old(players), gifs, votes)
      ensures forall k :: k in listed <==> k in votes.vals && k in players.vals
    {
      players, results, listed := CreditBallots(players, gifs, votes);
    }

    /** The second pass of `endRound`: registered submitters not yet listed, with 0 votes. */
    method UnvotedResults(listed: set<Id>) returns (r: seq<ResultEntry>)
      requires gifs.Wf() && votes.Wf()
      requires forall k :: k in listed <==> k in votes.vals && k in players.vals
      ensures r == UnvotedEntries(gifs.keys, players, gifs, votes)
    {
      var keys := gifs.keys;
      r := [];
      var i := 0;
      while i < |keys|
        invariant 0 <= i <= |keys|
        invariant r == UnvotedEntries(keys[..i], players, gifs, votes)
      {
        var k := keys[i];
        assert keys[..i + 1] == keys[..i] + [k];
        if k !in listed && k in players.vals {
          var p := players.vals[k];
          r := r + [ResultEntry(k, p.name, p.emoji, Some(gifs.vals[k]), 0)];
        }
        i := i + 1;
      }
      assert keys[..i] == keys;
    }

    /** The two passes of `endRound`: credit the votes and build the result list. */
    method TallyResults() returns (results: seq<ResultEntry>)
      requires players.Wf() && gifs.Wf() && votes.Wf()
      modifies this`players
      ensures players == Credited(old(players), votes)
      ensures results == RoundResults(old(players), gifs, votes)
    {
      ghost var before := players;
      var voted, listed := CreditVotes();
      var rest := UnvotedResults(listed);
      UnvotedEntriesCredited(gifs.keys, before, gifs, votes);
      results := voted + rest;
    }

    /** `endRound` */
    method EndRound() returns (notice: Notice)
      requires players.Wf() && gifs.Wf() && votes.Wf()
      modifies this
      ensures var st := Session.EndRound(old(Snapshot())); Snapshot() == st.next && notice == st.notice
    {
      ghost var s := Snapshot();
      var results := TallyResults();
      var board := Leaderboard(players);
      notice := ShowResults(results, board);
      Session.EndRoundParts(s, players, results, board);
    }

    /** The phase and timer change that ends a round, and the `round:results` broadcast. */
    method ShowResults(results: seq<ResultEntry>, board: seq<Player>) returns (notice: Notice)
      modifies this`phase, this`timer
      ensures phase == Results
      ensures timer == if currentRound >= maxRounds then Some(FinalResultsDeadline) else None
      ensures notice == ResultsShown(results, board, currentRound >= maxRounds, |gifs.keys| > 0)
    {
      var isLastRound := currentRound >= maxRounds;
      phase := Results;
      timer := if isLastRound then Some(FinalResultsDeadline) else None;
      notice := ResultsShown(results, board, isLastRound, |gifs.keys| > 0);
    }

    /** `startVotingPhase`: straight to the results when no GIF was submitted. */
    method StartVotingPhase() returns (notice: Notice)
      requires players.Wf() && gifs.Wf() && votes.Wf()
      modifies this
      ensures var st := Session.StartVotingPhase(old(Snapshot())); Snapshot() == st.next && notice == st.notice
    {
      timer := None;
      if |gifs.keys| == 0 {
        notice := EndRound();
        return;
      }
      phase := Voting;
      timer := Some(VoteDeadline);
      notice := Silent;
    }

    /** A player other than the game master leaves: everything stored under their id goes, and their ballot. */
    method RemovePlayer(sender: Id)
      requires players.Wf() && gifs.Wf() && votes.Wf() && comments.Wf()
      modifies this`players, this`gifs, this`comments, this`votes
      ensures players == old(players).Remove(sender) && gifs == old(gifs).Remove(sender)
      ensures comments == old(comments).Remove(sender) && votes == WithoutVoter(old(votes), sender)
    {
      players := players.Remove(sender);
      gifs := gifs.Remove(sender);
      comments := comments.Remove(sender);
      PurgeVoter(sender);
    }

    /** `endGame`: announce the leaderboard and the winner, and arm the reset timer. */
    method EndGame() returns (notice: Notice)
      requires players.Wf()
      modifies this
      ensures var st := Session.EndGame(old(Snapshot())); Snapshot() == st.next && notice == st.notice
    {
      ghost var s := Snapshot();
      timer := None;
      phase := Ended;
      var board := Leaderboard(players);
      notice := GameEnded(board, WinnerOf(board), history, None);
      pendingResets := pendingResets + 1;
      assert Snapshot() == s.(timer := None, phase := Ended, pendingResets := s.pendingResets + 1);
    }

    /** `resetGame`; the reset timers already armed stay armed. */
    method ResetGame()
      modifies this
      ensures Snapshot() == ResetState(old(pendingResets))
    {
      ghost var target := ResetState(pendingResets);
      players, gifs, votes, comments := EmptyDict(), EmptyDict(), EmptyDict(), EmptyDict();
      gameMaster, timer := None, None;
      currentRound, maxRounds := 0, DefaultMaxRounds;
      phase, currentPrompt := Waiting, "";
      history := [];
      assert Snapshot() == target;
    }

    /** `startCommentingPhase`: clear the comments, tell every voter their choice, arm the 90 s timer. */
    method StartCommentingPhase() returns (notice: Notice)
      requires votes.Wf()
      modifies this
      ensures Snapshot() == old(Snapshot()).(phase := Commenting, comments := EmptyDict(), timer := Some(CommentDeadline))
      ensures notice == CommentingStarted(VoterTargets(votes.keys, votes.vals))
    {
      phase := Commenting;
      comments := EmptyDict();
      var pv := PlayerVotes();
      notice := CommentingStarted(pv);
      timer := Some(CommentDeadline);
    }

    /** For every voter, the GIF whose list names them; a later list overrides an earlier one. */
    method PlayerVotes() returns (pv: map<Id, Id>)
      requires votes.Wf()
      ensures pv == VoterTargets(votes.keys, votes.vals)
    {
      var keys := votes.keys;
      pv := map[];
      var i := 0;
      while i < |keys|
        invariant 0 <= i <= |keys|
        invariant pv == VoterTargets(keys[..i], votes.vals)
      {
        var k := keys[i];
        var voters := votes.vals[k];
        ghost var start := pv;
        var j := 0;
        while j < |voters|
          invariant 0 <= j <= |voters|
          invariant pv == Assign(start, voters[..j], k)
        {
          assert voters[..j + 1][..j] == voters[..j];
          pv := pv[voters[j] := k];
          j := j + 1;
        }
        assert voters[..j] == voters;
        AssignAll(start, voters, k);
        assert keys[..i + 1][..i] == keys[..i];
        i := i + 1;
      }
      assert keys[..i] == keys;
    }

    /** The comments left on GIF `g`, in the order of the comment map. */
    method CommentsFor(g: Id, cs: Dict<Comment>) returns (out: seq<CommentRecord>)
      requires cs.Wf()
      ensures out == CommentsOn(g, cs.keys, cs, players)
    {
      var keys := cs.keys;
      out := [];
      var i := 0;
      while i < |keys|
        invariant 0 <= i <= |keys|
        invariant out == CommentsOn(g, keys[..i], cs, players)
      {
        var o := keys[i];
        assert keys[..i + 1][..i] == keys[..i];
        var c := cs.vals[o];
        ghost var prefix := out;
        if c.votedGifId == Some(g) && c.voteComment != "" {
          out := out + [CommentRecord(o, NameOr(players, o, AnonymousName), c.voteComment, VoteComment)];
        }
        if c.ownGifId == Some(g) && c.ownComment != "" {
          out := out + [CommentRecord(o, NameOr(players, o, AnonymousName), c.ownComment, OwnComment)];
        }
        assert out == prefix + CommentsBy(g, o, cs, players);
        i := i + 1;
      }
      assert keys[..i] == keys;
    }

    /** One history entry per submitted GIF, in submission order, with the comments of `cs`. */
    method RoundEntries(cs: Dict<Comment>) returns (entries: seq<GifRecord>)
      requires gifs.Wf() && cs.Wf()
      ensures entries == GifEntries(gifs.keys, gifs, players, votes, cs)
    {
      var keys := gifs.keys;
      entries := [];
      var i := 0;
      while i < |keys|
        invariant 0 <= i <= |keys|
        invariant entries == GifEntries(keys[..i], gifs, players, votes, cs)
      {
        var g := keys[i];
        assert keys[..i + 1][..i] == keys[..i];
        var gif := gifs.vals[g];
        var own := CommentsFor(g, cs);
        entries := entries + [GifRecord(g, NameOr(players, g, UnknownName), EmojiOr(players, g, DefaultEmoji),
                                        gif.url, gif.previewUrl, VotesFor(votes, g), own)];
        i := i + 1;
      }
      assert keys[..i] == keys;
    }

    /** End the game after the last round, otherwise open the next round's prompt phase. */
    method Advance() returns (notice: Notice)
      requires players.Wf()
      modifies this
      ensures var st := Session.Advance(old(Snapshot())); Snapshot() == st.next && notice == st.notice
    {
      if currentRound >= maxRounds {
        notice := EndGame();
      } else {
        currentRound := currentRound + 1;
        phase := Prompt;
        notice := Silent;
      }
    }

    /** `saveRoundAndAdvance` */
    method SaveRoundAndAdvance() returns (notice: Notice)
      requires players.Wf() && gifs.Wf() && comments.Wf()
      modifies this
      ensures var st := Session.SaveRoundAndAdvance(old(Snapshot())); Snapshot() == st.next && notice == st.notice
    {
      ghost var s := Snapshot();
      timer := None;
      var entries := RoundEntries(comments);
      ghost var rec := RoundRecordOf(s.currentRound, s.currentPrompt, s.players, s.gifs, s.votes, s.comments);
      history := history + [RoundRecord(currentRound, currentPrompt, SortDesc(entries, VotesKey))];
      assert Snapshot() == s.(timer := None, history := s.history + [rec]);
      notice := Advance();
    }

    // -------------------------------------------------------------------------
    // Socket handlers

    /** `player:join` */
    method Join(sender: Id, name: string, emoji: string, wantsGM: bool) returns (notice: Notice)
      requires Valid()
      modifies this
      ensures Valid()
      ensures var st := Session.Join(old(Snapshot()), sender, name, emoji, wantsGM);
        Snapshot() == st.next && notice == st.notice
    {
      ghost var s := Snapshot();
      var entry := Player(sender, name, emoji, 0, wantsGM);
      if wantsGM && gameMaster == None {
        gameMaster := Some(sender);
        entry := entry.(isGM := true);
      } else if wantsGM {
        entry := entry.(isGM := false);
      }
      players := players.Put(sender, entry);
      notice := Joined(entry.isGM);
      assert Snapshot() == Session.Join(s, sender, name, emoji, wantsGM).next;
      JoinInv(s, sender, name, emoji, wantsGM);
    }

    /** `game:start` */
    method StartGame(sender: Id, req: RoundsRequest) returns (notice: Notice)
      requires Valid()
      modifies this
      ensures Valid()
      ensures var st := Session.StartGame(old(Snapshot()), sender, req); Snapshot() == st.next && notice == st.notice
    {
      ghost var s := Snapshot();
      notice := Silent;
      if Some(sender) == gameMaster && phase == Waiting {
        var others := NonGMPlayers();
        if others < 2 {
          notice := Refused(NotEnoughPlayersMessage);
          return;
        }
        maxRounds := ClampRounds(req, maxRounds);
        currentRound := 1;
        phase := Prompt;
      }
      StartGameInv(s, sender, req);
    }

    /** `prompt:submit` */
    method SubmitPrompt(sender: Id, prompt: string) returns (notice: Notice)
      requires Valid()
      modifies this
      ensures Valid()
      ensures var st := Session.SubmitPrompt(old(Snapshot()), sender, prompt); Snapshot() == st.next && notice == st.notice
    {
      ghost var s := Snapshot();
      if Some(sender) == gameMaster && phase == Prompt {
        currentPrompt := prompt;
        StartSubmittingPhase();
      }
      notice := Silent;
      SubmitPromptInv(s, sender, prompt);
    }

    /** `gif:submit` */
    method SubmitGif(sender: Id, url: string, previewUrl: string) returns (notice: Notice)
      requires Valid()
      modifies this
      ensures Valid()
      ensures var st := Session.SubmitGif(old(Snapshot()), sender, url, previewUrl);
        Snapshot() == st.next && notice == st.notice
    {
      ghost var s := Snapshot();
      notice := Silent;
      if phase == Submitting && Some(sender) != gameMaster {
        gifs := gifs.Put(sender, MakeGif(url, previewUrl));
        var total := NonGMPlayers();
        if |gifs.keys| == total {
          notice := StartVotingPhase();
        }
      }
      SubmitGifInv(s, sender, url, previewUrl);
    }

    /** `vote:cast` */
    method CastVote(sender: Id, target: Id) returns (notice: Notice)
      requires Valid()
      modifies this
      ensures Valid()
      ensures var st := Session.CastVote(old(Snapshot()), sender, target); Snapshot() == st.next && notice == st.notice
    {
      ghost var s := Snapshot();
      notice := Silent;
      if phase == Voting && target != sender && Some(sender) != gameMaster {
        PurgeVoter(sender);
        var prior := if target in votes.vals then votes.vals[target] else [];
        votes := votes.Put(target, prior + [sender]);
        var total := NonGMPlayers();
        var cast := BallotCount();
        if cast == total {
          notice := EndRound();
        }
      }
      CastVoteInv(s, sender, target);
    }

    /** `start:commenting` */
    method StartCommenting(sender: Id) returns (notice: Notice)
      requires Valid()
      modifies this
      ensures Valid()
      ensures var st := Session.StartCommenting(old(Snapshot()), sender); Snapshot() == st.next && notice == st.notice
    {
      ghost var s := Snapshot();
      notice := Silent;
      if Some(sender) == gameMaster && phase == Results {
        notice := StartCommentingPhase();
      }
      StartCommentingInv(s, sender);
    }

    /** `round:next`: the round is recorded without comments; the stored timer is left alone. */
    method NextRound(sender: Id) returns (notice: Notice)
      requires Valid()
      modifies this
      ensures Valid()
      ensures var st := Session.NextRound(old(Snapshot()), sender); Snapshot() == st.next && notice == st.notice
    {
      ghost var s := Snapshot();
      notice := Silent;
      if Some(sender) == gameMaster && phase == Results {
        var entries := RoundEntries(EmptyDict());
        ghost var rec := RoundRecordOf(s.currentRound, s.currentPrompt, s.players, s.gifs, s.votes, EmptyDict());
        history := history + [RoundRecord(currentRound, currentPrompt, SortDesc(entries, VotesKey))];
        assert Snapshot() == s.(history := s.history + [rec]);
        notice := Advance();
      }
      NextRoundInv(s, sender);
    }

    /** `comment:submit` */
    method SubmitComment(sender: Id, comment: Comment) returns (notice: Notice)
      requires Valid()
      modifies this
      ensures Valid()
      ensures var st := Session.SubmitComment(old(Snapshot()), sender, comment); Snapshot() == st.next && notice == st.notice
    {
      ghost var s := Snapshot();
      notice := Silent;
      if phase == Commenting && Some(sender) != gameMaster {
        comments := comments.Put(sender, comment);
        var total := NonGMPlayers();
        if |comments.keys| == total {
          notice := SaveRoundAndAdvance();
        }
      }
      SubmitCommentInv(s, sender, comment);
    }

    /** `disconnect` */
    method Disconnect(sender: Id) returns (notice: Notice)
      requires Valid()
      modifies this
      ensures Valid()
      ensures var st := Session.Disconnect(old(Snapshot()), sender); Snapshot() == st.next && notice == st.notice
    {
      ghost var s := Snapshot();
      ghost var st := Session.Disconnect(s, sender);
      notice := Silent;
      if sender in players.vals {
        var wasGM := players.vals[sender].isGM;
        if wasGM {
          if phase != Waiting && phase != Ended {
            var board := Leaderboard(players);
            notice := GameEnded(board, WinnerOf(board), history, Some(GameMasterLeftReason));
          }
          ResetGame();
          assert Snapshot() == st.next && notice == st.notice;
        } else {
          RemovePlayer(sender);
        }
      }
      DisconnectInv(s, sender);
    }

    // -------------------------------------------------------------------------
    // Timer callbacks

    /** The stored timer fires and runs its callback. */
    method TimerFires() returns (notice: Notice)
      requires Valid()
      modifies this
      ensures Valid()
      ensures var st := Session.Timeout(old(Snapshot())); Snapshot() == st.next && notice == st.notice
    {
      ghost var s := Snapshot();
      notice := Silent;
      match timer {
        case None =>
        case Some(kind) =>
          timer := None;
          match kind {
            case SubmitDeadline => notice := StartVotingPhase();
            case VoteDeadline => notice := EndRound();
            case FinalResultsDeadline =>
              if phase == Results {
                notice := EndGame();
              }
            case CommentDeadline => notice := SaveRoundAndAdvance();
          }
      }
      TimeoutInv(s);
    }

    /** One of the reset timers armed by `endGame` fires. */
    method ResetTimerFires() returns (notice: Notice)
      requires Valid()
      modifies this
      ensures Valid()
      ensures var st := Session.ResetTimeout(old(Snapshot())); Snapshot() == st.next && notice == st.notice
    {
      ghost var s := Snapshot();
      if pendingResets > 0 {
        pendingResets := pendingResets - 1;
        ResetGame();
      }
      notice := Silent;
      ResetTimeoutInv(s);
    }
  }
}
