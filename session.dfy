/**
 * The game session as a state machine over values: the state record the
 * server keeps, one transition per socket event and timer callback, and the
 * invariant every transition preserves.
 *
 * Phases: Waiting -> Prompt -> Submitting -> Voting -> Results
 *   -> (Commenting) -> Prompt ... -> Ended, and back to Waiting on reset.
 */
module Session {
  import opened Collections
  import opened Entities
  import opened Ballots
  import opened Sorting
  import opened Scoring
  import opened History

  /** The whole session. `timer` is the one stored timer slot; `pendingResets`
      counts the reset timers armed by the end of a game, which nothing cancels. */
  datatype State = State(
    players: Dict<Player>,
    gameMaster: Option<Id>,
    currentRound: nat,
    maxRounds: nat,
    phase: Phase,
    currentPrompt: string,
    gifs: Dict<Gif>,
    votes: Votes,
    comments: Dict<Comment>,
    timer: Option<TimerKind>,
    pendingResets: nat,
    history: seq<RoundRecord>)

  /** What a transition reports to the clients, where it matters to the game. */
  datatype Notice =
    | Silent
    | Joined(isGM: bool)
    | Refused(message: string)
    | ResultsShown(results: seq<ResultEntry>, leaderboard: seq<Player>, isLastRound: bool, hasGifs: bool)
    | CommentingStarted(playerVotes: map<Id, Id>)
    | GameEnded(leaderboard: seq<Player>, winner: Winner, history: seq<RoundRecord>, reason: Option<string>)

  datatype Step = Step(next: State, notice: Notice)

  /** The `maxRounds` field of a start request: absent (or falsy), not a number, or the integer it parses to. */
  datatype RoundsRequest = Absent | NotANumber | Parsed(n: int)

  const NotEnoughPlayersMessage := "Need at least 2 players (not including Game Master) to start!"
  const GameMasterLeftReason := "Game Master left"

  /** The state `resetGame` leaves behind; reset timers still pending stay pending. */
  function ResetState(pendingResets: nat): (s: State)
    ensures s.phase == Waiting && s.gameMaster == None && s.timer == None
    ensures |s.players.keys| == 0 && s.history == [] && s.maxRounds == DefaultMaxRounds
  {
    State(EmptyDict(), None, 0, DefaultMaxRounds, Waiting, "", EmptyDict(), EmptyDict(), EmptyDict(),
          None, pendingResets, [])
  }

  /** The session when the server starts. */
  function InitialState(): State {
    ResetState(0)
  }

  // ---------------------------------------------------------------------------
  // Quorum and round count

  /** The registered ids other than the game master's. */
  function CountOthers(keys: seq<Id>, gm: Option<Id>): nat {
    if keys == [] then 0
    else CountOthers(keys[..|keys| - 1], gm) + (if gm == Some(keys[|keys| - 1]) then 0 else 1)
  }

  /** `Object.keys(players).filter(id => id !== gameMaster).length`, the quorum of every phase. */
  function NonGMCount(s: State): nat {
    CountOthers(s.players.keys, s.gameMaster)
  }

  /** The quorum is the number of registered players, less one when the game master is registered. */
  lemma {:induction false} CountOthersFormula(keys: seq<Id>, gm: Option<Id>)
    requires Distinct(keys)
    ensures CountOthers(keys, gm) == |keys| - (if gm.Some? && gm.value in keys then 1 else 0)
  {
    if keys != [] {
      var init := keys[..|keys| - 1];
      var k := keys[|keys| - 1];
      assert keys == init + [k];
      assert k !in init by {
        forall i | 0 <= i < |init| ensures init[i] != k {
          assert keys[i] != keys[|keys| - 1];
        }
      }
      CountOthersFormula(init, gm);
    }
  }

  /** `Math.min(50, Math.max(1, parseInt(maxRounds) || 10))`, applied only when the field is truthy. */
  function ClampRounds(req: RoundsRequest, current: nat): (r: nat)
    ensures req == Absent ==> r == current
    ensures req != Absent ==> MinRounds <= r <= MaxRoundsLimit
    ensures req == NotANumber || req == Parsed(0) ==> r == DefaultMaxRounds
    ensures req.Parsed? && 1 <= req.n <= 50 ==> r == req.n
    ensures req.Parsed? && req.n > 50 ==> r == MaxRoundsLimit
    ensures req.Parsed? && req.n < 0 ==> r == MinRounds
  {
    match req
    case Absent => current
    case NotANumber => DefaultMaxRounds
    case Parsed(n) =>
      var parsed := if n == 0 then DefaultMaxRounds as int else n;
      var atLeastOne := if parsed < MinRounds as int then MinRounds as int else parsed;
      if atLeastOne > MaxRoundsLimit as int then MaxRoundsLimit else atLeastOne as nat
  }

  // ---------------------------------------------------------------------------
  // Phase routines

  function StartSubmittingPhase(s: State): State {
    s.(phase := Submitting, gifs := EmptyDict(), votes := EmptyDict(), timer := Some(SubmitDeadline))
  }

  /** `endRound`: credit the votes, publish the results, arm the 45 s timer on the last round. */
  function EndRound(s: State): Step
    requires s.players.Wf()
  {
    var results := RoundResults(s.players, s.gifs, s.votes);
    var credited := Credited(s.players, s.votes);
    var isLastRound := s.currentRound >= s.maxRounds;
    var next := s.(phase := Results, players := credited,
                   timer := if isLastRound then Some(FinalResultsDeadline) else None);
    Step(next, ResultsShown(results, Leaderboard(credited), isLastRound, |s.gifs.keys| > 0))
  }

  /** The ending of a round, given its three computed parts. */
  lemma EndRoundParts(s: State, credited: Players, results: seq<ResultEntry>, board: seq<Player>)
    requires s.players.Wf()
    requires credited == Credited(s.players, s.votes)
    requires results == RoundResults(s.players, s.gifs, s.votes)
    requires board == Leaderboard(credited)
    ensures EndRound(s) == Step(s.(phase := Results, players := credited,
                                   timer := if s.currentRound >= s.maxRounds then Some(FinalResultsDeadline) else None),
                                ResultsShown(results, board, s.currentRound >= s.maxRounds, |s.gifs.keys| > 0))
  {
  }

  /** `startVotingPhase`: straight to the results when no GIF was submitted. */
  function StartVotingPhase(s: State): Step
    requires s.players.Wf()
  {
    if |s.gifs.keys| == 0 then EndRound(s.(timer := None))
    else Step(s.(phase := Voting, timer := Some(VoteDeadline)), Silent)
  }

  /** `endGame`: announce the leaderboard and winner, and arm a reset timer. */
  function EndGame(s: State): Step
    requires s.players.Wf()
  {
    var board := Leaderboard(s.players);
    Step(s.(timer := None, phase := Ended, pendingResets := s.pendingResets + 1),
         GameEnded(board, WinnerOf(board), s.history, None))
  }

  /** The common tail of closing a round: end the game after the last round, else start the next one. */
  function Advance(s: State): Step
    requires s.players.Wf()
  {
    if s.currentRound >= s.maxRounds then EndGame(s)
    else Step(s.(currentRound := s.currentRound + 1, phase := Prompt), Silent)
  }

  /** `saveRoundAndAdvance`: record the round with its comments, then advance. */
  function SaveRoundAndAdvance(s: State): Step
    requires s.players.Wf()
  {
    var rec := RoundRecordOf(s.currentRound, s.currentPrompt, s.players, s.gifs, s.votes, s.comments);
    Advance(s.(timer := None, history := s.history + [rec]))
  }

  /** For every voter, the GIF they voted for (a later list overrides an earlier one). */
  function VoterTargets(keys: seq<Id>, vals: map<Id, seq<Id>>): map<Id, Id> {
    if keys == [] then map[]
    else
      var k := keys[|keys| - 1];
      var before := VoterTargets(keys[..|keys| - 1], vals);
      if k in vals then before + map v | v in vals[k] :: k else before
  }

  // ---------------------------------------------------------------------------
  // Socket events and timer callbacks

  /** `player:join`: register (or re-register) the sender; the first to ask becomes game master. */
  function Join(s: State, sender: Id, name: string, emoji: string, wantsGM: bool): Step
    requires s.players.Wf()
  {
    var entry := Player(sender, name, emoji, 0, wantsGM);
    if wantsGM && s.gameMaster == None then
      Step(s.(players := s.players.Put(sender, entry), gameMaster := Some(sender)), Joined(true))
    else if wantsGM then
      Step(s.(players := s.players.Put(sender, entry.(isGM := false))), Joined(false))
    else
      Step(s.(players := s.players.Put(sender, entry)), Joined(false))
  }

  /** `game:start` */
  function StartGame(s: State, sender: Id, req: RoundsRequest): Step {
    if s.gameMaster == Some(sender) && s.phase == Waiting then
      if NonGMCount(s) < 2 then Step(s, Refused(NotEnoughPlayersMessage))
      else Step(s.(maxRounds := ClampRounds(req, s.maxRounds), currentRound := 1, phase := Prompt), Silent)
    else Step(s, Silent)
  }

  /** `prompt:submit` */
  function SubmitPrompt(s: State, sender: Id, prompt: string): Step {
    if s.gameMaster == Some(sender) && s.phase == Prompt then
      Step(StartSubmittingPhase(s.(currentPrompt := prompt)), Silent)
    else Step(s, Silent)
  }

  /** The stored GIF: an empty preview falls back to the URL. */
  function MakeGif(url: string, previewUrl: string): (g: Gif)
    ensures g.url == url
    ensures g.previewUrl == if previewUrl == "" then url else previewUrl
  {
    Gif(url, if previewUrl == "" then url else previewUrl)
  }

  /** `gif:submit` */
  function SubmitGif(s: State, sender: Id, url: string, previewUrl: string): Step
    requires s.players.Wf() && s.gifs.Wf()
  {
    if s.phase == Submitting && s.gameMaster != Some(sender) then
      var s1 := s.(gifs := s.gifs.Put(sender, MakeGif(url, previewUrl)));
      if |s1.gifs.keys| == NonGMCount(s1) then StartVotingPhase(s1) else Step(s1, Silent)
    else Step(s, Silent)
  }

  /** `vote:cast` */
  function CastVote(s: State, sender: Id, target: Id): Step
    requires s.players.Wf() && s.votes.Wf()
  {
    if s.phase == Voting && target != sender && s.gameMaster != Some(sender) then
      var s1 := s.(votes := Recast(s.votes, sender, target));
      if TotalVotes(s1.votes) == NonGMCount(s1) then EndRound(s1) else Step(s1, Silent)
    else Step(s, Silent)
  }

  /** `start:commenting` */
  function StartCommenting(s: State, sender: Id): Step {
    if s.gameMaster == Some(sender) && s.phase == Results then
      Step(s.(phase := Commenting, comments := EmptyDict(), timer := Some(CommentDeadline)),
           CommentingStarted(VoterTargets(s.votes.keys, s.votes.vals)))
    else Step(s, Silent)
  }

  /** `round:next`: record the round without comments, then advance. The stored timer is not cleared. */
  function NextRound(s: State, sender: Id): Step
    requires s.players.Wf()
  {
    if s.gameMaster == Some(sender) && s.phase == Results then
      var rec := RoundRecordOf(s.currentRound, s.currentPrompt, s.players, s.gifs, s.votes, EmptyDict());
      Advance(s.(history := s.history + [rec]))
    else Step(s, Silent)
  }

  /** `comment:submit` */
  function SubmitComment(s: State, sender: Id, comment: Comment): Step
    requires s.players.Wf() && s.comments.Wf()
  {
    if s.phase == Commenting && s.gameMaster != Some(sender) then
      var s1 := s.(comments := s.comments.Put(sender, comment));
      if |s1.comments.keys| == NonGMCount(s1) then SaveRoundAndAdvance(s1) else Step(s1, Silent)
    else Step(s, Silent)
  }

  /** `disconnect`: the game master ends and resets the game; anyone else is purged. */
  function Disconnect(s: State, sender: Id): Step
    requires s.players.Wf() && s.gifs.Wf() && s.votes.Wf() && s.comments.Wf()
  {
    if sender !in s.players.vals then Step(s, Silent)
    else if s.players.vals[sender].isGM then
      var board := Leaderboard(s.players);
      var notice := if s.phase != Waiting && s.phase != Ended
                    then GameEnded(board, WinnerOf(board), s.history, Some(GameMasterLeftReason))
                    else Silent;
      Step(ResetState(s.pendingResets), notice)
    else
      Step(s.(players := s.players.Remove(sender), gifs := s.gifs.Remove(sender),
              comments := s.comments.Remove(sender), votes := WithoutVoter(s.votes, sender)), Silent)
  }

  /** The stored timer fires: its callback runs once and the slot is empty. */
  function Timeout(s: State): Step
    requires s.players.Wf()
  {
    match s.timer
    case None => Step(s, Silent)
    case Some(kind) =>
      var s0 := s.(timer := None);
      match kind
      case SubmitDeadline => StartVotingPhase(s0)
      case VoteDeadline => EndRound(s0)
      case FinalResultsDeadline => if s0.phase == Results then EndGame(s0) else Step(s0, Silent)
      case CommentDeadline => SaveRoundAndAdvance(s0)
  }

  /** One of the reset timers armed by `endGame` fires: `resetGame`, whatever the phase is by then. */
  function ResetTimeout(s: State): Step {
    if s.pendingResets == 0 then Step(s, Silent)
    else Step(ResetState(s.pendingResets - 1), Silent)
  }

  /** Every input of the session: a socket event with its sender, or a timer firing. */
  datatype Event =
    | PlayerJoin(sender: Id, name: string, emoji: string, wantsGM: bool)
    | GameStart(sender: Id, rounds: RoundsRequest)
    | PromptSubmit(sender: Id, prompt: string)
    | GifSubmit(sender: Id, url: string, previewUrl: string)
    | VoteCast(sender: Id, target: Id)
    | CommentingStart(sender: Id)
    | RoundNext(sender: Id)
    | CommentSubmit(sender: Id, comment: Comment)
    | Disconnected(sender: Id)
    | TimerFired
    | ResetTimerFired

  /** The handler each input runs; handlers run one at a time. */
  function Handle(s: State, e: Event): Step
    requires s.players.Wf() && s.gifs.Wf() && s.votes.Wf() && s.comments.Wf()
  {
    match e
    case PlayerJoin(sender, name, emoji, wantsGM) => Join(s, sender, name, emoji, wantsGM)
    case GameStart(sender, rounds) => StartGame(s, sender, rounds)
    case PromptSubmit(sender, prompt) => SubmitPrompt(s, sender, prompt)
    case GifSubmit(sender, url, previewUrl) => SubmitGif(s, sender, url, previewUrl)
    case VoteCast(sender, target) => CastVote(s, sender, target)
    case CommentingStart(sender) => StartCommenting(s, sender)
    case RoundNext(sender) => NextRound(s, sender)
    case CommentSubmit(sender, comment) => SubmitComment(s, sender, comment)
    case Disconnected(sender) => Disconnect(s, sender)
    case TimerFired => Timeout(s)
    case ResetTimerFired => ResetTimeout(s)
  }

  // ---------------------------------------------------------------------------
  // The invariant

  /** The timer a phase holds: each timed phase its deadline, the last round's results the 45 s one. */
  function ArmedTimer(phase: Phase, round: nat, maxRounds: nat): Option<TimerKind> {
    match phase
    case Submitting => Some(SubmitDeadline)
    case Voting => Some(VoteDeadline)
    case Commenting => Some(CommentDeadline)
    case Results => if round >= maxRounds then Some(FinalResultsDeadline) else None
    case _ => None
  }

  /** The phases of a round in progress. */
  predicate InRound(phase: Phase) {
    phase in {Prompt, Submitting, Voting, Results, Commenting}
  }

  /** A lobby holds nothing but players and possibly a game master. */
  predicate Lobby(s: State) {
    && s.currentRound == 0 && s.maxRounds == DefaultMaxRounds && s.currentPrompt == ""
    && s.gifs == EmptyDict() && s.votes == EmptyDict() && s.comments == EmptyDict() && s.history == []
  }

  /** What holds in every state, also in the middle of a transition. */
  ghost predicate Core(s: State) {
    && s.players.Wf() && s.gifs.Wf() && s.votes.Wf() && s.comments.Wf()
    && (forall p :: p in s.players.vals ==> s.players.vals[p].id == p)
    // at most one game master: only the player named by `gameMaster` can carry the flag
    && (forall p :: p in s.players.vals && s.players.vals[p].isGM ==> s.gameMaster == Some(p))
    && MinRounds <= s.maxRounds <= MaxRoundsLimit
    && (s.phase == Waiting ==> Lobby(s))
    && (s.phase != Waiting ==> s.gameMaster.Some? && 1 <= s.currentRound <= s.maxRounds)
    // history records are numbered from 1
    && (forall i :: 0 <= i < |s.history| ==> s.history[i].round == i + 1)
    // one vote per voter, and none by the game master
    && (forall v :: Occurrences(s.votes, v) <= 1)
    && (s.gameMaster.Some? ==> Occurrences(s.votes, s.gameMaster.value) == 0)
  }

  /** One history record per closed round. */
  predicate HistoryMatchesRound(s: State) {
    && (InRound(s.phase) ==> |s.history| == s.currentRound - 1)
    && (s.phase == Ended ==> s.currentRound - 1 <= |s.history| <= s.currentRound)
  }

  /** The session invariant: the core facts, one pending deadline (the one the current
      phase armed), and one history record per closed round. */
  ghost predicate Inv(s: State) {
    && Core(s)
    && s.timer == ArmedTimer(s.phase, s.currentRound, s.maxRounds)
    && HistoryMatchesRound(s)
  }

  lemma InitialInv()
    ensures Inv(InitialState())
  {
  }

  lemma ResetInv(n: nat)
    ensures Inv(ResetState(n))
  {
  }

  lemma EndRoundInv(s: State)
    requires Core(s) && s.phase in {Submitting, Voting} && |s.history| == s.currentRound - 1
    ensures Inv(EndRound(s).next)
    ensures EndRound(s).next.phase == Results
  {
    var c := Credited(s.players, s.votes);
    forall p | p in c.vals ensures c.vals[p].id == p && c.vals[p].isGM == s.players.vals[p].isGM {
      CreditedPoints(s.players, s.votes, p);
    }
  }

  /**
   * Closing a round keeps the invariant: after the last round the game ends,
   * with the leaderboard and the history announced; otherwise the round
   * number goes up and the next prompt phase opens, nothing else changing.
   */
  lemma AdvanceInv(t: State)
    requires Core(t) && t.phase in {Results, Commenting} && |t.history| == t.currentRound
    requires t.timer == None || t.currentRound >= t.maxRounds
    ensures Inv(Advance(t).next)
    ensures t.currentRound >= t.maxRounds ==>
      && Advance(t).next == t.(timer := None, phase := Ended, pendingResets := t.pendingResets + 1)
      && Advance(t).notice == GameEnded(Leaderboard(t.players), WinnerOf(Leaderboard(t.players)), t.history, None)
    ensures t.currentRound < t.maxRounds ==>
      && Advance(t).next == t.(currentRound := t.currentRound + 1, phase := Prompt)
      && Advance(t).next.timer == None && Advance(t).notice == Silent
  {
  }

  lemma JoinInv(s: State, sender: Id, name: string, emoji: string, wantsGM: bool)
    requires Inv(s)
    ensures Inv(Join(s, sender, name, emoji, wantsGM).next)
  {
    if wantsGM && s.gameMaster == None {
      assert s.phase == Waiting;
    }
  }

  lemma StartGameInv(s: State, sender: Id, req: RoundsRequest)
    requires Inv(s)
    ensures Inv(StartGame(s, sender, req).next)
  {
  }

  lemma SubmitPromptInv(s: State, sender: Id, prompt: string)
    requires Inv(s)
    ensures Inv(SubmitPrompt(s, sender, prompt).next)
  {
  }

  lemma SubmitGifInv(s: State, sender: Id, url: string, previewUrl: string)
    requires Inv(s)
    ensures Inv(SubmitGif(s, sender, url, previewUrl).next)
  {
    if s.phase == Submitting && s.gameMaster != Some(sender) {
      var s1 := s.(gifs := s.gifs.Put(sender, MakeGif(url, previewUrl)));
      assert Core(s1);
    }
  }

  lemma CastVoteInv(s: State, sender: Id, target: Id)
    requires Inv(s)
    ensures Inv(CastVote(s, sender, target).next)
  {
    if s.phase == Voting && target != sender && s.gameMaster != Some(sender) {
      var s1 := s.(votes := Recast(s.votes, sender, target));
      forall v ensures Occurrences(s1.votes, v) <= 1 {
        RecastSingleBallot(s.votes, sender, target, v);
      }
      RecastSingleBallot(s.votes, sender, target, s.gameMaster.value);
      assert Core(s1);
      if TotalVotes(s1.votes) == NonGMCount(s1) {
        EndRoundInv(s1);
      }
    }
  }

  lemma StartCommentingInv(s: State, sender: Id)
    requires Inv(s)
    ensures Inv(StartCommenting(s, sender).next)
  {
  }

  lemma NextRoundInv(s: State, sender: Id)
    requires Inv(s)
    ensures Inv(NextRound(s, sender).next)
  {
    if s.gameMaster == Some(sender) && s.phase == Results {
      var rec := RoundRecordOf(s.currentRound, s.currentPrompt, s.players, s.gifs, s.votes, EmptyDict());
      AdvanceInv(s.(history := s.history + [rec]));
    }
  }

  lemma SaveRoundInv(s: State)
    requires Core(s) && s.phase == Commenting && |s.history| == s.currentRound - 1
    ensures Inv(SaveRoundAndAdvance(s).next)
  {
    var rec := RoundRecordOf(s.currentRound, s.currentPrompt, s.players, s.gifs, s.votes, s.comments);
    AdvanceInv(s.(timer := None, history := s.history + [rec]));
  }

  lemma SubmitCommentInv(s: State, sender: Id, comment: Comment)
    requires Inv(s)
    ensures Inv(SubmitComment(s, sender, comment).next)
  {
    if s.phase == Commenting && s.gameMaster != Some(sender) {
      var s1 := s.(comments := s.comments.Put(sender, comment));
      assert Core(s1);
      if |s1.comments.keys| == NonGMCount(s1) {
        SaveRoundInv(s1);
      }
    }
  }

  /** A regular player leaving keeps the invariant. */
  lemma PurgeInv(s: State, sender: Id)
    requires Inv(s) && sender in s.players.vals && !s.players.vals[sender].isGM
    ensures Inv(Disconnect(s, sender).next)
  {
    var n := Disconnect(s, sender).next;
    assert n.votes == WithoutVoter(s.votes, sender);
    forall v ensures Occurrences(n.votes, v) <= Occurrences(s.votes, v) {
      WithoutVoterCounts(s.votes, sender, v);
    }
    assert forall p :: p in n.players.vals ==> p in s.players.vals && n.players.vals[p] == s.players.vals[p];
    if s.phase == Waiting {
      assert n.gifs == EmptyDict();
      assert n.comments == EmptyDict();
      assert n.votes == EmptyDict();
    }
  }

  lemma DisconnectInv(s: State, sender: Id)
    requires Inv(s)
    ensures Inv(Disconnect(s, sender).next)
  {
    if sender in s.players.vals && !s.players.vals[sender].isGM {
      PurgeInv(s, sender);
    }
  }

  lemma TimeoutInv(s: State)
    requires Inv(s)
    ensures Inv(Timeout(s).next)
  {
    match s.timer
    case None =>
    case Some(kind) =>
      var s0 := s.(timer := None);
      match kind
      case SubmitDeadline =>
        if |s0.gifs.keys| == 0 { EndRoundInv(s0); }
      case VoteDeadline => EndRoundInv(s0);
      case FinalResultsDeadline =>
      case CommentDeadline => SaveRoundInv(s0);
  }

  lemma ResetTimeoutInv(s: State)
    requires Inv(s)
    ensures Inv(ResetTimeout(s).next)
  {
  }

  /** Every handler keeps the invariant. */
  lemma HandleInv(s: State, e: Event)
    requires Inv(s)
    ensures Inv(Handle(s, e).next)
  {
    if e.PlayerJoin? || e.GameStart? || e.PromptSubmit? || e.GifSubmit? || e.VoteCast? {
      HandleInvEarly(s, e);
    } else {
      HandleInvLate(s, e);
    }
  }

  /** The lobby, start, prompt, GIF and vote events keep the invariant. */
  lemma HandleInvEarly(s: State, e: Event)
    requires Inv(s) && (e.PlayerJoin? || e.GameStart? || e.PromptSubmit? || e.GifSubmit? || e.VoteCast?)
    ensures Inv(Handle(s, e).next)
  {
    match e
    case PlayerJoin(sender, name, emoji, wantsGM) =>
      assert Handle(s, e) == Join(s, sender, name, emoji, wantsGM);
      JoinInv(s, sender, name, emoji, wantsGM);
    case GameStart(sender, rounds) =>
      assert Handle(s, e) == StartGame(s, sender, rounds);
      StartGameInv(s, sender, rounds);
    case PromptSubmit(sender, prompt) =>
      assert Handle(s, e) == SubmitPrompt(s, sender, prompt);
      SubmitPromptInv(s, sender, prompt);
    case GifSubmit(sender, url, previewUrl) =>
      assert Handle(s, e) == SubmitGif(s, sender, url, previewUrl);
      SubmitGifInv(s, sender, url, previewUrl);
    case VoteCast(sender, target) =>
      assert Handle(s, e) == CastVote(s, sender, target);
      CastVoteInv(s, sender, target);
    case _ =>
      assert false;
  }

  /** The later events and the timers keep the invariant. */
  lemma HandleInvLate(s: State, e: Event)
    requires Inv(s) && (!(e.PlayerJoin? || e.GameStart? || e.PromptSubmit? || e.GifSubmit? || e.VoteCast?))
    ensures Inv(Handle(s, e).next)
  {
    match e
    case CommentingStart(sender) =>
      assert Handle(s, e) == StartCommenting(s, sender);
      StartCommentingInv(s, sender);
    case RoundNext(sender) =>
      assert Handle(s, e) == NextRound(s, sender);
      NextRoundInv(s, sender);
    case CommentSubmit(sender, comment) =>
      assert Handle(s, e) == SubmitComment(s, sender, comment);
      SubmitCommentInv(s, sender, comment);
    case Disconnected(sender) =>
      assert Handle(s, e) == Disconnect(s, sender);
      DisconnectInv(s, sender);
    case TimerFired =>
      assert Handle(s, e) == Timeout(s);
      TimeoutInv(s);
    case ResetTimerFired =>
      assert Handle(s, e) == ResetTimeout(s);
      ResetTimeoutInv(s);
    case _ =>
      assert false;
  }

  /** The state after handling `events` in order. */
  function Run(s: State, events: seq<Event>): State
    requires Inv(s)
    decreases |events|
  {
    if events == [] then s
    else
      HandleInv(s, events[0]);
      Run(Handle(s, events[0]).next, events[1..])
  }

  /** Every state the server can reach from its start satisfies the invariant. */
  lemma {:induction false} RunInv(s: State, events: seq<Event>)
    requires Inv(s)
    ensures Inv(Run(s, events))
    decreases |events|
  {
    if events != [] {
      HandleInv(s, events[0]);
      RunInv(Handle(s, events[0]).next, events[1..]);
    }
  }
}
