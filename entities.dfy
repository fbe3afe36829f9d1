/**
 * The records the game server keeps: players, submitted GIFs, comments,
 * the phase of the session and the kinds of deadline timer it arms.
 */
module Entities {
  import opened Collections

  /** A socket id: every player, GIF, vote list and comment is keyed by one. */
  type Id = string

  datatype Phase = Waiting | Prompt | Submitting | Voting | Results | Commenting | Ended

  /** A registered participant; `isGM` marks the game master. */
  datatype Player = Player(id: Id, name: string, emoji: string, points: nat, isGM: bool)

  /** A submitted GIF. */
  datatype Gif = Gif(url: string, previewUrl: string)

  /**
   * What a player sends in the commenting phase: a comment on the GIF they
   * voted for and one on their own GIF. An empty string stands for a missing
   * or empty comment, `None` for a missing GIF id.
   */
  datatype Comment = Comment(votedGifId: Option<Id>, voteComment: string,
                             ownGifId: Option<Id>, ownComment: string)

  /** The callback held in the session's one timer slot. */
  datatype TimerKind =
    | SubmitDeadline        // 60 s to submit, then voting starts
    | VoteDeadline          // 60 s to vote, then the round ends
    | FinalResultsDeadline  // 45 s on the results of the last round, then the game ends
    | CommentDeadline       // 90 s to comment, then the round is saved

  /** The round count a new session starts with and falls back to. */
  const DefaultMaxRounds: nat := 10
  const MinRounds: nat := 1
  const MaxRoundsLimit: nat := 50

  /** Display fallbacks used in round records for players who have left. */
  const UnknownName := "Unknown"
  const DefaultEmoji := "\U{1F600}"
  const AnonymousName := "Anonymous"
}
