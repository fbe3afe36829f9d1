/**
 * The round record appended to the game history when a round is closed,
 * either after the commenting phase or when the game master skips it.
 */
module History {
  import opened Collections
  import opened Entities
  import opened Ballots
  import opened Sorting

  datatype CommentKind = VoteComment | OwnComment

  /** A comment attached to a GIF of the record. */
  datatype CommentRecord = CommentRecord(authorId: Id, authorName: string, text: string, kind: CommentKind)

  /** A GIF of the record: its owner, the votes it received and its comments. */
  datatype GifRecord = GifRecord(playerId: Id, playerName: string, playerEmoji: string,
                                 url: string, previewUrl: string, votes: nat,
                                 comments: seq<CommentRecord>)

  datatype RoundRecord = RoundRecord(round: nat, prompt: string, gifs: seq<GifRecord>)

  /** `players[id]?.name || fallback` */
  function NameOr(players: Dict<Player>, id: Id, fallback: string): string {
    if id in players.vals && players.vals[id].name != "" then players.vals[id].name else fallback
  }

  /** `players[id]?.emoji || fallback` */
  function EmojiOr(players: Dict<Player>, id: Id, fallback: string): string {
    if id in players.vals && players.vals[id].emoji != "" then players.vals[id].emoji else fallback
  }

  /**
   * The comments the authors in `authors` left on GIF `g`, in author order:
   * an author's vote comment when they name `g` as the GIF they voted for,
   * then their own-GIF comment when they name `g` as their own; empty
   * comments are skipped.
   */
  function CommentsOn(g: Id, authors: seq<Id>, comments: Dict<Comment>, players: Dict<Player>): seq<CommentRecord>
  {
    if authors == [] then []
    else
      var o := authors[|authors| - 1];
      CommentsOn(g, authors[..|authors| - 1], comments, players) + CommentsBy(g, o, comments, players)
  }

  /** The comments one author left on GIF `g` (none, one or two). */
  function CommentsBy(g: Id, o: Id, comments: Dict<Comment>, players: Dict<Player>): (r: seq<CommentRecord>)
    ensures |r| <= 2
  {
    if o !in comments.vals then []
    else
      var c := comments.vals[o];
      (if c.votedGifId == Some(g) && c.voteComment != ""
       then [CommentRecord(o, NameOr(players, o, AnonymousName), c.voteComment, VoteComment)] else [])
      + (if c.ownGifId == Some(g) && c.ownComment != ""
         then [CommentRecord(o, NameOr(players, o, AnonymousName), c.ownComment, OwnComment)] else [])
  }

  /** The history entry for the GIF submitted by `g`. */
  function GifEntry(g: Id, gif: Gif, players: Dict<Player>, votes: Votes, cs: seq<CommentRecord>): GifRecord {
    GifRecord(g, NameOr(players, g, UnknownName), EmojiOr(players, g, DefaultEmoji),
              gif.url, gif.previewUrl, VotesFor(votes, g), cs)
  }

  /** The entries for the GIFs submitted under `keys`, in that order, before sorting. */
  function GifEntries(keys: seq<Id>, gifs: Dict<Gif>, players: Dict<Player>, votes: Votes,
                      comments: Dict<Comment>): (r: seq<GifRecord>)
    ensures |r| <= |keys|
  {
    if keys == [] then []
    else
      var g := keys[|keys| - 1];
      GifEntries(keys[..|keys| - 1], gifs, players, votes, comments)
        + (if g in gifs.vals
           then [GifEntry(g, gifs.vals[g], players, votes, CommentsOn(g, comments.keys, comments, players))]
           else [])
  }

  /** The sort key of the GIFs of a record. */
  function VotesKey(e: GifRecord): int {
    e.votes
  }

  /** The record of a closed round: its GIFs sorted by descending votes (stable). */
  function RoundRecordOf(round: nat, prompt: string, players: Dict<Player>, gifs: Dict<Gif>,
                         votes: Votes, comments: Dict<Comment>): RoundRecord
  {
    RoundRecord(round, prompt, SortDesc(GifEntries(gifs.keys, gifs, players, votes, comments), VotesKey))
  }

  /** The entry a record holds for `e.playerId`, given the state it was built from. */
  predicate RecordOk(e: GifRecord, gifs: Dict<Gif>, players: Dict<Player>, votes: Votes, comments: Dict<Comment>) {
    && e.playerId in gifs.vals
    && e == GifEntry(e.playerId, gifs.vals[e.playerId], players, votes,
                     CommentsOn(e.playerId, comments.keys, comments, players))
  }

  function RecordIds(r: seq<GifRecord>): (ids: seq<Id>)
    ensures |ids| == |r| && forall i :: 0 <= i < |r| ==> ids[i] == r[i].playerId
  {
    seq(|r|, i requires 0 <= i < |r| => r[i].playerId)
  }

  lemma {:induction false} GifEntriesShape(keys: seq<Id>, gifs: Dict<Gif>, players: Dict<Player>,
                                           votes: Votes, comments: Dict<Comment>)
    requires forall k :: k in keys ==> k in gifs.vals
    ensures var r := GifEntries(keys, gifs, players, votes, comments);
      && RecordIds(r) == keys
      && forall i :: 0 <= i < |r| ==> RecordOk(r[i], gifs, players, votes, comments)
  {
    if keys != [] {
      GifEntriesShape(keys[..|keys| - 1], gifs, players, votes, comments);
    }
  }

  /** A permutation of a list of distinct elements has distinct elements. */
  lemma PermutationDistinct<T>(a: seq<T>, b: seq<T>)
    requires multiset(a) == multiset(b) && Distinct(b)
    ensures Distinct(a)
  {
    forall i, j | 0 <= i < j < |a| ensures a[i] != a[j] {
      if a[i] == a[j] {
        assert a == a[..i] + [a[i]] + a[i + 1..j] + [a[j]] + a[j + 1..];
        assert multiset(a)[a[i]] >= 2;
        DistinctOnce(b, a[i]);
        assert false;
      }
    }
  }

  /** Reordering records keeps their ids. */
  lemma PermutedIdsSame(a: seq<GifRecord>, b: seq<GifRecord>)
    requires multiset(a) == multiset(b)
    ensures forall id :: id in RecordIds(a) <==> id in RecordIds(b)
  {
    forall i | 0 <= i < |a| ensures a[i].playerId in RecordIds(b) {
      assert a[i] in multiset(b);
      var k :| 0 <= k < |b| && b[k] == a[i];
      assert RecordIds(b)[k] == a[i].playerId;
    }
    forall k | 0 <= k < |b| ensures b[k].playerId in RecordIds(a) {
      assert b[k] in multiset(a);
      var i :| 0 <= i < |a| && a[i] == b[k];
      assert RecordIds(a)[i] == b[k].playerId;
    }
  }

  /** Reordering records with distinct ids keeps them distinct. */
  lemma PermutedIdsDistinct(a: seq<GifRecord>, b: seq<GifRecord>)
    requires multiset(a) == multiset(b) && Distinct(RecordIds(b))
    ensures Distinct(RecordIds(a))
  {
    assert Distinct(b) by {
      forall i, j | 0 <= i < j < |b| ensures b[i] != b[j] {
        assert RecordIds(b)[i] != RecordIds(b)[j];
      }
    }
    PermutationDistinct(a, b);
    forall i, j | 0 <= i < j < |a| ensures RecordIds(a)[i] != RecordIds(a)[j] {
      assert a[i] in multiset(b) && a[j] in multiset(b);
      var k :| 0 <= k < |b| && b[k] == a[i];
      var l :| 0 <= l < |b| && b[l] == a[j];
      assert RecordIds(b)[k] == a[i].playerId && RecordIds(b)[l] == a[j].playerId;
    }
  }

  /** What a permutation of the unsorted entries keeps: every entry is right and every GIF is there once. */
  lemma {:induction false} PermutedEntries(sorted: seq<GifRecord>, gifs: Dict<Gif>, players: Dict<Player>,
                                           votes: Votes, comments: Dict<Comment>)
    requires gifs.Wf()
    requires multiset(sorted) == multiset(GifEntries(gifs.keys, gifs, players, votes, comments))
    ensures Distinct(RecordIds(sorted))
    ensures forall id :: id in RecordIds(sorted) <==> id in gifs.vals
    ensures forall i :: 0 <= i < |sorted| ==> RecordOk(sorted[i], gifs, players, votes, comments)
  {
    var entries := GifEntries(gifs.keys, gifs, players, votes, comments);
    GifEntriesShape(gifs.keys, gifs, players, votes, comments);
    PermutedIdsSame(sorted, entries);
    PermutedIdsDistinct(sorted, entries);
    forall i | 0 <= i < |sorted| ensures RecordOk(sorted[i], gifs, players, votes, comments) {
      assert sorted[i] in multiset(entries);
    }
  }

  /**
   * A round record lists every submitted GIF exactly once, with its owner's
   * vote count `votes[id]?.length || 0` and the comments addressed to it,
   * sorted by descending votes.
   */
  lemma RoundRecordContents(round: nat, prompt: string, players: Dict<Player>, gifs: Dict<Gif>,
                            votes: Votes, comments: Dict<Comment>)
    requires gifs.Wf()
    ensures var rec := RoundRecordOf(round, prompt, players, gifs, votes, comments);
      && rec.round == round && rec.prompt == prompt
      && |rec.gifs| == |gifs.keys|
      && Distinct(RecordIds(rec.gifs))
      && (forall id :: id in RecordIds(rec.gifs) <==> id in gifs.vals)
      && (forall i :: 0 <= i < |rec.gifs| ==> RecordOk(rec.gifs[i], gifs, players, votes, comments))
      && (forall i :: 0 <= i < |rec.gifs| ==> rec.gifs[i].votes == VotesFor(votes, rec.gifs[i].playerId))
      && SortedDesc(rec.gifs, VotesKey)
  {
    var entries := GifEntries(gifs.keys, gifs, players, votes, comments);
    GifEntriesShape(gifs.keys, gifs, players, votes, comments);
    PermutedEntries(SortDesc(entries, VotesKey), gifs, players, votes, comments);
  }

  /** A comment on `g` comes from a listed author who addressed `g` with a non-empty text, and each such text is there. */
  lemma {:induction false} CommentsOnContents(g: Id, authors: seq<Id>, comments: Dict<Comment>, players: Dict<Player>)
    ensures var cs := CommentsOn(g, authors, comments, players);
      && (forall c :: c in cs ==>
            && c.authorId in authors && c.authorId in comments.vals
            && c.authorName == NameOr(players, c.authorId, AnonymousName)
            && (c.kind == VoteComment ==>
                  comments.vals[c.authorId].votedGifId == Some(g) && c.text == comments.vals[c.authorId].voteComment != "")
            && (c.kind == OwnComment ==>
                  comments.vals[c.authorId].ownGifId == Some(g) && c.text == comments.vals[c.authorId].ownComment != ""))
      && (forall o :: o in authors && o in comments.vals ==>
            var d := comments.vals[o];
            && (d.votedGifId == Some(g) && d.voteComment != "" ==>
                  CommentRecord(o, NameOr(players, o, AnonymousName), d.voteComment, VoteComment) in cs)
            && (d.ownGifId == Some(g) && d.ownComment != "" ==>
                  CommentRecord(o, NameOr(players, o, AnonymousName), d.ownComment, OwnComment) in cs))
  {
    if authors != [] {
      var init := authors[..|authors| - 1];
      assert authors == init + [authors[|authors| - 1]];
      CommentsOnContents(g, init, comments, players);
    }
  }

  /** Skipping the commenting phase records every GIF with an empty comment list. */
  lemma {:induction false} NoCommentsRecorded(round: nat, prompt: string, players: Dict<Player>, gifs: Dict<Gif>, votes: Votes)
    ensures forall e :: e in RoundRecordOf(round, prompt, players, gifs, votes, EmptyDict()).gifs ==> e.comments == []
  {
    var entries := GifEntries(gifs.keys, gifs, players, votes, EmptyDict());
    NoCommentsEntries(gifs.keys, gifs, players, votes);
    forall e | e in SortDesc(entries, VotesKey) ensures e.comments == [] {
      assert e in multiset(entries);
    }
  }

  lemma {:induction false} NoCommentsEntries(keys: seq<Id>, gifs: Dict<Gif>, players: Dict<Player>, votes: Votes)
    ensures forall e :: e in GifEntries(keys, gifs, players, votes, EmptyDict()) ==> e.comments == []
  {
    if keys != [] {
      NoCommentsEntries(keys[..|keys| - 1], gifs, players, votes);
    }
  }
}
