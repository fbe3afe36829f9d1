/**
 * Scoring at the end of a round and at the end of the game: points credited
 * from the vote map, the per-round result list, the leaderboard and the
 * winner (or tie) rule.
 */
module Scoring {
  import opened Collections
  import opened Entities
  import opened Ballots
  import opened Sorting

  type Players = Dict<Player>

  /** `getPlayersList()`: the players in registration order. */
  function PlayersList(players: Players): (r: seq<Player>)
    requires players.Wf()
    ensures |r| == |players.keys|
    ensures forall i :: 0 <= i < |r| ==> r[i] == players.vals[players.keys[i]]
  {
    seq(|players.keys|, i requires 0 <= i < |players.keys| => players.vals[players.keys[i]])
  }

  /** The sort key of a leaderboard. */
  function Points(p: Player): int {
    p.points
  }

  /** `getPlayersList().sort((a, b) => b.points - a.points)` */
  function Leaderboard(players: Players): (r: seq<Player>)
    requires players.Wf()
    ensures multiset(r) == multiset(PlayersList(players))
    ensures SortedDesc(r, Points)
  {
    SortDesc(PlayersList(players), Points)
  }

  /** Every registered player gains one point per voter in the list stored under their id. */
  function Credited(players: Players, votes: Votes): (r: Players)
    requires players.Wf()
    ensures r.Wf() && r.keys == players.keys
  {
    Dict(players.keys, map p | p in players.vals ::
      players.vals[p].(points := players.vals[p].points + VotesFor(votes, p)))
  }

  /** Crediting changes the points of vote targets only, by the size of their voter lists, and nothing else. */
  lemma CreditedPoints(players: Players, votes: Votes, p: Id)
    requires players.Wf()
    ensures p in Credited(players, votes).vals <==> p in players.vals
    ensures p in players.vals ==>
      var before, after := players.vals[p], Credited(players, votes).vals[p];
      && after.points == before.points + VotesFor(votes, p)
      && after.(points := before.points) == before
    ensures p in players.vals && p !in votes.vals ==> Credited(players, votes).vals[p] == players.vals[p]
  {
  }

  // ---------------------------------------------------------------------------
  // The result list broadcast with `phase:results`

  /** One line of the results: the player, their GIF if any, and the votes it received. */
  datatype ResultEntry = ResultEntry(playerId: Id, playerName: string, playerEmoji: string,
                                     gif: Option<Gif>, votes: nat)

  function EntryFor(id: Id, players: Players, gifs: Dict<Gif>, count: nat): ResultEntry
    requires id in players.vals
  {
    ResultEntry(id, players.vals[id].name, players.vals[id].emoji,
                if id in gifs.vals then Some(gifs.vals[id]) else None, count)
  }

  /** The first pass: one entry per listed vote target that is still registered. */
  function VotedEntries(keys: seq<Id>, players: Players, gifs: Dict<Gif>, votes: Votes): seq<ResultEntry>
  {
    if keys == [] then []
    else
      var k := keys[|keys| - 1];
      VotedEntries(keys[..|keys| - 1], players, gifs, votes)
        + (if k in players.vals then [EntryFor(k, players, gifs, VotesFor(votes, k))] else [])
  }

  /** The second pass: registered submitters that have no entry yet, with 0 votes. */
  function UnvotedEntries(keys: seq<Id>, players: Players, gifs: Dict<Gif>, votes: Votes): seq<ResultEntry>
  {
    if keys == [] then []
    else
      var k := keys[|keys| - 1];
      UnvotedEntries(keys[..|keys| - 1], players, gifs, votes)
        + (if k in players.vals && k !in votes.vals then [EntryFor(k, players, gifs, 0)] else [])
  }

  /** The `results` list of `endRound`, in the order its entries are created. */
  function RoundResults(players: Players, gifs: Dict<Gif>, votes: Votes): seq<ResultEntry>
  {
    VotedEntries(votes.keys, players, gifs, votes) + UnvotedEntries(gifs.keys, players, gifs, votes)
  }

  /**
   * The player ids of a result list, in order. `History.RecordIds` is the same
   * projection over history entries, which are a different record type.
   */
  function ResultIds(r: seq<ResultEntry>): (ids: seq<Id>)
    ensures |ids| == |r| && forall i :: 0 <= i < |r| ==> ids[i] == r[i].playerId
  {
    seq(|r|, i requires 0 <= i < |r| => r[i].playerId)
  }

  /** The entry a pass makes for a key is the registered player's, with the given vote count. */
  predicate ResultOk(e: ResultEntry, players: Players, gifs: Dict<Gif>, votes: Votes) {
    && e.playerId in players.vals
    && e == EntryFor(e.playerId, players, gifs, VotesFor(votes, e.playerId))
  }

  lemma {:induction false} VotedEntriesShape(keys: seq<Id>, players: Players, gifs: Dict<Gif>, votes: Votes)
    requires Distinct(keys)
    ensures var r := VotedEntries(keys, players, gifs, votes);
      && Distinct(ResultIds(r))
      && (forall id :: id in ResultIds(r) <==> id in keys && id in players.vals)
      && (forall i :: 0 <= i < |r| ==> ResultOk(r[i], players, gifs, votes))
  {
    if keys != [] {
      var init := keys[..|keys| - 1];
      var k := keys[|keys| - 1];
      assert keys == init + [k];
      assert k !in init by {
        forall i | 0 <= i < |init| ensures init[i] != k {
          assert keys[i] != keys[|keys| - 1];
        }
      }
      VotedEntriesShape(init, players, gifs, votes);
      var r0 := VotedEntries(init, players, gifs, votes);
      var r := VotedEntries(keys, players, gifs, votes);
      if k in players.vals {
        assert r == r0 + [EntryFor(k, players, gifs, VotesFor(votes, k))];
        assert ResultIds(r) == ResultIds(r0) + [k];
      } else {
        assert r == r0;
      }
    }
  }

  lemma {:induction false} UnvotedEntriesShape(keys: seq<Id>, players: Players, gifs: Dict<Gif>, votes: Votes)
    requires Distinct(keys)
    ensures var r := UnvotedEntries(keys, players, gifs, votes);
      && Distinct(ResultIds(r))
      && (forall id :: id in ResultIds(r) <==> id in keys && id in players.vals && id !in votes.vals)
      && (forall i :: 0 <= i < |r| ==> ResultOk(r[i], players, gifs, votes) && r[i].votes == 0)
  {
    if keys != [] {
      var init := keys[..|keys| - 1];
      var k := keys[|keys| - 1];
      assert keys == init + [k];
      assert k !in init by {
        forall i | 0 <= i < |init| ensures init[i] != k {
          assert keys[i] != keys[|keys| - 1];
        }
      }
      UnvotedEntriesShape(init, players, gifs, votes);
      var r0 := UnvotedEntries(init, players, gifs, votes);
      var r := UnvotedEntries(keys, players, gifs, votes);
      if k in players.vals && k !in votes.vals {
        assert r == r0 + [EntryFor(k, players, gifs, 0)];
        assert ResultIds(r) == ResultIds(r0) + [k];
      } else {
        assert r == r0;
      }
    }
  }

  /**
   * The results name every still-registered player who submitted a GIF or
   * is a key of the vote map, each once, with the number of voters in their
   * list (0 when unvoted), and nobody else.
   */
  lemma RoundResultsContents(players: Players, gifs: Dict<Gif>, votes: Votes)
    requires gifs.Wf() && votes.Wf()
    ensures var r := RoundResults(players, gifs, votes);
      && Distinct(ResultIds(r))
      && (forall id :: id in ResultIds(r) <==> id in players.vals && (id in votes.vals || id in gifs.vals))
      && (forall i :: 0 <= i < |r| ==>
            && r[i].playerId in players.vals
            && r[i].votes == VotesFor(votes, r[i].playerId)
            && r[i].playerName == players.vals[r[i].playerId].name
            && (r[i].gif.Some? <==> r[i].playerId in gifs.vals)
            && (r[i].gif.Some? ==> r[i].gif.value == gifs.vals[r[i].playerId]))
  {
    var a := VotedEntries(votes.keys, players, gifs, votes);
    var b := UnvotedEntries(gifs.keys, players, gifs, votes);
    VotedEntriesShape(votes.keys, players, gifs, votes);
    UnvotedEntriesShape(gifs.keys, players, gifs, votes);
    assert ResultIds(a + b) == ResultIds(a) + ResultIds(b);
    DistinctAppend(ResultIds(a), ResultIds(b));
    EntriesOk(a, b, players, gifs, votes);
  }

  /** The entries of both passes carry their player's name, GIF and vote count. */
  lemma EntriesOk(a: seq<ResultEntry>, b: seq<ResultEntry>, players: Players, gifs: Dict<Gif>, votes: Votes)
    requires forall i :: 0 <= i < |a| ==> ResultOk(a[i], players, gifs, votes)
    requires forall i :: 0 <= i < |b| ==> ResultOk(b[i], players, gifs, votes)
    ensures forall i :: 0 <= i < |a + b| ==>
      && (a + b)[i].playerId in players.vals
      && (a + b)[i].votes == VotesFor(votes, (a + b)[i].playerId)
      && (a + b)[i].playerName == players.vals[(a + b)[i].playerId].name
      && ((a + b)[i].gif.Some? <==> (a + b)[i].playerId in gifs.vals)
      && ((a + b)[i].gif.Some? ==> (a + b)[i].gif.value == gifs.vals[(a + b)[i].playerId])
  {
    forall i | 0 <= i < |a + b| ensures ResultOk((a + b)[i], players, gifs, votes) {
      if i >= |a| {
        assert (a + b)[i] == b[i - |a|];
      }
    }
  }

  // ---------------------------------------------------------------------------
  // The winner announced with `game:ended`

  /** The winner value: nobody, one player, or every player tied at the top. */
  datatype Winner = NoWinner | Sole(player: Player) | Tie(players: seq<Player>)

  /**
   * The rule of `endGame` on a leaderboard: the top score is that of its
   * first entry (0 for an empty board); the players holding it win when it
   * is positive, a single one alone, several together.
   */
  function WinnerOf(board: seq<Player>): Winner {
    var top := if |board| > 0 then board[0].points else 0;
    var tops := if top > 0 then WithKey(board, Points, top) else [];
    if |tops| > 1 then Tie(tops)
    else if |tops| == 1 then Sole(tops[0])
    else NoWinner
  }

  /** The highest point total among `s`, 0 when `s` is empty. */
  function MaxPoints(s: seq<Player>): (m: nat)
    ensures forall p :: p in s ==> p.points <= m
    ensures |s| > 0 ==> exists p :: p in s && p.points == m
  {
    if s == [] then 0
    else
      var m := MaxPoints(s[1..]);
      assert s == [s[0]] + s[1..];
      if s[0].points >= m then s[0].points else m
  }

  /** A leaderboard begins with a player holding the highest score. */
  lemma LeaderboardTop(players: Players)
    requires players.Wf()
    ensures var board := Leaderboard(players);
      |board| > 0 ==> board[0].points == MaxPoints(PlayersList(players))
  {
    var list := PlayersList(players);
    var board := Leaderboard(players);
    if |board| > 0 {
      FirstIsLargest(board, Points);
      assert board[0] in multiset(list);
      var p :| p in list && p.points == MaxPoints(list);
      assert p in multiset(board);
      assert Points(p) <= Points(board[0]);
    }
  }

  /**
   * The winner rule stated on the players themselves: with M the highest
   * score, there is no winner exactly when M is 0; otherwise the players
   * holding M, in registration order, are the winner when there is one of
   * them and the tie when there are several.
   */
  lemma WinnerRule(players: Players)
    requires players.Wf()
    ensures var list := PlayersList(players);
      var m := MaxPoints(list);
      var tied := WithKey(list, Points, m);
      var w := WinnerOf(Leaderboard(players));
      && (w == NoWinner <==> m == 0)
      && (m > 0 ==> |tied| >= 1)
      && (m > 0 && |tied| == 1 ==> w == Sole(tied[0]))
      && (m > 0 && |tied| > 1 ==> w == Tie(tied))
      && (forall p :: p in tied <==> p in list && p.points == m)
  {
    var list := PlayersList(players);
    var board := Leaderboard(players);
    var m := MaxPoints(list);
    var tied := WithKey(list, Points, m);
    LeaderboardTop(players);
    WithKeyMembers(list, Points, m);
    SortDescStable(list, Points, m);
    if m > 0 {
      var p :| p in list && p.points == m;
      assert p in tied;
    }
    if |board| == 0 {
      assert |list| == 0;
    }
  }
}
