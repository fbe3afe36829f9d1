/**
 * The vote map of a round: for every GIF id (the id of the player who
 * submitted it), the ids of the players who voted for it, in voting order.
 */
module Ballots {
  import opened Collections
  import opened Entities

  type Votes = Dict<seq<Id>>

  /** `votes[target]?.length || 0`: how many voters chose `target`. */
  function VotesFor(votes: Votes, target: Id): nat {
    if target in votes.vals then |votes.vals[target]| else 0
  }

  /** What is summed over the voter lists: their lengths, or the occurrences of one voter. */
  datatype Measure = Length | CountOf(voter: Id) {
    function Of(voters: seq<Id>): nat {
      match this
      case Length => |voters|
      case CountOf(x) => multiset(voters)[x]
    }
  }

  /** The measure summed over the lists stored under `keys`. */
  function SumIn(keys: seq<Id>, vals: map<Id, seq<Id>>, m: Measure): nat
  {
    if keys == [] then 0
    else
      var k := keys[|keys| - 1];
      SumIn(keys[..|keys| - 1], vals, m) + (if k in vals then m.Of(vals[k]) else 0)
  }

  /** `Object.values(votes).flat().length`: every voter entry of the map. */
  function TotalVotes(votes: Votes): nat {
    SumIn(votes.keys, votes.vals, Length)
  }

  /** How many times `voter` stands in the lists of the map. */
  function Occurrences(votes: Votes, voter: Id): nat {
    SumIn(votes.keys, votes.vals, CountOf(voter))
  }

  /** The voters listed under `target`, none when there is no list. */
  function VotersOf(votes: Votes, target: Id): seq<Id> {
    if target in votes.vals then votes.vals[target] else []
  }

  /** The map with `voter` filtered out of every list; every key stays, even with an empty list. */
  function WithoutVoter(votes: Votes, voter: Id): (r: Votes)
    requires votes.Wf()
    ensures r.Wf() && r.keys == votes.keys
    ensures forall t :: t in r.vals <==> t in votes.vals
    ensures forall t :: t in r.vals ==> voter !in r.vals[t]
  {
    Dict(votes.keys, map t | t in votes.vals :: Without(votes.vals[t], voter))
  }

  /** Withdrawing a voter leaves every other voter in the lists they were in, as many times as before. */
  lemma WithoutVoterLists(votes: Votes, voter: Id)
    requires votes.Wf()
    ensures forall t, x :: x != voter ==>
      multiset(VotersOf(WithoutVoter(votes, voter), t))[x] == multiset(VotersOf(votes, t))[x]
  {
    var r := WithoutVoter(votes, voter);
    forall t, x | x != voter ensures multiset(VotersOf(r, t))[x] == multiset(VotersOf(votes, t))[x] {
      if t in votes.vals {
        assert r.vals[t] == Without(votes.vals[t], voter);
        WithoutCounts(votes.vals[t], voter);
      }
    }
  }

  /** `votes[target] ||= []; votes[target].push(voter)` */
  function AddVote(votes: Votes, target: Id, voter: Id): (r: Votes)
    requires votes.Wf()
    ensures r.Wf() && target in r.vals
    ensures r.vals[target] == VotersOf(votes, target) + [voter]
    ensures |r.vals[target]| == VotesFor(votes, target) + 1
    ensures r.keys == if target in votes.vals then votes.keys else votes.keys + [target]
    ensures forall t :: t != target ==> (t in r.vals <==> t in votes.vals)
    ensures forall t :: t != target && t in r.vals ==> r.vals[t] == votes.vals[t]
  {
    var prior := if target in votes.vals then votes.vals[target] else [];
    votes.Put(target, prior + [voter])
  }

  /** The effect of `vote:cast` on the map: the earlier vote is withdrawn, the new one recorded. */
  function Recast(votes: Votes, voter: Id, target: Id): (r: Votes)
    requires votes.Wf()
    ensures r.Wf()
  {
    AddVote(WithoutVoter(votes, voter), target, voter)
  }

  /** Only the lists stored under `keys` matter to the sum. */
  lemma {:induction false} SumInFrame(keys: seq<Id>, vals: map<Id, seq<Id>>, vals': map<Id, seq<Id>>, m: Measure)
    requires forall k :: k in keys ==> (k in vals <==> k in vals')
    requires forall k :: k in keys && k in vals ==> vals[k] == vals'[k]
    ensures SumIn(keys, vals, m) == SumIn(keys, vals', m)
  {
    if keys != [] {
      SumInFrame(keys[..|keys| - 1], vals, vals', m);
    }
  }

  /** Replacing the list under one listed key changes the sum by the difference of the two lists. */
  lemma {:induction false} SumInReplace(keys: seq<Id>, vals: map<Id, seq<Id>>, k: Id, v: seq<Id>, m: Measure)
    requires Distinct(keys) && k in keys && k in vals
    ensures SumIn(keys, vals[k := v], m) + m.Of(vals[k]) == SumIn(keys, vals, m) + m.Of(v)
  {
    var init := keys[..|keys| - 1];
    var last := keys[|keys| - 1];
    if last == k {
      assert k !in init by {
        forall i | 0 <= i < |init| ensures init[i] != k {
          assert keys[i] != keys[|keys| - 1];
        }
      }
      SumInFrame(init, vals, vals[k := v], m);
    } else {
      assert keys == init + [last];
      assert k in init;
      SumInReplace(init, vals, k, v, m);
    }
  }

  /** The sum after a key is added at the end with a list of its own. */
  lemma SumInAppend(keys: seq<Id>, vals: map<Id, seq<Id>>, k: Id, v: seq<Id>, m: Measure)
    requires k !in keys
    ensures SumIn(keys + [k], vals[k := v], m) == SumIn(keys, vals, m) + m.Of(v)
  {
    assert (keys + [k])[..|keys|] == keys;
    SumInFrame(keys, vals, vals[k := v], m);
  }

  /** Filtering a voter out of every list removes exactly that voter's entries. */
  lemma {:induction false} SumInWithout(keys: seq<Id>, vals: map<Id, seq<Id>>, vals': map<Id, seq<Id>>, voter: Id, x: Id)
    requires forall k :: k in keys ==> (k in vals <==> k in vals')
    requires forall k :: k in keys && k in vals ==> vals'[k] == Without(vals[k], voter)
    ensures SumIn(keys, vals', Length) == SumIn(keys, vals, Length) - SumIn(keys, vals, CountOf(voter))
    ensures SumIn(keys, vals', CountOf(x)) == if x == voter then 0 else SumIn(keys, vals, CountOf(x))
  {
    if keys != [] {
      var k := keys[|keys| - 1];
      if k in vals {
        WithoutCounts(vals[k], voter);
      }
      SumInWithout(keys[..|keys| - 1], vals, vals', voter, x);
    }
  }

  /** A withdrawn voter stands in no list; every other voter keeps their entries. */
  lemma WithoutVoterCounts(votes: Votes, voter: Id, x: Id)
    requires votes.Wf()
    ensures Occurrences(WithoutVoter(votes, voter), x) == if x == voter then 0 else Occurrences(votes, x)
    ensures TotalVotes(WithoutVoter(votes, voter)) == TotalVotes(votes) - Occurrences(votes, voter)
  {
    var w := WithoutVoter(votes, voter);
    SumInWithout(votes.keys, votes.vals, w.vals, voter, x);
  }

  /** Withdrawing a voter takes from each GIF exactly the entries that voter had there. */
  lemma WithoutVoterTally(votes: Votes, voter: Id, t: Id)
    requires votes.Wf()
    ensures VotesFor(WithoutVoter(votes, voter), t) == VotesFor(votes, t) - multiset(VotersOf(votes, t))[voter]
  {
    if t in votes.vals {
      WithoutCounts(votes.vals[t], voter);
    }
  }

  /** Recording one more vote adds one entry, for that voter only. */
  lemma AddVoteCounts(votes: Votes, target: Id, voter: Id, x: Id)
    requires votes.Wf()
    ensures Occurrences(AddVote(votes, target, voter), x) == Occurrences(votes, x) + (if x == voter then 1 else 0)
    ensures TotalVotes(AddVote(votes, target, voter)) == TotalVotes(votes) + 1
  {
    var prior := if target in votes.vals then votes.vals[target] else [];
    var v := prior + [voter];
    assert multiset(v) == multiset(prior) + multiset{voter};
    if target in votes.vals {
      SumInReplace(votes.keys, votes.vals, target, v, CountOf(x));
      SumInReplace(votes.keys, votes.vals, target, v, Length);
    } else {
      SumInAppend(votes.keys, votes.vals, target, v, CountOf(x));
      SumInAppend(votes.keys, votes.vals, target, v, Length);
    }
  }

  /**
   * One vote per voter: after `vote:cast` the voter stands exactly once in the
   * whole map, in the target's list, and nobody else's entries change.
   */
  lemma RecastSingleBallot(votes: Votes, voter: Id, target: Id, x: Id)
    requires votes.Wf()
    ensures voter in Recast(votes, voter, target).vals[target]
    ensures Occurrences(Recast(votes, voter, target), voter) == 1
    ensures x != voter ==> Occurrences(Recast(votes, voter, target), x) == Occurrences(votes, x)
    ensures x != voter ==> forall t :: multiset(VotersOf(Recast(votes, voter, target), t))[x] == multiset(VotersOf(votes, t))[x]
    ensures forall t :: t in Recast(votes, voter, target).vals <==> t in votes.vals || t == target
    ensures Recast(votes, voter, target).keys == if target in votes.vals then votes.keys else votes.keys + [target]
  {
    var w := WithoutVoter(votes, voter);
    var r := AddVote(w, target, voter);
    assert r == Recast(votes, voter, target);
    if x != voter {
      WithoutVoterLists(votes, voter);
      forall t ensures multiset(VotersOf(r, t))[x] == multiset(VotersOf(votes, t))[x] {
        if t == target {
          assert VotersOf(r, t) == VotersOf(w, t) + [voter];
        }
      }
    }
    assert voter in r.vals[target] by {
      assert r.vals[target][|r.vals[target]| - 1] == voter;
    }
    assert Occurrences(r, voter) == 1 by {
      WithoutVoterCounts(votes, voter, voter);
      AddVoteCounts(w, target, voter, voter);
    }
    if x != voter {
      WithoutVoterCounts(votes, voter, x);
      AddVoteCounts(w, target, voter, x);
    }
  }

  /** `RecastSingleBallot` for every other voter at once. */
  lemma RecastBallots(votes: Votes, voter: Id, target: Id)
    requires votes.Wf()
    ensures var r := Recast(votes, voter, target);
      && target in r.vals && voter in r.vals[target]
      && Occurrences(r, voter) == 1
      && (forall x :: x != voter ==> Occurrences(r, x) == Occurrences(votes, x))
      && (forall t, x :: x != voter ==> multiset(VotersOf(r, t))[x] == multiset(VotersOf(votes, t))[x])
      && r.keys == (if target in votes.vals then votes.keys else votes.keys + [target])
  {
    var w := WithoutVoter(votes, voter);
    var r := Recast(votes, voter, target);
    RecastSingleBallot(votes, voter, target, voter);
    forall x | x != voter ensures Occurrences(r, x) == Occurrences(votes, x) {
      RecastSingleBallot(votes, voter, target, x);
    }
    WithoutVoterLists(votes, voter);
    forall t, x | x != voter ensures multiset(VotersOf(r, t))[x] == multiset(VotersOf(votes, t))[x] {
      if t == target {
        assert VotersOf(r, t) == VotersOf(w, t) + [voter];
      } else {
        assert VotersOf(r, t) == VotersOf(w, t);
      }
    }
  }

  /**
   * The vote total after `vote:cast` grows by one for a first vote and stays
   * the same for a changed vote (a voter holds at most one entry beforehand).
   */
  lemma RecastTotal(votes: Votes, voter: Id, target: Id)
    requires votes.Wf()
    ensures TotalVotes(Recast(votes, voter, target)) == TotalVotes(votes) - Occurrences(votes, voter) + 1
  {
    WithoutVoterCounts(votes, voter, voter);
    AddVoteCounts(WithoutVoter(votes, voter), target, voter, voter);
  }
}
