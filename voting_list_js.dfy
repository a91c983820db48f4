/** The voting page in src/pages/VotingList.js: the proposal list with its
    vote counts, the search box, and the optimistic updates after a vote or
    an execution succeeds. */
module VotingListJs {
  import opened Wrappers
  import opened Seqs
  import opened Text
  import opened Contract

  /** One card of the page. */
  datatype ProposalView = ProposalView(
    id: nat,
    title: string,
    description: string,
    votesFor: nat,
    votesAgainst: nat,
    executed: bool)

  function ToView(p: Proposal, v: Votes): ProposalView
  {
    ProposalView(p.id, p.title, p.description, v.votesFor, v.votesAgainst, p.executed)
  }

  /** The list `fetchProposals` builds from ids 1..n. The whole loop sits in
      one `try`, so a read that throws for any id yields no list at all. */
  function Fetched(n: nat, getProposal: nat -> Option<Proposal>, getVotes: nat -> Option<Votes>)
    : Option<seq<ProposalView>>
  {
    if n == 0 then Some([])
    else match Fetched(n - 1, getProposal, getVotes)
      case None => None
      case Some(prefix) =>
        match (getProposal(n), getVotes(n))
        case (Some(p), Some(v)) => Some(prefix + [ToView(p, v)])
        case _ => None
  }

  ghost predicate ReadsSucceed(i: nat, getProposal: nat -> Option<Proposal>, getVotes: nat -> Option<Votes>)
  {
    getProposal(i).Some? && getVotes(i).Some?
  }

  /** When every read succeeds the list has one card per id 1..n, in
      ascending order, each built from that id's proposal and votes; a single
      failed read anywhere in 1..n yields no list. */
  lemma {:induction false} FetchedShape(n: nat, getProposal: nat -> Option<Proposal>, getVotes: nat -> Option<Votes>)
    ensures Fetched(n, getProposal, getVotes).Some?
        <==> forall i :: 1 <= i <= n ==> ReadsSucceed(i, getProposal, getVotes)
    ensures Fetched(n, getProposal, getVotes).Some? ==>
      var rs := Fetched(n, getProposal, getVotes).value;
      && |rs| == n
      && forall k :: 0 <= k < n ==>
           ReadsSucceed(k + 1, getProposal, getVotes) &&
           rs[k] == ToView(getProposal(k + 1).value, getVotes(k + 1).value)
  {
    if n > 0 {
      FetchedShape(n - 1, getProposal, getVotes);
      if Fetched(n, getProposal, getVotes).None? && Fetched(n - 1, getProposal, getVotes).Some? {
        assert !ReadsSucceed(n, getProposal, getVotes);
      }
    }
  }

  /** Once a read has failed, reading further ids does not bring a list back. */
  lemma {:induction false} FetchFailureSticks(k: nat, n: nat, getProposal: nat -> Option<Proposal>, getVotes: nat -> Option<Votes>)
    requires k <= n
    requires Fetched(k, getProposal, getVotes).None?
    ensures Fetched(n, getProposal, getVotes).None?
  {
    if k < n {
      FetchFailureSticks(k, n - 1, getProposal, getVotes);
    }
  }

  /** `fetchProposals`: read the count, then each id 1..count in turn,
      stopping at the first read that throws. */
  method FetchProposals(count: Option<nat>, getProposal: nat -> Option<Proposal>, getVotes: nat -> Option<Votes>)
    returns (r: Option<seq<ProposalView>>)
    ensures count.None? ==> r.None?
    ensures count.Some? ==> r == Fetched(count.value, getProposal, getVotes)
  {
    if count.None? {
      return None;
    }
    var n := count.value;
    var proposals: seq<ProposalView> := [];
    var i := 1;
    while i <= n
      invariant 1 <= i <= n + 1
      invariant Fetched(i - 1, getProposal, getVotes) == Some(proposals)
    {
      var p := getProposal(i);
      var v := getVotes(i);
      if p.None? || v.None? {
        FetchFailureSticks(i, n, getProposal, getVotes);
        return None;
      }
      proposals := proposals + [ToView(p.value, v.value)];
      i := i + 1;
    }
    return Some(proposals);
  }

  /** The search filter: a card stays when its lower-cased title contains the
      lower-cased query or its id in decimal contains the raw query. */
  function Search(proposals: seq<ProposalView>, query: string): seq<ProposalView>
  {
    Filter(proposals, (p: ProposalView) => MatchesTitleOrId(p.title, p.id, query))
  }

  /** The search keeps exactly the matching cards, as a subsequence of the
      list in its own order. */
  lemma SearchKeepsMatches(proposals: seq<ProposalView>, query: string)
    ensures var r, idx := Search(proposals, query), KeptIndices(proposals, (p: ProposalView) => MatchesTitleOrId(p.title, p.id, query));
      && |r| == |idx| <= |proposals|
      && StrictlyIncreasing(idx)
      && (forall k :: 0 <= k < |r| ==> idx[k] < |proposals| && r[k] == proposals[idx[k]])
      && (forall i :: 0 <= i < |proposals| ==>
            (i in idx <==> MatchesTitleOrId(proposals[i].title, proposals[i].id, query)))
  {
    FilterIsSubsequence(proposals, (p: ProposalView) => MatchesTitleOrId(p.title, p.id, query));
  }

  /** An empty query shows every card. */
  lemma EmptySearchKeepsAll(proposals: seq<ProposalView>)
    ensures Search(proposals, "") == proposals
  {
    forall i | 0 <= i < |proposals|
      ensures MatchesTitleOrId(proposals[i].title, proposals[i].id, "")
    {
      EmptyQueryMatches(proposals[i].title, proposals[i].id);
    }
    FilterKeepsAll(proposals, (p: ProposalView) => MatchesTitleOrId(p.title, p.id, ""));
  }

  function CastVote(p: ProposalView, support: bool): ProposalView
  {
    if support then p.(votesFor := p.votesFor + 1) else p.(votesAgainst := p.votesAgainst + 1)
  }

  /** The optimistic update after a successful vote: the card whose id is
      `id` gains one vote on the chosen side; every other card stays. */
  function ApplyVote(proposals: seq<ProposalView>, id: nat, support: bool): (r: seq<ProposalView>)
    ensures |r| == |proposals|
    ensures forall k :: 0 <= k < |r| && proposals[k].id != id ==> r[k] == proposals[k]
    ensures forall k :: 0 <= k < |r| && proposals[k].id == id ==>
      && r[k].votesFor == proposals[k].votesFor + (if support then 1 else 0)
      && r[k].votesAgainst == proposals[k].votesAgainst + (if support then 0 else 1)
      && r[k].(votesFor := 0, votesAgainst := 0) == proposals[k].(votesFor := 0, votesAgainst := 0)
  {
    if proposals == [] then []
    else
      var n := |proposals| - 1;
      var p := proposals[n];
      ApplyVote(proposals[..n], id, support) + [if p.id == id then CastVote(p, support) else p]
  }

  /** The optimistic update after a successful execution: the card whose id
      is `id` is marked executed; nothing else changes. */
  function ApplyExecute(proposals: seq<ProposalView>, id: nat): (r: seq<ProposalView>)
    ensures |r| == |proposals|
    ensures forall k :: 0 <= k < |r| && proposals[k].id != id ==> r[k] == proposals[k]
    ensures forall k :: 0 <= k < |r| && proposals[k].id == id ==> r[k] == proposals[k].(executed := true)
  {
    if proposals == [] then []
    else
      var n := |proposals| - 1;
      var p := proposals[n];
      ApplyExecute(proposals[..n], id) + [if p.id == id then p.(executed := true) else p]
  }

  /** Executing the same proposal twice shows the same list as once. */
  lemma ExecuteIdempotent(proposals: seq<ProposalView>, id: nat)
    ensures ApplyExecute(ApplyExecute(proposals, id), id) == ApplyExecute(proposals, id)
  {
  }

  /** How many cards carry `id`. */
  function CountId(proposals: seq<ProposalView>, id: nat): nat
  {
    if proposals == [] then 0
    else CountId(proposals[..|proposals| - 1], id) + (if proposals[|proposals| - 1].id == id then 1 else 0)
  }

  /** All ballots shown on the page. */
  function Ballots(proposals: seq<ProposalView>): nat
  {
    if proposals == [] then 0
    else
      var p := proposals[|proposals| - 1];
      Ballots(proposals[..|proposals| - 1]) + p.votesFor + p.votesAgainst
  }

  /** A vote adds one ballot per card carrying the id; `UniqueIdCountsOnce`
      says how many cards that is when ids are unique. */
  lemma {:induction false} VoteAddsOneBallotPerMatch(proposals: seq<ProposalView>, id: nat, support: bool)
    ensures Ballots(ApplyVote(proposals, id, support)) == Ballots(proposals) + CountId(proposals, id)
  {
    if proposals != [] {
      var n := |proposals| - 1;
      VoteAddsOneBallotPerMatch(proposals[..n], id, support);
      var r := ApplyVote(proposals, id, support);
      assert r[..n] == ApplyVote(proposals[..n], id, support);
    }
  }

  /** No two cards carry the same id. */
  ghost predicate UniqueIds(proposals: seq<ProposalView>)
  {
    forall i, j :: 0 <= i < j < |proposals| ==> proposals[i].id != proposals[j].id
  }

  /** With unique ids, a card with the id is counted once and a missing id
      not at all; so a vote adds exactly one ballot when the voted card is
      listed and none when it is not. */
  lemma {:induction false} UniqueIdCountsOnce(proposals: seq<ProposalView>, id: nat)
    requires UniqueIds(proposals)
    ensures CountId(proposals, id) == if exists k :: 0 <= k < |proposals| && proposals[k].id == id then 1 else 0
  {
    if proposals != [] {
      var n := |proposals| - 1;
      var init := proposals[..n];
      assert UniqueIds(init) by {
        forall i, j | 0 <= i < j < |init|
          ensures init[i].id != init[j].id
        {
          assert init[i] == proposals[i] && init[j] == proposals[j];
        }
      }
      UniqueIdCountsOnce(init, id);
      if proposals[n].id == id {
        assert !exists k :: 0 <= k < |init| && init[k].id == id by {
          forall k | 0 <= k < |init|
            ensures init[k].id != id
          {
            assert init[k] == proposals[k];
          }
        }
      } else if exists k :: 0 <= k < |proposals| && proposals[k].id == id {
        var k :| 0 <= k < |proposals| && proposals[k].id == id;
        assert init[k] == proposals[k];
      } else {
        assert forall k :: 0 <= k < |init| ==> init[k] == proposals[k];
      }
    }
  }

  /** The component's state: the fetched cards, the id whose transaction is
      in flight, and the search query. The filtered list is recomputed from
      the cards and the query whenever either changes, so it is a function
      of the state rather than a field. */
  class VotingListPage {
    var proposals: seq<ProposalView>
    var loadingId: Option<nat>
    var searchQuery: string

    constructor ()
      ensures proposals == [] && loadingId == None && searchQuery == ""
    {
      proposals := [];
      loadingId := None;
      searchQuery := "";
    }

    function FilteredProposals(): seq<ProposalView>
      reads this
    {
      Search(proposals, searchQuery)
    }

    /** The mount effect: on success the cards are replaced; on any failure
        the state is left as it was. */
    method Load(count: Option<nat>, getProposal: nat -> Option<Proposal>, getVotes: nat -> Option<Votes>)
      modifies this
      ensures var r := if count.None? then None else Fetched(count.value, getProposal, getVotes);
        proposals == if r.Some? then r.value else old(proposals)
      ensures loadingId == old(loadingId) && searchQuery == old(searchQuery)
    {
      var r := FetchProposals(count, getProposal, getVotes);
      if r.Some? {
        proposals := r.value;
      }
    }

    method SetSearchQuery(query: string)
      modifies this
      ensures searchQuery == query
      ensures proposals == old(proposals) && loadingId == old(loadingId)
    {
      searchQuery := query;
    }

    /** `voteOnProposal`: mark the card busy, send the vote (`txOk` is
        whether the transaction and its receipt succeeded), apply the
        optimistic update only on success, and clear the busy id in every
        case. */
    method VoteOnProposal(id: nat, support: bool, txOk: bool)
      modifies this
      ensures proposals == if txOk then ApplyVote(old(proposals), id, support) else old(proposals)
      ensures loadingId == None
      ensures searchQuery == old(searchQuery)
    {
      loadingId := Some(id);
      if txOk {
        proposals := ApplyVote(proposals, id, support);
      }
      loadingId := None;
    }

    /** `executeProposal`, with the same busy-id discipline as a vote. */
    method ExecuteProposal(id: nat, txOk: bool)
      modifies this
      ensures proposals == if txOk then ApplyExecute(old(proposals), id) else old(proposals)
      ensures loadingId == None
      ensures searchQuery == old(searchQuery)
    {
      loadingId := Some(id);
      if txOk {
        proposals := ApplyExecute(proposals, id);
      }
      loadingId := None;
    }
  }
}
