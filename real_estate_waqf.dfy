/** The land tokenization page in src/pages/realEstateWaqf.js: on mount it
    loads every proposal of the token contract and every connected account
    that holds land tokens. */
module RealEstateWaqf {
  import opened Wrappers
  import opened Seqs
  import opened Contract

  /** The fields of `proposals(id)` the page shows. */
  datatype WaqfProposal = WaqfProposal(
    id: nat,
    description: string,
    priceInRupiah: nat,
    supportVotes: nat,
    totalVotes: nat,
    tokenSupply: nat)

  datatype Investor = Investor(address: Address, balance: nat)

  /** The proposals for ids 1..n, in that order. The loop has no `try`:
      a read that throws for any id aborts it, so there is no list at all. */
  function ProposalsUpTo(n: nat, getProposal: nat -> Option<WaqfProposal>): Option<seq<WaqfProposal>>
  {
    if n == 0 then Some([])
    else match ProposalsUpTo(n - 1, getProposal)
      case None => None
      case Some(prefix) =>
        match getProposal(n)
        case None => None
        case Some(p) => Some(prefix + [p])
  }

  /** A list exists exactly when every read for ids 1..n succeeds, and then
      it holds one proposal per id, in ascending order of id. */
  lemma {:induction false} ProposalsUpToShape(n: nat, getProposal: nat -> Option<WaqfProposal>)
    ensures ProposalsUpTo(n, getProposal).Some? <==> forall i :: 1 <= i <= n ==> getProposal(i).Some?
    ensures ProposalsUpTo(n, getProposal).Some? ==>
      var ps := ProposalsUpTo(n, getProposal).value;
      && |ps| == n
      && forall k :: 0 <= k < n ==> getProposal(k + 1).Some? && ps[k] == getProposal(k + 1).value
  {
    if n > 0 {
      ProposalsUpToShape(n - 1, getProposal);
      if ProposalsUpTo(n, getProposal).None? && ProposalsUpTo(n - 1, getProposal).Some? {
        assert getProposal(n).None?;
      }
    }
  }

  /** Once a proposal read has failed, reading further ids does not bring a
      list back. */
  lemma {:induction false} ProposalFailureSticks(k: nat, n: nat, getProposal: nat -> Option<WaqfProposal>)
    requires k <= n
    requires ProposalsUpTo(k, getProposal).None?
    ensures ProposalsUpTo(n, getProposal).None?
  {
    if k < n {
      ProposalFailureSticks(k, n - 1, getProposal);
    }
  }

  /** Every account's `landTokenBalance` read succeeds. */
  predicate AllBalancesRead(accounts: seq<Address>, balanceOf: Address -> Option<nat>)
  {
    forall i :: 0 <= i < |accounts| ==> balanceOf(accounts[i]).Some?
  }

  function HoldsTokens(balanceOf: Address -> Option<nat>): Address -> bool
  {
    (a: Address) => balanceOf(a).Some? && balanceOf(a).value > 0
  }

  /** Each account paired with its own balance. */
  function WithBalances(accounts: seq<Address>, balanceOf: Address -> Option<nat>): (r: seq<Investor>)
    requires AllBalancesRead(accounts, balanceOf)
    ensures |r| == |accounts|
    ensures forall k :: 0 <= k < |r| ==> r[k] == Investor(accounts[k], balanceOf(accounts[k]).value)
  {
    if accounts == [] then []
    else
      var n := |accounts| - 1;
      WithBalances(accounts[..n], balanceOf) + [Investor(accounts[n], balanceOf(accounts[n]).value)]
  }

  /** The accounts with a positive balance, in account order, each with its
      balance; nothing when any balance read throws, since the loop has no
      `try` either. */
  function Investors(accounts: seq<Address>, balanceOf: Address -> Option<nat>): Option<seq<Investor>>
  {
    if AllBalancesRead(accounts, balanceOf) then
      Some(WithBalances(Filter(accounts, HoldsTokens(balanceOf)), balanceOf))
    else None
  }

  /** A list exists exactly when every balance read succeeds. Then the
      investors are no more than the accounts; investor `k` is the account at
      position `KeptIndices[k]` with that account's balance; the positions
      ascend; and an account is listed exactly when its balance is positive. */
  lemma InvestorsShape(accounts: seq<Address>, balanceOf: Address -> Option<nat>)
    ensures Investors(accounts, balanceOf).Some? <==>
      forall i :: 0 <= i < |accounts| ==> balanceOf(accounts[i]).Some?
    ensures Investors(accounts, balanceOf).Some? ==>
      var r, idx := Investors(accounts, balanceOf).value, KeptIndices(accounts, HoldsTokens(balanceOf));
      && |r| == |idx| <= |accounts|
      && StrictlyIncreasing(idx)
      && (forall k :: 0 <= k < |r| ==>
            idx[k] < |accounts| && r[k] == Investor(accounts[idx[k]], balanceOf(accounts[idx[k]]).value) && r[k].balance > 0)
      && (forall i :: 0 <= i < |accounts| ==> (i in idx <==> balanceOf(accounts[i]).value > 0))
  {
    FilterIsSubsequence(accounts, HoldsTokens(balanceOf));
  }

  /** Reading one more balance extends the investor list by that account
      exactly when its balance is positive. */
  lemma InvestorsStep(accounts: seq<Address>, balanceOf: Address -> Option<nat>)
    requires |accounts| > 0
    requires Investors(accounts[..|accounts| - 1], balanceOf).Some?
    requires balanceOf(accounts[|accounts| - 1]).Some?
    ensures var last := accounts[|accounts| - 1];
      var b := balanceOf(last).value;
      && (b > 0 ==> Investors(accounts, balanceOf) ==
                     Some(Investors(accounts[..|accounts| - 1], balanceOf).value + [Investor(last, b)]))
      && (b == 0 ==> Investors(accounts, balanceOf) == Investors(accounts[..|accounts| - 1], balanceOf))
  {
    var n := |accounts| - 1;
    var init, last := accounts[..n], accounts[n];
    var holds := HoldsTokens(balanceOf);
    assert AllBalancesRead(init, balanceOf);
    assert AllBalancesRead(accounts, balanceOf) by {
      forall i | 0 <= i < |accounts|
        ensures balanceOf(accounts[i]).Some?
      {
        if i < n {
          assert accounts[i] == init[i];
        }
      }
    }
    var kept := Filter(init, holds);
    assert Investors(init, balanceOf) == Some(WithBalances(kept, balanceOf));
    assert Investors(accounts, balanceOf) == Some(WithBalances(Filter(accounts, holds), balanceOf));
    assert Filter(accounts, holds) == kept + (if holds(last) then [last] else []);
    assert holds(last) <==> balanceOf(last).value > 0;
    if holds(last) {
      var xs := kept + [last];
      assert xs[..|kept|] == kept && xs[|kept|] == last;
      assert WithBalances(xs, balanceOf) == WithBalances(kept, balanceOf) + [Investor(last, balanceOf(last).value)];
    } else {
      assert Filter(accounts, holds) == kept;
    }
  }

  /** The first loop of `loadBlockchainData`, stopping at the first read
      that throws. */
  method LoadProposals(proposalCount: nat, getProposal: nat -> Option<WaqfProposal>)
    returns (r: Option<seq<WaqfProposal>>)
    ensures r == ProposalsUpTo(proposalCount, getProposal)
  {
    var proposals: seq<WaqfProposal> := [];
    var i := 1;
    while i <= proposalCount
      invariant 1 <= i <= proposalCount + 1
      invariant ProposalsUpTo(i - 1, getProposal) == Some(proposals)
    {
      var proposal := getProposal(i);
      if proposal.None? {
        ProposalFailureSticks(i, proposalCount, getProposal);
        return None;
      }
      proposals := proposals + [proposal.value];
      i := i + 1;
    }
    return Some(proposals);
  }

  /** The second loop of `loadBlockchainData`, stopping at the first
      balance read that throws. */
  method CollectInvestors(accounts: seq<Address>, balanceOf: Address -> Option<nat>)
    returns (r: Option<seq<Investor>>)
    ensures r == Investors(accounts, balanceOf)
  {
    var investors: seq<Investor> := [];
    var i := 0;
    while i < |accounts|
      invariant 0 <= i <= |accounts|
      invariant Investors(accounts[..i], balanceOf) == Some(investors)
    {
      var balance := balanceOf(accounts[i]);
      if balance.None? {
        assert !AllBalancesRead(accounts, balanceOf);
        return None;
      }
      assert accounts[..i + 1][..i] == accounts[..i];
      InvestorsStep(accounts[..i + 1], balanceOf);
      if balance.value > 0 {
        investors := investors + [Investor(accounts[i], balance.value)];
      }
      i := i + 1;
    }
    assert accounts[..i] == accounts;
    return Some(investors);
  }

  /** `!CONTRACT_ADDRESS`: the address is undefined or empty. */
  predicate AddressMissing(contractAddress: Option<string>)
  {
    contractAddress.None? || contractAddress.value == ""
  }

  /** The component's state. */
  class WaqfPage {
    var account: Option<Address>
    var contractReady: bool
    var proposals: seq<WaqfProposal>
    var investors: seq<Investor>
    var loading: bool

    constructor ()
      ensures account == None && !contractReady && proposals == [] && investors == [] && loading
    {
      account := None;
      contractReady := false;
      proposals := [];
      investors := [];
      loading := true;
    }

    /** `loadBlockchainData`: raise `loading`, read the accounts and record
        the first, then either stop at once when the ABI is not an array or
        the address is missing, or read the count, load the proposals and
        then the investors. Nothing catches a read that throws: it aborts
        the rest, so `loading` stays raised and only the lists already set
        have changed. */
    method LoadBlockchainData(accounts: Option<seq<Address>>, abiIsArray: bool, contractAddress: Option<string>,
                              proposalCount: Option<nat>, getProposal: nat -> Option<WaqfProposal>,
                              balanceOf: Address -> Option<nat>)
      modifies this
      ensures accounts.None? ==>
        loading && account == old(account) && contractReady == old(contractReady) &&
        proposals == old(proposals) && investors == old(investors)
      ensures accounts.Some? ==>
        account == if |accounts.value| > 0 then Some(accounts.value[0]) else None
      ensures accounts.Some? && (!abiIsArray || AddressMissing(contractAddress)) ==>
        !loading && contractReady == old(contractReady) &&
        proposals == old(proposals) && investors == old(investors)
      ensures accounts.Some? && abiIsArray && !AddressMissing(contractAddress) ==>
        var loaded := if proposalCount.Some? then ProposalsUpTo(proposalCount.value, getProposal) else None;
        && contractReady
        && (loaded.None? ==> loading && proposals == old(proposals) && investors == old(investors))
        && (loaded.Some? ==> proposals == loaded.value)
        && (loaded.Some? && Investors(accounts.value, balanceOf).None? ==>
              loading && investors == old(investors))
        && (loaded.Some? && Investors(accounts.value, balanceOf).Some? ==>
              !loading && investors == Investors(accounts.value, balanceOf).value)
    {
      loading := true;
      if accounts.None? {
        return;
      }
      var all := accounts.value;
      account := if |all| > 0 then Some(all[0]) else None;
      if !abiIsArray || AddressMissing(contractAddress) {
        loading := false;
        return;
      }
      contractReady := true;
      if proposalCount.None? {
        return;
      }
      var loaded := LoadProposals(proposalCount.value, getProposal);
      if loaded.None? {
        return;
      }
      proposals := loaded.value;
      var found := CollectInvestors(all, balanceOf);
      if found.None? {
        return;
      }
      investors := found.value;
      loading := false;
    }
  }
}
