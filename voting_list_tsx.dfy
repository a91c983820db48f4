/** The TypeScript voting page in src/pages/VotingList.tsx: a list assembled
    from the proposal contract that skips empty slots and ids whose reads
    throw, a countdown to each proposal's 30-day deadline, and the search box. */
module VotingListTs {
  import opened Wrappers
  import opened Seqs
  import opened Text
  import opened Time
  import opened Contract

  /** `days`, `hours` and the third unit of the "Time left" text. */
  datatype Countdown = Countdown(days: int, hours: int, minutes: int)

  /** Milliseconds from `now` to the deadline 30 days after creation;
      negative once the deadline has passed. */
  function TimeLeftMs(creationMs: int, now: int): int
  {
    creationMs + FUNDING_WINDOW_MS - now
  }

  /** `calculateTimeLeft` as written: the third unit is the remainder modulo
      a minute divided by a second, which is the seconds within the minute.
      No clamping: once the deadline has passed no unit is positive, the
      days are still `Math.floor` of the time left in days, and the hours
      and third unit are `Math.floor` of the negative, truncated remainders
      modulo a day and modulo a minute. For a deadline still ahead the days and hours are whole days and hours
      within the day, adding up to the time left rounded down to an hour,
      and the third unit is the whole seconds within the current minute. */
  function CalculateTimeLeftAsWritten(creationMs: int, now: int): (c: Countdown)
    ensures var t := TimeLeftMs(creationMs, now);
      t >= 0 ==>
        && c.days >= 0 && 0 <= c.hours < 24 && 0 <= c.minutes < 60
        && c.days * DAY_MS + c.hours * HOUR_MS <= t < c.days * DAY_MS + c.hours * HOUR_MS + HOUR_MS
        && c.minutes * SECOND_MS <= t % MINUTE_MS < c.minutes * SECOND_MS + SECOND_MS
    ensures var t := TimeLeftMs(creationMs, now);
      t < 0 ==> c.days < 0 && -24 <= c.hours <= 0 && -60 <= c.minutes <= 0
    ensures var t := TimeLeftMs(creationMs, now);
      c.days * DAY_MS <= t < c.days * DAY_MS + DAY_MS
    ensures var t := TimeLeftMs(creationMs, now);
      t < 0 ==>
        && c.hours * HOUR_MS <= JsRem(t, DAY_MS) < c.hours * HOUR_MS + HOUR_MS
        && c.minutes * SECOND_MS <= JsRem(t, MINUTE_MS) < c.minutes * SECOND_MS + SECOND_MS
  {
    var t := TimeLeftMs(creationMs, now);
    if t >= 0 then AsWrittenUnitsAhead(t); AsWrittenUnits(t) else AsWrittenUnitsPast(t); AsWrittenUnits(t)
  }

  function AsWrittenUnits(t: int): Countdown
  {
    Countdown(FloorDiv(t, DAY_MS), FloorDiv(JsRem(t, DAY_MS), HOUR_MS), FloorDiv(JsRem(t, MINUTE_MS), SECOND_MS))
  }

  /** The as-written units of a deadline still ahead. */
  lemma AsWrittenUnitsAhead(t: int)
    requires t >= 0
    ensures var c := AsWrittenUnits(t);
      && c.days >= 0 && 0 <= c.hours < 24 && 0 <= c.minutes < 60
      && c.days * DAY_MS + c.hours * HOUR_MS <= t < c.days * DAY_MS + c.hours * HOUR_MS + HOUR_MS
      && c.minutes * SECOND_MS <= t % MINUTE_MS < c.minutes * SECOND_MS + SECOND_MS
  {
    var d, r := t / DAY_MS, t % DAY_MS;
    assert t == d * DAY_MS + r && 0 <= r < DAY_MS;
    var h, rh := r / HOUR_MS, r % HOUR_MS;
    assert r == h * HOUR_MS + rh && 0 <= rh < HOUR_MS;
    var rm := t % MINUTE_MS;
    var s := rm / SECOND_MS;
    assert rm == s * SECOND_MS + rm % SECOND_MS && 0 <= rm < MINUTE_MS;
    assert AsWrittenUnits(t) == Countdown(d, h, s);
  }

  /** The as-written units of a deadline already passed: none is positive. */
  lemma AsWrittenUnitsPast(t: int)
    requires t < 0
    ensures var c := AsWrittenUnits(t); c.days < 0 && -24 <= c.hours <= 0 && -60 <= c.minutes <= 0
  {
    var rd, rm := JsRem(t, DAY_MS), JsRem(t, MINUTE_MS);
    assert -DAY_MS < rd <= 0 && -MINUTE_MS < rm <= 0;
  }

  /** The as-written third unit is the seconds within the minute, while the
      days and hours agree with the corrected countdown; a deadline exactly
      one minute away shows `0d 0h 0m`. */
  lemma AsWrittenShowsSeconds(creationMs: int, now: int)
    ensures var t := TimeLeftMs(creationMs, now);
      t >= 0 ==> CalculateTimeLeftAsWritten(creationMs, now).minutes == (t % MINUTE_MS) / SECOND_MS
    ensures CalculateTimeLeftAsWritten(creationMs, now).days == CalculateTimeLeft(creationMs, now).days
    ensures CalculateTimeLeftAsWritten(creationMs, now).hours == CalculateTimeLeft(creationMs, now).hours
    ensures TimeLeftMs(creationMs, now) == MINUTE_MS ==>
      CalculateTimeLeftAsWritten(creationMs, now) == Countdown(0, 0, 0) &&
      CalculateTimeLeft(creationMs, now) == Countdown(0, 0, 1)
  {
  }

  /** One hour past the deadline the page shows `-1d -1h 0m`, and one
      millisecond past it `-1d -1h -1m`: each unit is rounded down on its
      own, so the days and hours together overshoot the time passed. */
  lemma AsWrittenPastExamples(creationMs: int, now: int)
    ensures TimeLeftMs(creationMs, now) == -HOUR_MS ==>
      CalculateTimeLeftAsWritten(creationMs, now) == Countdown(-1, -1, 0)
    ensures TimeLeftMs(creationMs, now) == -1 ==>
      CalculateTimeLeftAsWritten(creationMs, now) == Countdown(-1, -1, -1)
  {
  }

  /** The countdown with minutes within the hour in its third unit. No
      clamping: once the deadline has passed each unit is zero or negative,
      the floor of the time left in days, of its truncated remainder modulo
      a day in hours, and of its truncated remainder modulo an hour in
      minutes.
      For a deadline still ahead the units are whole days, hours within the
      day and minutes within the hour, and they add up to the time left
      rounded down to a minute. */
  function CalculateTimeLeft(creationMs: int, now: int): (c: Countdown)
    ensures var t := TimeLeftMs(creationMs, now);
      t >= 0 ==>
        && c.days >= 0 && 0 <= c.hours < 24 && 0 <= c.minutes < 60
        && c.days * DAY_MS + c.hours * HOUR_MS + c.minutes * MINUTE_MS <= t
        && t < c.days * DAY_MS + c.hours * HOUR_MS + c.minutes * MINUTE_MS + MINUTE_MS
    ensures var t := TimeLeftMs(creationMs, now);
      t < 0 ==> c.days < 0 && -24 <= c.hours <= 0 && -60 <= c.minutes <= 0
    ensures var t := TimeLeftMs(creationMs, now);
      c.days * DAY_MS <= t < c.days * DAY_MS + DAY_MS
    ensures var t := TimeLeftMs(creationMs, now);
      t < 0 ==>
        && c.hours * HOUR_MS <= JsRem(t, DAY_MS) < c.hours * HOUR_MS + HOUR_MS
        && c.minutes * MINUTE_MS <= JsRem(t, HOUR_MS) < c.minutes * MINUTE_MS + MINUTE_MS
  {
    var t := TimeLeftMs(creationMs, now);
    if t >= 0 then UnitsAhead(t); Units(t) else UnitsPast(t); Units(t)
  }

  function Units(t: int): Countdown
  {
    Countdown(FloorDiv(t, DAY_MS), FloorDiv(JsRem(t, DAY_MS), HOUR_MS), FloorDiv(JsRem(t, HOUR_MS), MINUTE_MS))
  }

  /** The units of a deadline still ahead. The remainder modulo an hour is
      the remainder modulo a day taken modulo an hour, because a day is a
      whole number of hours. */
  lemma UnitsAhead(t: int)
    requires t >= 0
    ensures var c := Units(t);
      && c.days >= 0 && 0 <= c.hours < 24 && 0 <= c.minutes < 60
      && c.days * DAY_MS + c.hours * HOUR_MS + c.minutes * MINUTE_MS <= t
      && t < c.days * DAY_MS + c.hours * HOUR_MS + c.minutes * MINUTE_MS + MINUTE_MS
  {
    var d, r := t / DAY_MS, t % DAY_MS;
    var h, rh := r / HOUR_MS, r % HOUR_MS;
    assert t == d * DAY_MS + r && 0 <= r < DAY_MS;
    assert r == h * HOUR_MS + rh && 0 <= rh < HOUR_MS;
    assert 0 <= h < 24;
    HourRemainder(t, 24 * d + h, rh);
    var m, rm := rh / MINUTE_MS, rh % MINUTE_MS;
    assert rh == m * MINUTE_MS + rm && 0 <= rm < MINUTE_MS;
    assert Units(t) == Countdown(d, h, m);
  }

  /** The remainder modulo an hour of a whole number of hours plus less
      than an hour is that remainder. */
  lemma HourRemainder(t: int, q: int, rh: int)
    requires 0 <= rh < HOUR_MS
    requires t == q * HOUR_MS + rh
    ensures t % HOUR_MS == rh
  {
  }

  /** The units of a deadline already passed: none is positive. */
  lemma UnitsPast(t: int)
    requires t < 0
    ensures var c := Units(t); c.days < 0 && -24 <= c.hours <= 0 && -60 <= c.minutes <= 0
  {
    var rd, rh := JsRem(t, DAY_MS), JsRem(t, HOUR_MS);
    assert -DAY_MS < rd <= 0 && -HOUR_MS < rh <= 0;
  }

  /** One entry of the list. `goal` stays in wei: the conversion to ether is
      display formatting. `creationTime` is in milliseconds. */
  datatype ProposalSummary = ProposalSummary(
    id: nat,
    title: string,
    description: string,
    goal: nat,
    beneficiary: Address,
    creationTime: int,
    timeLeft: Countdown,
    voters: seq<Address>,
    totalVoters: nat)

  /** A slot the contract has never filled: no amount and no beneficiary. */
  predicate IsEmptySlot(p: Proposal)
  {
    p.amount == 0 && p.beneficiary == ADDRESS_ZERO
  }

  function Summarize(p: Proposal, voters: seq<Address>, now: int): ProposalSummary
  {
    var creationMs := p.creationTime * 1000;
    ProposalSummary(p.id, p.title, p.description, p.amount, p.beneficiary,
                    creationMs, CalculateTimeLeftAsWritten(creationMs, now), voters, |voters|)
  }

  /** What one iteration of the loop adds for id `i`: nothing when the
      proposal read throws, when the slot is empty or when the voters read
      throws. */
  function SlotEntry(i: nat, getProposal: nat -> Option<Proposal>, getVoters: nat -> Option<seq<Address>>, now: int)
    : Option<ProposalSummary>
  {
    match getProposal(i)
    case None => None
    case Some(p) =>
      if IsEmptySlot(p) then None
      else match getVoters(i)
        case None => None
        case Some(voters) => Some(Summarize(p, voters, now))
  }

  /** The list the loop builds from ids 1..n. */
  function Assembled(n: nat, getProposal: nat -> Option<Proposal>, getVoters: nat -> Option<seq<Address>>, now: int)
    : seq<ProposalSummary>
  {
    if n == 0 then []
    else
      var e := SlotEntry(n, getProposal, getVoters, now);
      Assembled(n - 1, getProposal, getVoters, now) + (if e.Some? then [e.value] else [])
  }

  /** The ids whose entries the loop keeps, in the order it visits them. */
  function KeptIds(n: nat, getProposal: nat -> Option<Proposal>, getVoters: nat -> Option<seq<Address>>, now: int)
    : seq<nat>
  {
    if n == 0 then []
    else
      KeptIds(n - 1, getProposal, getVoters, now) + (if SlotEntry(n, getProposal, getVoters, now).Some? then [n] else [])
  }

  /** At most `n` entries; entry `k` is the summary of id `KeptIds[k]`; the
      kept ids lie in 1..n and ascend; and an id is kept exactly when its
      reads succeed and its slot is not empty, whatever happened to the ids
      before it. */
  lemma {:induction false} AssembledShape(n: nat, getProposal: nat -> Option<Proposal>, getVoters: nat -> Option<seq<Address>>, now: int)
    ensures var es, ids := Assembled(n, getProposal, getVoters, now), KeptIds(n, getProposal, getVoters, now);
      && |es| == |ids| <= n
      && StrictlyIncreasing(ids)
      && (forall k :: 0 <= k < |ids| ==>
            1 <= ids[k] <= n && SlotEntry(ids[k], getProposal, getVoters, now) == Some(es[k]))
      && (forall i :: 1 <= i <= n ==> (i in ids <==> SlotEntry(i, getProposal, getVoters, now).Some?))
  {
    if n > 0 {
      AssembledShape(n - 1, getProposal, getVoters, now);
    }
  }

  /** An empty slot never reaches the list, nor does an id whose proposal
      or voters read throws. */
  lemma SkippedIds(n: nat, i: nat, getProposal: nat -> Option<Proposal>, getVoters: nat -> Option<seq<Address>>, now: int)
    requires getProposal(i).None? || getVoters(i).None? || IsEmptySlot(getProposal(i).value)
    ensures i !in KeptIds(n, getProposal, getVoters, now)
  {
    AssembledShape(n, getProposal, getVoters, now);
  }

  /** Every entry is built from its own id's reads: the id, title,
      description, goal and beneficiary come from the proposal, the voters
      from `getVoters`, `totalVoters` is their number, `creationTime` is the
      on-chain seconds times 1000, and `timeLeft` is the countdown as
      written from that creation time. */
  lemma EntriesComeFromTheirIds(n: nat, getProposal: nat -> Option<Proposal>, getVoters: nat -> Option<seq<Address>>, now: int)
    ensures var es, ids := Assembled(n, getProposal, getVoters, now), KeptIds(n, getProposal, getVoters, now);
      |es| == |ids| &&
      forall k :: 0 <= k < |es| ==>
        && getProposal(ids[k]).Some? && getVoters(ids[k]).Some?
        && !IsEmptySlot(getProposal(ids[k]).value)
        && es[k].id == getProposal(ids[k]).value.id
        && es[k].title == getProposal(ids[k]).value.title
        && es[k].description == getProposal(ids[k]).value.description
        && es[k].goal == getProposal(ids[k]).value.amount
        && es[k].beneficiary == getProposal(ids[k]).value.beneficiary
        && es[k].voters == getVoters(ids[k]).value
        && es[k].totalVoters == |es[k].voters|
        && es[k].creationTime == getProposal(ids[k]).value.creationTime * 1000
        && es[k].timeLeft == CalculateTimeLeftAsWritten(es[k].creationTime, now)
  {
    AssembledShape(n, getProposal, getVoters, now);
  }

  /** The loop of `fetchProposals`: each id 1..count in turn, skipping empty
      slots and ids whose reads throw. */
  method FetchProposals(count: nat, getProposal: nat -> Option<Proposal>, getVoters: nat -> Option<seq<Address>>, now: int)
    returns (proposals: seq<ProposalSummary>)
    ensures proposals == Assembled(count, getProposal, getVoters, now)
  {
    proposals := [];
    var i := 1;
    while i <= count
      invariant 1 <= i <= count + 1
      invariant proposals == Assembled(i - 1, getProposal, getVoters, now)
    {
      var p := getProposal(i);
      if p.None? {
        i := i + 1;
        continue;
      }
      if p.value.amount == 0 && p.value.beneficiary == ADDRESS_ZERO {
        i := i + 1;
        continue;
      }
      var voters := getVoters(i);
      if voters.None? {
        i := i + 1;
        continue;
      }
      proposals := proposals + [Summarize(p.value, voters.value, now)];
      i := i + 1;
    }
  }

  /** The search filter: the id in decimal contains the query, or the
      lower-cased title contains the lower-cased query. */
  function FilteredProposals(proposals: seq<ProposalSummary>, searchTerm: string): seq<ProposalSummary>
  {
    Filter(proposals, (p: ProposalSummary) => MatchesTitleOrId(p.title, p.id, searchTerm))
  }

  /** The filter keeps exactly the matching entries, in their own order. */
  lemma FilteredProposalsKeepsMatches(proposals: seq<ProposalSummary>, searchTerm: string)
    ensures var r, idx := FilteredProposals(proposals, searchTerm),
                          KeptIndices(proposals, (p: ProposalSummary) => MatchesTitleOrId(p.title, p.id, searchTerm));
      && |r| == |idx| <= |proposals|
      && StrictlyIncreasing(idx)
      && (forall k :: 0 <= k < |r| ==> idx[k] < |proposals| && r[k] == proposals[idx[k]])
      && (forall i :: 0 <= i < |proposals| ==>
            (i in idx <==> MatchesTitleOrId(proposals[i].title, proposals[i].id, searchTerm)))
  {
    FilterIsSubsequence(proposals, (p: ProposalSummary) => MatchesTitleOrId(p.title, p.id, searchTerm));
  }

  /** The component's state. */
  class VotingListView {
    var proposals: seq<ProposalSummary>
    var searchTerm: string

    constructor ()
      ensures proposals == [] && searchTerm == ""
    {
      proposals := [];
      searchTerm := "";
    }

    /** The mount effect. Without a wallet, or when the count read throws,
        nothing changes; otherwise the list is replaced by the assembled one. */
    method Load(ethereumPresent: bool, count: Option<nat>,
                getProposal: nat -> Option<Proposal>, getVoters: nat -> Option<seq<Address>>, now: int)
      modifies this
      ensures proposals ==
        if ethereumPresent && count.Some? then Assembled(count.value, getProposal, getVoters, now)
        else old(proposals)
      ensures searchTerm == old(searchTerm)
    {
      if ethereumPresent && count.Some? {
        proposals := FetchProposals(count.value, getProposal, getVoters, now);
      }
    }

    method SetSearchTerm(term: string)
      modifies this
      ensures searchTerm == term && proposals == old(proposals)
    {
      searchTerm := term;
    }
  }
}
