# Lagoon front end: list and state logic

Lagoon is a charity and waqf web front end. Its pages read proposals from
external smart contracts, show them as lists, and update local page state
when a user searches, votes, executes a proposal, adds a donation campaign
or moves through the documentation. This project models that list and state
logic in Dafny and proves what each piece promises.

The contracts stay outside the model. Each contract read becomes an input:
a count, a function from id to record (`None` when the read throws), or a
function from account to balance. Each transaction becomes a flag saying
whether it succeeded. The clock becomes a `now` parameter in milliseconds.

Modules:

- `Seqs`: `Array.prototype.filter` (`Filter`) and the positions it keeps
  (`KeptIndices`), with the proof that the result is the subsequence at
  those positions.
- `Text`: ASCII `toLowerCase`, `includes` (`Contains`), and the decimal
  `toString` of an id. Also the two search predicates: title or id, and
  title only.
- `Time`: millisecond constants, the 30-day window, JavaScript's truncating
  `%` (`JsRem`), and `Math.floor` of a quotient (`FloorDiv`).
- `Contract`: the raw records the proposal and voting contracts return.
- `VotingListJs` (src/pages/VotingList.js): the fetch loop, the search,
  the optimistic vote and execute updates, and the page state as a class.
- `VotingListTs` (src/pages/VotingList.tsx): the fetch loop that skips
  empty slots and failed reads, the countdown, and the search.
- `Documentation` (src/pages/documentation.tsx): the step filter and the
  bounded current-step counter.
- `DonationList` (src/pages/DonationList.js): appending a campaign with its
  deadline, and the tick that marks campaigns finished.
- `RealEstateWaqf` (src/pages/realEstateWaqf.js): loading the proposals
  and the positive-balance investors, and the `loading` flag.

Each page's React state is a class whose fields are the state variables.
Its handlers are methods whose postconditions give the new state in terms
of the old one. Each loop is a method that changes nothing and is proved
equal to a recursive specification function. The lemmas about that
function state what the page promises.

Two behaviours of the code are worth stating plainly. The countdown in
VotingList.tsx is not clamped at zero: once the deadline has passed its
units are zero or negative. Both voting pages match the search query
against the decimal proposal id as well as the title.

## Model

| member | source | states |
|---|---|---|
| `Seqs.Filter` | src/pages/VotingList.js:23-26 | The filter keeps only elements that satisfy the predicate and every such element. It is never longer than its input. |
| `Seqs.KeptIndices` | src/pages/documentation.tsx:288-290 | There is one kept position per element of the filtered list, and each position lies inside the input. |
| `Seqs.FilterIsSubsequence` | src/pages/VotingList.js:22-27 | The filtered list is the subsequence at strictly increasing kept positions. A position is kept exactly when its element satisfies the predicate. |
| `Seqs.FilterKeepsAll` | src/pages/VotingList.js:22-27 | A predicate that holds of every element keeps the whole list unchanged. |
| `Text.ToLowerProperties` | src/pages/VotingList.js:24 | Lower-casing keeps the length and leaves no ASCII upper-case letter. Each upper-case letter becomes its lower-case counterpart, 32 code points later. It changes nothing else, and applying it again changes nothing. |
| `Text.ContainsIff` | src/pages/VotingList.js:24-25 | `includes` holds exactly when the query occurs at some offset of the string. |
| `Text.MissingCharNotContained` | src/pages/documentation.tsx:289 | A query with a character the string lacks is not included in it. |
| `Text.LowerCaseMissing` | src/pages/documentation.tsx:289 | A lower-case letter absent from a string in both cases is absent from its lower-cased form. |
| `Text.ContainsEmpty` | src/pages/VotingList.js:24 | The empty query is included in every string. |
| `Text.EmptyQueryMatches` | src/pages/VotingList.js:23-26 | Every record matches an empty search, by title and by title or id. |
| `Text.NatToString` | src/pages/VotingList.js:25 | An id's decimal string is non-empty and all digits, with no leading zero unless the id is 0. |
| `Text.ParseNatToString` | src/pages/VotingList.js:25 | An id's decimal string reads back as the same id, so different ids have different strings. |
| `Time.JsRem` | src/pages/VotingList.tsx:68-69 | JavaScript `%` with a positive divisor: the remainder is smaller than the divisor in magnitude and has the dividend's sign. It pairs with the truncated quotient to rebuild the dividend. |
| `Time.FloorDiv` | src/pages/VotingList.tsx:67-69 | `Math.floor(a / d)` is the largest `q` with `q * d <= a`. |
| `VotingListJs.FetchedShape` | src/pages/VotingList.js:37-57 | The fetch yields a list exactly when every read for ids 1..count succeeds. That list has one card per id in ascending order, each built from that id's proposal and votes. |
| `VotingListJs.FetchFailureSticks` | src/pages/VotingList.js:40-57 | After one failed read, reading more ids never yields a list. |
| `VotingListJs.FetchProposals` | src/pages/VotingList.js:30-58 | The loop returns nothing when the count read fails. Otherwise it returns exactly the specified fetch result. |
| `VotingListJs.SearchKeepsMatches` | src/pages/VotingList.js:22-27 | A card stays exactly when its lower-cased title contains the lower-cased query or its decimal id contains the raw query. The result is a subsequence in the cards' own order. |
| `VotingListJs.EmptySearchKeepsAll` | src/pages/VotingList.js:22-27 | An empty query shows every card. |
| `VotingListJs.ApplyVote` | src/pages/VotingList.js:73-82 | The list keeps its length and order, and cards with other ids are unchanged. A card with the id gains exactly one vote on the chosen side, and none of its other fields change. |
| `VotingListJs.ApplyExecute` | src/pages/VotingList.js:103-106 | The list keeps its length and order, and cards with other ids are unchanged. A card with the id becomes executed, and none of its other fields change. |
| `VotingListJs.ExecuteIdempotent` | src/pages/VotingList.js:103-106 | Applying the execute update twice gives the same list as applying it once. |
| `VotingListJs.VoteAddsOneBallotPerMatch` | src/pages/VotingList.js:73-82 | A vote raises the total ballots shown by the number of cards with that id. |
| `VotingListJs.UniqueIdCountsOnce` | src/pages/VotingList.js:73-82 | When no two cards share an id, the number of cards with the voted id is one if that card is listed and zero otherwise. A vote therefore adds exactly one ballot, or none when the card is missing. |
| `VotingListJs.VotingListPage.constructor` | src/pages/VotingList.js:11-14 | The page starts with no cards, no busy id and an empty query. |
| `VotingListJs.VotingListPage.Load` | src/pages/VotingList.js:16-18 | On success the cards become the fetched list. On any failure the state is unchanged. |
| `VotingListJs.VotingListPage.SetSearchQuery` | src/pages/VotingList.js:122 | Only the query changes. |
| `VotingListJs.VotingListPage.VoteOnProposal` | src/pages/VotingList.js:60-88 | The vote update is applied only if the transaction succeeds, and otherwise the cards are unchanged. The busy id is cleared in every case. |
| `VotingListJs.VotingListPage.ExecuteProposal` | src/pages/VotingList.js:90-112 | The execute update is applied only if the transaction succeeds, and otherwise the cards are unchanged. The busy id is cleared in every case. |
| `VotingListTs.CalculateTimeLeftAsWritten` | src/pages/VotingList.tsx:64-71 | The countdown the page shows. For a deadline still ahead: whole days, hours 0..23, days and hours adding up to the time left rounded down to the hour, and a third unit 0..59 that is the whole seconds within the current minute. For every time left, the days are `Math.floor` of it in days. Once the deadline has passed, no unit is positive. The hours are then the floor of the truncated remainder modulo a day, in hours. The third unit is the floor of the truncated remainder modulo a minute, in seconds. |
| `VotingListTs.AsWrittenPastExamples` | src/pages/VotingList.tsx:67-69 | One hour past the deadline the page shows `-1d -1h 0m`, and one millisecond past it shows `-1d -1h -1m`. |
| `VotingListTs.AsWrittenUnitsAhead` | src/pages/VotingList.tsx:67-69 | For non-negative time left, the as-written units fall in range, and the third unit counts the seconds within the minute. |
| `VotingListTs.AsWrittenUnitsPast` | src/pages/VotingList.tsx:67-69 | For negative time left, the as-written days are negative, the hours lie in -24..0 and the third unit in -60..0. |
| `VotingListTs.AsWrittenShowsSeconds` | src/pages/VotingList.tsx:69 | The as-written third unit is the seconds within the minute, and the days and hours agree with the corrected countdown. A deadline exactly one minute away shows `0d 0h 0m`, while the corrected countdown shows `0d 0h 1m`. |
| `VotingListTs.CalculateTimeLeft` | src/pages/VotingList.tsx:64-71 | The corrected countdown. For a deadline 30 days after creation that is still ahead, the units are whole days, hours 0..23 and minutes 0..59, and they add up to the time left rounded down to the minute. For every time left, the days are `Math.floor` of it in days. Once the deadline has passed, no unit is positive. The hours and minutes are then the floors of the truncated remainders modulo a day and modulo an hour. |
| `VotingListTs.UnitsAhead` | src/pages/VotingList.tsx:67-69 | For non-negative time left, the units fall in range and add up, because a day is a whole number of hours. |
| `VotingListTs.UnitsPast` | src/pages/VotingList.tsx:67-69 | For negative time left, days are negative, hours lie in -24..0 and minutes in -60..0. No clamping is applied. |
| `VotingListTs.AssembledShape` | src/pages/VotingList.tsx:28-53 | There are at most `count` entries, from ascending ids in 1..count, each the summary of its own id. An id is kept exactly when its reads succeed and its slot is not empty, whatever happened to earlier ids. |
| `VotingListTs.SkippedIds` | src/pages/VotingList.tsx:29-34 | An id is never listed if its slot is empty (amount 0 and the zero address) or if its proposal or voters read throws. |
| `VotingListTs.EntriesComeFromTheirIds` | src/pages/VotingList.tsx:36-49 | Each entry comes from a successful, non-empty read of its id. Its id, title, description, goal and beneficiary are that proposal's. `totalVoters` is the number of voters, and `creationTime` is the on-chain seconds times 1000. The entry's `timeLeft` is the countdown as written, taken from that creation time. |
| `VotingListTs.FetchProposals` | src/pages/VotingList.tsx:28-53 | The loop with its `continue`s returns exactly the specified assembled list. |
| `VotingListTs.FilteredProposalsKeepsMatches` | src/pages/VotingList.tsx:77-81 | An entry stays exactly when its decimal id contains the query or its lower-cased title contains the lower-cased query. The result is a subsequence in order. |
| `VotingListTs.VotingListView.constructor` | src/pages/VotingList.tsx:9-10 | The page starts with no entries and an empty search term. |
| `VotingListTs.VotingListView.Load` | src/pages/VotingList.tsx:16-62 | Without a wallet, or when the count read fails, nothing changes. Otherwise the entries become the assembled list. |
| `VotingListTs.VotingListView.SetSearchTerm` | src/pages/VotingList.tsx:73-75 | Only the search term changes. |
| `Documentation.FilteredStepsKeepsMatches` | src/pages/documentation.tsx:288-290 | The side list keeps exactly the steps whose lower-cased title contains the lower-cased term, in order. It is no longer than the guide, and entry `k` is the step at its kept position. |
| `Documentation.ButtonsMatchMoves` | src/pages/documentation.tsx:292-302 | Previous is disabled exactly when the current step is 0, and Next exactly when it is the last step. Otherwise each button moves one step, and both keep the current step inside the guide. |
| `Documentation.NextThenPrev` | src/pages/documentation.tsx:292-302 | Away from the last step, Next followed by Previous returns to the original step. |
| `Documentation.SelectionAsWrittenPicksWrongStep` | src/pages/documentation.tsx:317-322 | With the shipped steps and the term "token", the side list holds only "Tokenomics" at guide position 2. The as-written click on it selects position 0. |
| `Documentation.OnlyThirdKept` | src/pages/documentation.tsx:288-290 | Filtering four elements of which only the third passes keeps just that element, at position 2. |
| `Documentation.OnlyTokenomicsMatches` | src/pages/documentation.tsx:9-290 | Of the four shipped step titles, only "Tokenomics" matches the term "token". |
| `Documentation.DocumentationPage.constructor` | src/pages/documentation.tsx:6-7 | The page starts on step 0 with an empty term, inside the guide. |
| `Documentation.DocumentationPage.SetSearchTerm` | src/pages/documentation.tsx:313 | Only the term changes, and the current step stays inside the guide. |
| `Documentation.DocumentationPage.NextStep` | src/pages/documentation.tsx:292-296 | The step goes up by one only below the last step. The invariant `0 <= currentStep < steps.length` is kept. |
| `Documentation.DocumentationPage.PrevStep` | src/pages/documentation.tsx:298-302 | The step goes down by one only above 0. The invariant is kept. |
| `Documentation.DocumentationPage.SelectItemAsWritten` | src/pages/documentation.tsx:321 | The clicked side-list index becomes the step. The invariant holds because the side list is never longer than the guide. |
| `Documentation.DocumentationPage.SelectItem` | src/pages/documentation.tsx:317-322 | Corrected click: the shown step, and so the heading on show, is the clicked side-list entry, and the invariant is kept. |
| `DonationList.WithDeadline` | src/pages/DonationList.js:36 | The deadline is `now` plus 30 days in milliseconds, and every other field is unchanged. |
| `DonationList.MarkFinished` | src/pages/DonationList.js:43-48 | Each campaign is marked finished exactly when its deadline is before `now`. Length, order and all other fields are kept. |
| `DonationList.MarkFinishedIdempotent` | src/pages/DonationList.js:43-48 | Two ticks at the same time give the same list as one. |
| `DonationList.FinishedAfterWindow` | src/pages/DonationList.js:36-46 | A campaign added at time `a` shows as finished at time `now` exactly when more than 30 days have passed since `a`. |
| `DonationList.DonationListPage.constructor` | src/pages/DonationList.js:9-28 | The page starts with the two seeded campaigns, both due 30 days after `now`, and with the form closed. |
| `DonationList.DonationListPage.ToggleForm` | src/pages/DonationList.js:57 | The form flag flips, and the campaigns are unchanged. |
| `DonationList.DonationListPage.AddDonation` | src/pages/DonationList.js:35-39 | Exactly one campaign, with its deadline, is appended at the end. Existing campaigns are unchanged, and the form is closed. |
| `DonationList.DonationListPage.Tick` | src/pages/DonationList.js:41-52 | The campaigns become the marked list, and the form flag is unchanged. |
| `RealEstateWaqf.ProposalsUpToShape` | src/pages/realEstateWaqf.js:46-52 | A proposal list exists exactly when every read for ids 1..count succeeds. It then holds exactly one proposal per id, in ascending order. |
| `RealEstateWaqf.ProposalFailureSticks` | src/pages/realEstateWaqf.js:48-51 | Once a proposal read has thrown, reading further ids does not bring a list back. |
| `RealEstateWaqf.WithBalances` | src/pages/realEstateWaqf.js:58 | Each account is paired with its own balance, in order, when every balance was read. |
| `RealEstateWaqf.InvestorsStep` | src/pages/realEstateWaqf.js:56-59 | Reading one more balance appends that account exactly when its balance is positive. Otherwise the list stays the same. |
| `RealEstateWaqf.InvestorsShape` | src/pages/realEstateWaqf.js:54-61 | An investor list exists exactly when every balance read succeeds. The investors are then exactly the accounts with a positive balance, in account order, each with its own balance. There are no more of them than accounts. |
| `RealEstateWaqf.LoadProposals` | src/pages/realEstateWaqf.js:46-52 | The first loop returns exactly the proposals for ids 1..count. It returns nothing once a read throws. |
| `RealEstateWaqf.CollectInvestors` | src/pages/realEstateWaqf.js:54-61 | The second loop returns exactly the specified investor list. It returns nothing once a balance read throws. |
| `RealEstateWaqf.WaqfPage.constructor` | src/pages/realEstateWaqf.js:9-15 | The page starts loading, with no account, no contract, no proposals and no investors. |
| `RealEstateWaqf.WaqfPage.LoadBlockchainData` | src/pages/realEstateWaqf.js:31-63 | If reading the accounts throws, `loading` stays raised and nothing else changes. Otherwise the first account is recorded. With an invalid ABI or a missing address, nothing is fetched, the lists are unchanged and `loading` is false. Otherwise a read that throws aborts the rest and leaves `loading` raised. The proposals change only if the count and every proposal read succeed. The investors change only if, in addition, every balance read succeeds, and only then is `loading` false. |

## Findings

| source | as written | input that shows it | evidently intended | confidence | as-written member | corrected member |
|---|---|---|---|---|---|---|
| src/pages/VotingList.tsx:69 | The value shown as minutes is the remainder modulo one minute, divided by one second. That is the seconds within the minute. | A deadline exactly 60000 ms away shows `0d 0h 0m`. | Minutes within the hour, which would show `0d 0h 1m` for that input. | high; not executed | `VotingListTs.AsWrittenShowsSeconds` | `VotingListTs.CalculateTimeLeft` |
| src/pages/documentation.tsx:321 | A click stores the side-list index as the step index, but the shown step is `steps[currentStep]`. The highlight at line 322 compares the same mismatched indices. | Use the shipped steps and the search term "token". The side list is just "Tokenomics", and clicking it shows "Lagoon: A Harmony of Community and Integrity". | Show the step that was clicked, which is its position in the whole guide. | high; not executed | `Documentation.SelectionAsWrittenPicksWrongStep` | `Documentation.DocumentationPage.SelectItem` |

The as-written countdown is `VotingListTs.CalculateTimeLeftAsWritten`. The as-written click handler is `Documentation.DocumentationPage.SelectItemAsWritten`. The assembled VotingList.tsx entries carry the countdown as written, because that is what the page computes and shows.

## Left out

- Contract reads and writes, providers, signers, ABIs and transaction waiting are outside the model because they are foreign calls. Reads are abstract functions, and a transaction's outcome is a boolean.
- `formatEther`: the goal stays an integer in wei, because the conversion to a decimal string is display formatting.
- `Date.now()` is one `now` parameter per operation. The source reads the clock again for each record and each tick.
- Asynchrony, `useEffect` scheduling and `setInterval` timing are not modelled. Each handler runs as one sequential step.
- `VotingListJs.VotingListPage.VoteOnProposal`: states only the final state. The busy id that is visible while the transaction is pending is set in the body but not stated.
- `VotingListJs.VotingListPage.ExecuteProposal`: same as `VoteOnProposal`, for the pending busy id.
- `RealEstateWaqf.WaqfPage.LoadBlockchainData`: states only the final state. The `loading = true` that is visible while the reads are pending is not stated for the runs that end with it false. A read that throws is one `None` per read. Which exception it was, and the console message, are not modelled.
- `toLowerCase` is modelled for ASCII letters only, because Unicode case mapping is beyond this model.
- JavaScript numbers are modelled as unbounded integers. `toNumber()` overflow above 2^53 and exponent notation in `toString()` are not modelled.
- Progress percentages and `toFixed(2)` are not modelled because they are floating point. Campaign amounts and goals are carried as `real` and never computed on.
- The "Time left" text is kept as its three integer units, not as a formatted string.
- The `setFilteredProposals(proposalsArray)` in VotingList.js is left out. The filtered list is a function of the cards and the query, because the effect recomputes it whenever either changes.
- The button-disabled conditions in VotingList.js are left out as UI concerns.
- The wallet-connected guard, `handleSelectDonation` and the detail view in DonationList.js are left out as UI concerns.
- The write handlers of realEstateWaqf.js (`createProposal`, `voteOnProposal`, `convertToToken`, `invest`, `sellTokens`) and `loadWeb3` are left out because they only forward to the contract or wallet.
- `handleAddDonation` also mutates the submitted object in place. The model builds a new value, so that aliasing is not captured.
- Documentation step contents are JSX and are not modelled. Only the titles are.
- DonationForm.js, DonationDetail.js, assetTokenization.js, realEstateWaqfToken.js, wallet.jsx, slug.js and wagmi.ts are not part of this model. The reward tiers appear only as prose.
