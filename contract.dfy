/** The records the external proposal contract hands back. Its reads are
    passed to the pages as functions from id to record, with `None` for a
    read that throws. */
module Contract {

  type Address = string

  /** `ethers.constants.AddressZero`, the beneficiary of an empty slot. */
  const ADDRESS_ZERO: Address := "0x0000000000000000000000000000000000000000"

  /** The result of `getProposal(id)`; `amount` is the goal in wei and
      `creationTime` is in seconds. */
  datatype Proposal = Proposal(
    id: nat,
    title: string,
    description: string,
    amount: nat,
    beneficiary: Address,
    executed: bool,
    creationTime: nat)

  /** The result of `getVotes(id)` on the voting contract. */
  datatype Votes = Votes(votesFor: nat, votesAgainst: nat)
}
