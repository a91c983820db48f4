/** The donation carousel in src/pages/DonationList.js: campaigns kept in
    page state, a form that appends a campaign with a 30-day deadline, and a
    one-second tick that marks each campaign finished once its deadline has
    passed. */
module DonationList {
  import opened Wrappers
  import opened Time

  /** A campaign. `timestamp` is its deadline in milliseconds; `isFinished`
      is absent until the first tick has run. */
  datatype Donation = Donation(
    title: string,
    description: string,
    amount: real,
    goal: real,
    image: string,
    timestamp: int,
    isFinished: Option<bool>)

  /** The campaign a submitted form becomes: its deadline is 30 days after
      `now`, whatever deadline it carried. */
  function WithDeadline(d: Donation, now: int): (r: Donation)
    ensures r.timestamp - now == FUNDING_WINDOW_MS
    ensures r.(timestamp := d.timestamp) == d
  {
    d.(timestamp := now + FUNDING_WINDOW_MS)
  }

  /** The two campaigns the page starts with, both due 30 days after `now`. */
  function InitialDonations(now: int): seq<Donation>
  {
    [ Donation("We want to make a mosque in Pasteur",
               "We need help in making mosque in Pasteur area",
               15000.0, 30000.0, "https://via.placeholder.com/600x200",
               now + FUNDING_WINDOW_MS, None),
      Donation("We want to build elementary school in XX area",
               "We need help to find an area in XX to build school",
               8000.0, 20000.0, "https://via.placeholder.com/600x200",
               now + FUNDING_WINDOW_MS, None) ]
  }

  /** One tick at time `now`: every campaign is marked finished exactly when
      its deadline lies before `now`; the list keeps its length and order
      and every other field of every campaign. */
  function MarkFinished(donations: seq<Donation>, now: int): (r: seq<Donation>)
    ensures |r| == |donations|
    ensures forall k :: 0 <= k < |r| ==> r[k].isFinished == Some(donations[k].timestamp < now)
    ensures forall k :: 0 <= k < |r| ==> r[k].(isFinished := donations[k].isFinished) == donations[k]
  {
    if donations == [] then []
    else
      var n := |donations| - 1;
      var d := donations[n];
      MarkFinished(donations[..n], now) + [d.(isFinished := Some(d.timestamp < now))]
  }

  /** Two ticks at the same time give the list one tick gives. */
  lemma {:induction false} MarkFinishedIdempotent(donations: seq<Donation>, now: int)
    ensures MarkFinished(MarkFinished(donations, now), now) == MarkFinished(donations, now)
  {
    var once := MarkFinished(donations, now);
    var twice := MarkFinished(once, now);
    assert |twice| == |once|;
    forall k | 0 <= k < |once|
      ensures twice[k] == once[k]
    {
      assert twice[k].(isFinished := once[k].isFinished) == once[k];
    }
  }

  /** A campaign added at `addedAt` is shown finished by a tick at `now`
      exactly when more than 30 days have passed since. */
  lemma FinishedAfterWindow(d: Donation, addedAt: int, now: int)
    ensures MarkFinished([WithDeadline(d, addedAt)], now)[0].isFinished == Some(now - addedAt > FUNDING_WINDOW_MS)
  {
  }

  /** The component's state: the campaigns and whether the form is open. */
  class DonationListPage {
    var donations: seq<Donation>
    var showForm: bool

    constructor (now: int)
      ensures donations == InitialDonations(now) && !showForm
    {
      donations := InitialDonations(now);
      showForm := false;
    }

    /** The Add Donation / Cancel button. */
    method ToggleForm()
      modifies this
      ensures showForm == !old(showForm) && donations == old(donations)
    {
      showForm := !showForm;
    }

    /** `handleAddDonation`: append the submitted campaign with its
        deadline and close the form. */
    method AddDonation(newDonation: Donation, now: int)
      modifies this
      ensures donations == old(donations) + [WithDeadline(newDonation, now)]
      ensures !showForm
    {
      donations := donations + [WithDeadline(newDonation, now)];
      showForm := false;
    }

    /** The interval callback at time `now`. */
    method Tick(now: int)
      modifies this
      ensures donations == MarkFinished(old(donations), now)
      ensures showForm == old(showForm)
    {
      donations := MarkFinished(donations, now);
    }
  }
}
