/** The documentation page in src/pages/documentation.tsx: a searchable
    list of steps and a current step moved by Previous, Next and clicks on
    the list. */
module Documentation {
  import opened Seqs
  import opened Text

  /** A step of the guide; its rendered content is not modelled. */
  datatype Step = Step(title: string)

  /** The steps the page ships with. */
  const STEPS: seq<Step> := [
    Step("Lagoon: A Harmony of Community and Integrity"),
    Step("Lagoon: Waqf Web3 Project"),
    Step("Tokenomics"),
    Step("NFT")
  ]

  /** The side list: the steps whose lower-cased title contains the
      lower-cased search term, in their original order. */
  function FilteredSteps(steps: seq<Step>, searchTerm: string): seq<Step>
  {
    Filter(steps, TitleMatcher(searchTerm))
  }

  function TitleMatcher(searchTerm: string): Step -> bool
  {
    (s: Step) => MatchesTitle(s.title, searchTerm)
  }

  /** The position in `steps` of each entry of the side list. */
  function FilteredStepIndices(steps: seq<Step>, searchTerm: string): seq<nat>
  {
    KeptIndices(steps, TitleMatcher(searchTerm))
  }

  /** The side list keeps exactly the matching steps in their order, is no
      longer than the steps, and entry `k` is the step at position
      `FilteredStepIndices[k]`. */
  lemma FilteredStepsKeepsMatches(steps: seq<Step>, searchTerm: string)
    ensures var r, idx := FilteredSteps(steps, searchTerm), FilteredStepIndices(steps, searchTerm);
      && |r| == |idx| <= |steps|
      && StrictlyIncreasing(idx)
      && (forall k :: 0 <= k < |r| ==> idx[k] < |steps| && r[k] == steps[idx[k]])
      && (forall i :: 0 <= i < |steps| ==> (i in idx <==> MatchesTitle(steps[i].title, searchTerm)))
  {
    FilterIsSubsequence(steps, TitleMatcher(searchTerm));
  }

  /** `nextStep` on a guide of `n` steps. */
  function Next(current: int, n: int): int
  {
    if current < n - 1 then current + 1 else current
  }

  /** `prevStep`. */
  function Prev(current: int): int
  {
    if current > 0 then current - 1 else current
  }

  /** The `disabled` condition of the Previous button. */
  predicate PrevDisabled(current: int)
  {
    current == 0
  }

  /** The `disabled` condition of the Next button. */
  predicate NextDisabled(current: int, n: int)
  {
    current == n - 1
  }

  /** Within the guide, each button is disabled exactly when pressing it
      would do nothing, and otherwise it moves one step; both keep the
      current step within the guide. */
  lemma ButtonsMatchMoves(current: int, n: int)
    requires 0 <= current < n
    ensures PrevDisabled(current) <==> Prev(current) == current
    ensures NextDisabled(current, n) <==> Next(current, n) == current
    ensures !PrevDisabled(current) ==> Prev(current) == current - 1
    ensures !NextDisabled(current, n) ==> Next(current, n) == current + 1
    ensures 0 <= Prev(current) < n && 0 <= Next(current, n) < n
  {
  }

  /** Away from the last step, Next then Previous comes back. */
  lemma NextThenPrev(current: int, n: int)
    requires 0 <= current < n - 1
    ensures Prev(Next(current, n)) == current
  {
  }

  /** As written, a click on entry `index` of the side list selects step
      `index` of the whole guide. With the term "token" the side list holds
      only the "Tokenomics" step, yet clicking it selects the first step. */
  lemma SelectionAsWrittenPicksWrongStep()
    ensures FilteredSteps(STEPS, "token") == [Step("Tokenomics")]
    ensures FilteredStepIndices(STEPS, "token") == [2]
    ensures STEPS[0] != Step("Tokenomics")
  {
    OnlyTokenomicsMatches();
    OnlyThirdKept(STEPS, TitleMatcher("token"));
  }

  /** Filtering four elements of which only the third passes. */
  lemma OnlyThirdKept<T>(xs: seq<T>, p: T -> bool)
    requires |xs| == 4 && !p(xs[0]) && !p(xs[1]) && p(xs[2]) && !p(xs[3])
    ensures Filter(xs, p) == [xs[2]] && KeptIndices(xs, p) == [2]
  {
    var a, b, c := xs[..1], xs[..2], xs[..3];
    assert a[..0] == [] && a[0] == xs[0];
    assert Filter(a, p) == [] && KeptIndices(a, p) == [];
    assert b[..1] == a && b[1] == xs[1];
    assert Filter(b, p) == [] && KeptIndices(b, p) == [];
    assert c[..2] == b && c[2] == xs[2];
    assert Filter(c, p) == [xs[2]] && KeptIndices(c, p) == [2];
    assert xs[..3] == c;
  }

  /** Of the shipped steps, only "Tokenomics" matches "token". */
  lemma OnlyTokenomicsMatches()
    ensures !MatchesTitle(STEPS[0].title, "token")
    ensures !MatchesTitle(STEPS[1].title, "token")
    ensures MatchesTitle(STEPS[2].title, "token")
    ensures !MatchesTitle(STEPS[3].title, "token")
  {
    FirstStepNoMatch();
    SecondStepNoMatch();
    TokenomicsMatches();
    LastStepNoMatch();
  }

  lemma FirstStepNoMatch()
    ensures !MatchesTitle(STEPS[0].title, "token")
  {
    FirstTitleText();
    NoK(STEPS[0].title);
  }

  lemma FirstTitleText()
    ensures var t := "Lagoon: A Harmony of Community and Integrity"; 'k' !in t && 'K' !in t
  {
  }

  lemma SecondStepNoMatch()
    ensures !MatchesTitle(STEPS[1].title, "token")
  {
    SecondTitleText();
    NoK(STEPS[1].title);
  }

  lemma SecondTitleText()
    ensures var t := "Lagoon: Waqf Web3 Project"; 'k' !in t && 'K' !in t
  {
  }

  lemma LastStepNoMatch()
    ensures !MatchesTitle(STEPS[3].title, "token")
  {
    NoK("NFT");
  }

  lemma TokenomicsMatches()
    ensures MatchesTitle(STEPS[2].title, "token")
  {
    assert ToLower("token") == "token";
    assert ToLower("Tokenomics")[..5] == "token";
  }

  /** A title without a 'k' in either case does not match "token". */
  lemma NoK(title: string)
    requires 'k' !in title && 'K' !in title
    ensures !MatchesTitle(title, "token")
  {
    LowerCaseMissing(title, 'k');
    assert ToLower("token") == "token";
    MissingCharNotContained(ToLower(title), "token", 'k');
  }

  /** The component's state: the search term and the index of the shown step. */
  class DocumentationPage {
    const steps: seq<Step>
    var searchTerm: string
    var currentStep: int

    /** The shown step is a step of the guide. */
    ghost predicate Valid()
      reads this
    {
      0 <= currentStep < |steps|
    }

    constructor (steps: seq<Step>)
      requires |steps| > 0
      ensures Valid() && this.steps == steps && currentStep == 0 && searchTerm == ""
    {
      this.steps := steps;
      searchTerm := "";
      currentStep := 0;
    }

    /** The heading of the step on show. */
    function CurrentTitle(): string
      reads this
      requires Valid()
    {
      steps[currentStep].title
    }

    method SetSearchTerm(term: string)
      requires Valid()
      modifies this
      ensures Valid() && searchTerm == term && currentStep == old(currentStep)
    {
      searchTerm := term;
    }

    method NextStep()
      requires Valid()
      modifies this
      ensures Valid()
      ensures currentStep == Next(old(currentStep), |steps|) && searchTerm == old(searchTerm)
    {
      if currentStep < |steps| - 1 {
        currentStep := currentStep + 1;
      }
    }

    method PrevStep()
      requires Valid()
      modifies this
      ensures Valid()
      ensures currentStep == Prev(old(currentStep)) && searchTerm == old(searchTerm)
    {
      if currentStep > 0 {
        currentStep := currentStep - 1;
      }
    }

    /** The click handler as written: the side-list index becomes the step
        index. It stays within the guide because the side list is never
        longer than the guide, but it names the wrong step once the search
        has hidden an earlier one. */
    method SelectItemAsWritten(index: nat)
      requires Valid()
      requires index < |FilteredSteps(steps, searchTerm)|
      modifies this
      ensures Valid()
      ensures currentStep == index && searchTerm == old(searchTerm)
    {
      FilteredStepsKeepsMatches(steps, searchTerm);
      currentStep := index;
    }

    /** The click handler corrected: the step shown is the one clicked. */
    method SelectItem(index: nat)
      requires Valid()
      requires index < |FilteredSteps(steps, searchTerm)|
      modifies this
      ensures Valid() && searchTerm == old(searchTerm)
      ensures currentStep == FilteredStepIndices(steps, searchTerm)[index]
      ensures steps[currentStep] == FilteredSteps(steps, searchTerm)[index]
      ensures CurrentTitle() == FilteredSteps(steps, searchTerm)[index].title
    {
      FilteredStepsKeepsMatches(steps, searchTerm);
      currentStep := FilteredStepIndices(steps, searchTerm)[index];
    }
  }
}
