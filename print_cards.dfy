/**
 * The ID card printing page: the search over enrolled individuals and the person whose
 * card is previewed.
 */
module PrintCards {
  import opened Seqs
  import opened Text

  datatype Individual = Individual(
    id: string,
    name: string,
    dateOfBirth: string,
    address: string,
    enrollmentDate: string,
    cardPrinted: bool,
    photo: string)

  /** Name or id contains the search term, ignoring case. */
  predicate MatchesIndividual(p: Individual, searchTerm: string) {
    ContainsIgnoreCase(p.name, searchTerm) || ContainsIgnoreCase(p.id, searchTerm)
  }

  function FilteredIndividuals(people: seq<Individual>, searchTerm: string): seq<Individual> {
    Filter((p: Individual) => MatchesIndividual(p, searchTerm), people)
  }

  /** The listed people are exactly the matching ones, each as often as listed, in list order. */
  lemma {:induction false} FilteredIndividualsSpec(people: seq<Individual>, searchTerm: string, p: Individual)
    ensures p in FilteredIndividuals(people, searchTerm) <==> p in people && MatchesIndividual(p, searchTerm)
    ensures multiset(FilteredIndividuals(people, searchTerm))[p] ==
              if MatchesIndividual(p, searchTerm) then multiset(people)[p] else 0
    ensures IsSubseq(FilteredIndividuals(people, searchTerm), people)
  {
    var m := (x: Individual) => MatchesIndividual(x, searchTerm);
    FilterMembership(m, people, p);
    FilterMultiset(m, people, p);
    FilterIsSubseq(m, people);
  }

  /** An empty search lists everybody in the original order. */
  lemma {:induction false} EmptySearchListsAll(people: seq<Individual>)
    ensures FilteredIndividuals(people, "") == people
  {
    forall i | 0 <= i < |people| ensures MatchesIndividual(people[i], "") {
      EmptyTermMatches(people[i].name);
    }
    FilterKeepsAll((x: Individual) => MatchesIndividual(x, ""), people);
  }

  /** The page: the fixed list of enrolled people, the search box and the previewed person. */
  class PrintCardsPage {
    const people: seq<Individual>
    var searchTerm: string
    var selectedPerson: Individual

    /** The preview starts on the first enrolled person. */
    constructor (enrolled: seq<Individual>)
      requires |enrolled| > 0
      ensures people == enrolled && searchTerm == "" && selectedPerson == enrolled[0]
    {
      people := enrolled;
      searchTerm := "";
      selectedPerson := enrolled[0];
    }

    function Listed(): seq<Individual>
      reads this
    {
      FilteredIndividuals(people, searchTerm)
    }

    /** Typing in the search box keeps the previewed person, even one the new search hides. */
    method SetSearch(term: string)
      modifies this
      ensures searchTerm == term && selectedPerson == old(selectedPerson)
    {
      searchTerm := term;
    }

    /** Clicking a listed person previews their card. */
    method SelectPerson(p: Individual)
      modifies this
      ensures selectedPerson == p && searchTerm == old(searchTerm)
    {
      selectedPerson := p;
    }

    /** Generate PDF only logs a line naming the previewed person; nothing changes. */
    method HandleGeneratePDF() returns (logged: string)
      ensures logged == "Generating PDF for: " + selectedPerson.name
    {
      logged := "Generating PDF for: " + selectedPerson.name;
    }

    /** Print only logs a line naming the previewed person; nothing changes. */
    method HandlePrintCard() returns (logged: string)
      ensures logged == "Printing card for: " + selectedPerson.name
    {
      logged := "Printing card for: " + selectedPerson.name;
    }
  }

  /** A search longer than a person's name and id hides them, whoever is being previewed. */
  lemma {:induction false} LongSearchHides(people: seq<Individual>, searchTerm: string, p: Individual)
    requires |p.name| < |searchTerm| && |p.id| < |searchTerm|
    ensures p !in FilteredIndividuals(people, searchTerm)
  {
    FilterMembership((x: Individual) => MatchesIndividual(x, searchTerm), people, p);
    LongerNeedleAbsent(Lower(p.name), Lower(searchTerm));
    LongerNeedleAbsent(Lower(p.id), Lower(searchTerm));
  }
}
