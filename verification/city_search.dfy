/** A worked instance of the recruiter's location autocomplete over the fixed city list. */
module CitySearch {
  import opened Seqs
  import opened Text
  import opened RecruiterDashboard

  lemma AnInBangalore() ensures ContainsIgnoringCase("Bangalore", "an")
  {
  }

  lemma AnNotInHyderabad() ensures !ContainsIgnoringCase("Hyderabad", "an")
  {
  }

  lemma AnNotInMumbai() ensures !ContainsIgnoringCase("Mumbai", "an")
  {
  }

  lemma AnNotInPune() ensures !ContainsIgnoringCase("Pune", "an")
  {
  }

  lemma AnNotInDelhiNCR() ensures !ContainsIgnoringCase("Delhi NCR", "an")
  {
  }

  lemma AnNotInChennai() ensures !ContainsIgnoringCase("Chennai", "an")
  {
  }

  lemma AnNotInGurgaon() ensures !ContainsIgnoringCase("Gurgaon", "an")
  {
  }

  lemma AnNotInNoida() ensures !ContainsIgnoringCase("Noida", "an")
  {
  }

  lemma AnNotInRemote() ensures !ContainsIgnoringCase("Remote", "an")
  {
  }

  const LaterCities: seq<string> := ["Hyderabad", "Mumbai", "Pune", "Delhi NCR", "Chennai", "Gurgaon", "Noida", "Remote"]

  /** Every city after Bangalore fails the "an" test. */
  lemma LaterCitiesLackAn()
    ensures forall x :: x in LaterCities ==> !CityMatches("an")(x)
  {
    forall i | 0 <= i < |LaterCities|
      ensures !CityMatches("an")(LaterCities[i])
    {
      if i == 0 { AnNotInHyderabad(); }
      else if i == 1 { AnNotInMumbai(); }
      else if i == 2 { AnNotInPune(); }
      else if i == 3 { AnNotInDelhiNCR(); }
      else if i == 4 { AnNotInChennai(); }
      else if i == 5 { AnNotInGurgaon(); }
      else if i == 6 { AnNotInNoida(); }
      else { AnNotInRemote(); }
    }
  }

  /** So filtering the cities after Bangalore by "an" leaves nothing. */
  lemma OnlyBangaloreHasAn()
    ensures Filter(IndianCities[1..], CityMatches("an")) == []
  {
    assert IndianCities[1..] == LaterCities;
    LaterCitiesLackAn();
    FilterRejectsAll(LaterCities, CityMatches("an"));
  }

  /** Typing "an" offers only Bangalore. */
  lemma SuggestionsForAn()
    ensures Suggestions("an") == ["Bangalore"]
  {
    OnlyBangaloreHasAn();
    AnInBangalore();
    assert Filter(IndianCities, CityMatches("an")) == [IndianCities[0]] + Filter(IndianCities[1..], CityMatches("an"));
  }
}
