/** The derived result list and the autocomplete suggestions: a conjunctive filter over the
    loaded doctors, an optional stable sort, and the first three name matches. */
module Filtering {
  import opened Json
  import opened Doctors
  import opened Seqs
  import opened Strings
  import opened StableSort

  /** The four pieces of search state. Mode and sort are the raw strings read from the URL or
      set by the panel, so an unknown mode or sort string can occur. */
  datatype QueryState = QueryState(
    searchTerm: string,
    consultationMode: Option<string>,
    selectedSpecialties: seq<string>,
    sortOption: Option<string>)

  /** The state with every filter cleared. */
  const Cleared := QueryState("", None, [], None)

  /** A nullable string state field is active when it holds a non-empty string. */
  predicate IsSet(o: Option<string>)
  {
    o.Some? && o.value != ""
  }

  /** The doctor has a name whose lower-cased form contains the lower-cased term. */
  predicate NameMatches(d: Doctor, term: string)
  {
    d.name != "" && Contains(Lower(d.name), Lower(term))
  }

  /** One of the doctor's consultation modes is the given string. */
  predicate OffersMode(d: Doctor, mode: string)
  {
    exists m :: m in d.consultationModes && m.Label() == mode
  }

  /** One of the doctor's non-empty specialties is among the selected ones. */
  predicate SharesSpecialty(d: Doctor, selected: seq<string>)
  {
    exists s :: s in d.specialty && s != "" && s in selected
  }

  /** The name test, or nothing when the search term is empty. */
  predicate PassesName(d: Doctor, q: QueryState)
  {
    q.searchTerm != "" ==> NameMatches(d, q.searchTerm)
  }

  /** The mode test, or nothing when no mode is chosen. */
  predicate PassesMode(d: Doctor, q: QueryState)
  {
    IsSet(q.consultationMode) ==> OffersMode(d, q.consultationMode.value)
  }

  /** The specialty test, or nothing when no specialty is selected. */
  predicate PassesSpecialty(d: Doctor, q: QueryState)
  {
    |q.selectedSpecialties| > 0 ==> SharesSpecialty(d, q.selectedSpecialties)
  }

  /** The doctor satisfies every active filter. */
  predicate Matches(d: Doctor, q: QueryState)
  {
    PassesName(d, q) && PassesMode(d, q) && PassesSpecialty(d, q)
  }

  function MatchesOf(q: QueryState): Doctor -> bool
  {
    d => Matches(d, q)
  }

  /** The doctors that satisfy every active filter, in their original order. */
  function Selected(doctors: seq<Doctor>, q: QueryState): seq<Doctor>
  {
    Filter(doctors, MatchesOf(q))
  }

  /** The comparator key in force: none when the sort state is inactive or unrecognised. */
  function ActiveOrder(q: QueryState): Option<SortOption>
  {
    if IsSet(q.sortOption) then ParseSortOption(q.sortOption.value) else None
  }

  /** The result list the hook exposes as `filteredDoctors`. */
  function Results(doctors: seq<Doctor>, q: QueryState): seq<Doctor>
  {
    Sorted(Selected(doctors, q), ActiveOrder(q))
  }

  /** The filter steps of `filteredDoctors`: starting from a copy of the list, each active
      filter narrows what the previous steps kept. */
  method ApplyFilters(doctors: seq<Doctor>, q: QueryState) returns (filtered: seq<Doctor>)
    ensures filtered == Selected(doctors, q)
  {
    filtered := doctors;
    ghost var all: Doctor -> bool := d => true;
    FilterKeepsAll(doctors, all);

    var term := q.searchTerm;
    var byName: Doctor -> bool := d => NameMatches(d, term);
    if term != "" {
      filtered := Filter(filtered, byName);
    }
    ghost var stage1: Doctor -> bool := d => PassesName(d, q);
    FilterStep(doctors, all, term != "", byName, stage1);

    var mode := q.consultationMode;
    var byMode: Doctor -> bool := d => mode.Some? && OffersMode(d, mode.value);
    if IsSet(mode) {
      filtered := Filter(filtered, byMode);
    }
    ghost var stage2: Doctor -> bool := d => PassesName(d, q) && PassesMode(d, q);
    FilterStep(doctors, stage1, IsSet(mode), byMode, stage2);

    var selected := q.selectedSpecialties;
    var bySpecialty: Doctor -> bool := d => SharesSpecialty(d, selected);
    if |selected| > 0 {
      filtered := Filter(filtered, bySpecialty);
    }
    FilterStep(doctors, stage2, |selected| > 0, bySpecialty, MatchesOf(q));
  }

  /** `filteredDoctors`: nothing for an empty list; otherwise the filtered copy, sorted in
      place when a sort option is set. */
  method FilteredDoctors(doctors: seq<Doctor>, q: QueryState) returns (result: seq<Doctor>)
    ensures result == Results(doctors, q)
    ensures forall d :: d in result <==> d in doctors && Matches(d, q)
  {
    ResultsMembers(doctors, q);
    if |doctors| == 0 {
      return [];
    }
    var filtered := ApplyFilters(doctors, q);
    var a := new Doctor[|filtered|](i requires 0 <= i < |filtered| => filtered[i]);
    assert a[..] == filtered;
    if IsSet(q.sortOption) {
      SortInPlace(a, ActiveOrder(q));
    } else {
      SortedWithoutKeyIsIdentity(filtered);
    }
    result := a[..];
  }

  /** Sound and complete: a doctor is in the results exactly when it is in the input and
      passes every active filter. */
  lemma ResultsMembers(doctors: seq<Doctor>, q: QueryState)
    ensures forall d :: d in Results(doctors, q) <==> d in doctors && Matches(d, q)
  {
    SortedIsPermutation(Selected(doctors, q), ActiveOrder(q));
    forall d
      ensures d in Results(doctors, q) <==> d in Selected(doctors, q)
    {
      assert d in Results(doctors, q) <==> d in multiset(Results(doctors, q));
      assert d in Selected(doctors, q) <==> d in multiset(Selected(doctors, q));
    }
  }

  /** The results rearrange the filtered subsequence and nothing more. */
  lemma ResultsArePermutation(doctors: seq<Doctor>, q: QueryState)
    ensures multiset(Results(doctors, q)) == multiset(Selected(doctors, q))
    ensures |Results(doctors, q)| == |Selected(doctors, q)|
  {
    SortedIsPermutation(Selected(doctors, q), ActiveOrder(q));
    assert |multiset(Results(doctors, q))| == |multiset(Selected(doctors, q))|;
  }

  /** Without an active, recognised sort option the results are the filtered subsequence in
      source order. */
  lemma UnsortedKeepsSourceOrder(doctors: seq<Doctor>, q: QueryState)
    requires !IsSet(q.sortOption) || ParseSortOption(q.sortOption.value).None?
    ensures Results(doctors, q) == Selected(doctors, q)
  {
    SortedWithoutKeyIsIdentity(Selected(doctors, q));
  }

  /** The mode is taken from the URL unchecked: a string that names no consultation mode
      filters out every doctor. */
  lemma UnknownModeShowsNothing(doctors: seq<Doctor>, q: QueryState)
    requires IsSet(q.consultationMode)
    requires forall m: ConsultationMode :: m.Label() != q.consultationMode.value
    ensures Results(doctors, q) == []
  {
    ResultsMembers(doctors, q);
    var r := Results(doctors, q);
    forall d
      ensures multiset(r)[d] == 0
    {
      assert d !in r;
    }
    assert multiset(r) == multiset{};
  }

  /** Sorting by fees yields non-decreasing fees. */
  lemma FeesAscending(doctors: seq<Doctor>, q: QueryState)
    requires q.sortOption == Some("fees")
    ensures forall i, j :: 0 <= i < j < |Results(doctors, q)| ==>
      Results(doctors, q)[i].fees <= Results(doctors, q)[j].fees
  {
    SortedIsAscending(Selected(doctors, q), Some(Fees));
  }

  /** Sorting by experience yields non-increasing experience. */
  lemma ExperienceDescending(doctors: seq<Doctor>, q: QueryState)
    requires q.sortOption == Some("experience")
    ensures forall i, j :: 0 <= i < j < |Results(doctors, q)| ==>
      Results(doctors, q)[i].experience >= Results(doctors, q)[j].experience
  {
    var r := Results(doctors, q);
    SortedIsAscending(Selected(doctors, q), Some(Experience));
    forall i, j | 0 <= i < j < |r|
      ensures r[i].experience >= r[j].experience
    {
      assert Key(r[i], Some(Experience)) <= Key(r[j], Some(Experience));
    }
  }

  /** Doctors that tie under the active comparator keep their source order. */
  lemma ResultsAreStable(doctors: seq<Doctor>, q: QueryState, k: int)
    ensures WithKey(Results(doctors, q), ActiveOrder(q), k) == WithKey(Selected(doctors, q), ActiveOrder(q), k)
  {
    SortedIsStable(Selected(doctors, q), ActiveOrder(q), k);
  }

  /** With every filter cleared the results are the loaded list itself. */
  lemma ClearedShowsEverything(doctors: seq<Doctor>)
    ensures Results(doctors, Cleared) == doctors
  {
    FilterKeepsAll(doctors, MatchesOf(Cleared));
    SortedWithoutKeyIsIdentity(doctors);
  }

  function NameMatchesOf(term: string): Doctor -> bool
  {
    d => NameMatches(d, term)
  }

  /** All doctors whose names match the term, in source order. */
  function NameMatchesIn(doctors: seq<Doctor>, term: string): seq<Doctor>
  {
    Filter(doctors, NameMatchesOf(term))
  }

  /** `suggestions`: nothing for an empty term or an empty list, otherwise the first three
      name matches of the unfiltered list. It depends on the search term alone, so mode,
      specialties and sort cannot affect it. */
  function Suggestions(doctors: seq<Doctor>, term: string): (r: seq<Doctor>)
    ensures |r| <= 3
    ensures term == "" || doctors == [] ==> r == []
    ensures forall d :: d in r ==> d in doctors && NameMatches(d, term)
  {
    if term == "" || |doctors| == 0 then []
    else Take(NameMatchesIn(doctors, term), 3)
  }

  /** For a non-empty term the suggestions are the first min(3, k) of the k name matches. */
  lemma SuggestionsArePrefix(doctors: seq<Doctor>, term: string)
    requires term != ""
    ensures var k := |NameMatchesIn(doctors, term)|;
      |Suggestions(doctors, term)| == (if k < 3 then k else 3)
    ensures Suggestions(doctors, term) == NameMatchesIn(doctors, term)[..|Suggestions(doctors, term)|]
  {
  }

  /** The name match ignores the letter case of the term and of the name. */
  lemma NameMatchIgnoresCase(d: Doctor, term: string)
    ensures NameMatches(d, term) <==> NameMatches(d, Lower(term))
    ensures NameMatches(d, term) <==> NameMatches(d.(name := Lower(d.name)), term)
  {
    LowerIdempotent(term);
    LowerIdempotent(d.name);
  }

  /** The term "RAM" suggests "Dr. Ram". */
  lemma SuggestionIgnoresCase(d: Doctor)
    requires d.name == "Dr. Ram"
    ensures Suggestions([d], "RAM") == [d]
  {
    var name, term := Lower(d.name), Lower("RAM");
    assert term == "ram";
    assert name[4..7] == "ram";
    assert OccursAt(name, term, 4);
    assert NameMatches(d, "RAM");
    assert NameMatchesIn([d], "RAM") == [d] + NameMatchesIn([], "RAM");
  }

  /** An empty doctor list gives neither results nor suggestions. */
  lemma NoDoctorsNothingShown(q: QueryState)
    ensures Results([], q) == []
    ensures Suggestions([], q.searchTerm) == []
  {
  }
}
