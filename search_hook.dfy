/** The search hook's state: the four filter fields, initialised from the URL and written back
    to the parameter map after every change, with the specialty toggle and the reset. */
module SearchHook {
  import opened Json
  import opened Doctors
  import opened Seqs
  import opened Filtering
  import opened QueryParams

  function Other(s: string): string -> bool
  {
    x => x != s
  }

  /** The functional update of `toggleSpecialty`: drops every occurrence of a selected
      specialty, or appends an unselected one. */
  function Toggled(selected: seq<string>, s: string): (r: seq<string>)
    ensures s in r <==> s !in selected
    ensures forall x :: x != s ==> (x in r <==> x in selected)
  {
    if s in selected then Filter(selected, Other(s)) else selected + [s]
  }

  /** The other entries keep their relative order. */
  lemma ToggleKeepsOthers(selected: seq<string>, s: string)
    ensures Filter(Toggled(selected, s), Other(s)) == Filter(selected, Other(s))
  {
    if s in selected {
      FilterKeepsAll(Filter(selected, Other(s)), Other(s));
    } else {
      FilterConcat(selected, [s], Other(s));
      assert Filter([s], Other(s)) == [] + Filter([], Other(s));
    }
  }

  /** An unselected specialty is appended at the end, and toggling it again restores the
      list. */
  lemma ToggleTwice(selected: seq<string>, s: string)
    requires s !in selected
    ensures Toggled(selected, s) == selected + [s]
    ensures Toggled(Toggled(selected, s), s) == selected
  {
    FilterConcat(selected, [s], Other(s));
    assert Filter([s], Other(s)) == [] + Filter([], Other(s));
    FilterKeepsAll(selected, Other(s));
  }

  /** The hook: its four state fields and the URL parameter map it keeps in step. */
  class DoctorSearch {
    var searchTerm: string
    var consultationMode: Option<string>
    var selectedSpecialties: seq<string>
    var sortOption: Option<string>
    var params: map<string, string>

    function State(): QueryState
      reads this
    {
      QueryState(searchTerm, consultationMode, selectedSpecialties, sortOption)
    }

    /** The parameter map reflects the current state. */
    predicate Synced()
      reads this
    {
      params == Encode(State())
    }

    /** Mounting the hook: each field is read from the URL, then the effect writes the map
        back from the state. */
    constructor (url: map<string, string>)
      ensures State() == Decode(url)
      ensures Synced()
    {
      searchTerm := if "search" in url && url["search"] != "" then url["search"] else "";
      consultationMode := if "mode" in url then Some(url["mode"]) else None;
      selectedSpecialties := if "specialties" in url && url["specialties"] != "" then Split(url["specialties"]) else [];
      sortOption := if "sort" in url then Some(url["sort"]) else None;
      new;
      SyncParams();
    }

    /** The URL effect: builds the map field by field from the state. */
    method SyncParams()
      modifies this
      ensures State() == old(State())
      ensures Synced()
    {
      var next: map<string, string> := map[];
      if searchTerm != "" {
        next := next["search" := searchTerm];
      }
      if consultationMode.Some? && consultationMode.value != "" {
        next := next["mode" := consultationMode.value];
      }
      if |selectedSpecialties| > 0 {
        next := next["specialties" := Join(selectedSpecialties)];
      }
      if sortOption.Some? && sortOption.value != "" {
        next := next["sort" := sortOption.value];
      }
      params := next;
      ghost var encoded := Encode(State());
      forall k
        ensures k in params <==> k in encoded
        ensures k in params ==> params[k] == encoded[k]
      {
      }
    }

    method SetSearchTerm(term: string)
      modifies this
      ensures State() == old(State()).(searchTerm := term)
      ensures Synced()
    {
      searchTerm := term;
      SyncParams();
    }

    /** Choosing a mode in the panel, or `null` to clear it. */
    method SetConsultationMode(mode: Option<ConsultationMode>)
      modifies this
      ensures State() == old(State()).(consultationMode := if mode.Some? then Some(mode.value.Label()) else None)
      ensures Synced()
    {
      consultationMode := if mode.Some? then Some(mode.value.Label()) else None;
      SyncParams();
    }

    /** Choosing a sort option, or `null` to clear it. */
    method SetSortOption(option: Option<SortOption>)
      modifies this
      ensures State() == old(State()).(sortOption := if option.Some? then Some(option.value.Label()) else None)
      ensures Synced()
    {
      sortOption := if option.Some? then Some(option.value.Label()) else None;
      SyncParams();
    }

    method ToggleSpecialty(s: string)
      modifies this
      ensures State() == old(State()).(selectedSpecialties := Toggled(old(selectedSpecialties), s))
      ensures s in selectedSpecialties <==> s !in old(selectedSpecialties)
      ensures Synced()
    {
      if s in selectedSpecialties {
        selectedSpecialties := Filter(selectedSpecialties, Other(s));
      } else {
        selectedSpecialties := selectedSpecialties + [s];
      }
      SyncParams();
    }

    /** Resets all four fields and empties the parameter map. */
    method ClearAllFilters()
      modifies this
      ensures State() == Cleared
      ensures params == map[]
      ensures Synced()
    {
      searchTerm := "";
      consultationMode := None;
      selectedSpecialties := [];
      sortOption := None;
      params := map[];
    }
  }
}
