/** The facet extractor: every distinct non-empty specialty of the loaded doctors, in
    ascending string order, as offered by the filter panel. */
module Facets {
  import opened Doctors
  import opened Strings

  /** The non-empty specialty names of one doctor. */
  function Named(specialty: seq<string>): set<string>
  {
    set s | s in specialty && s != ""
  }

  /** The non-empty specialties of the doctors, as a set. */
  function SpecialtySet(doctors: seq<Doctor>): set<string>
  {
    if doctors == [] then {}
    else SpecialtySet(doctors[..|doctors| - 1]) + Named(doctors[|doctors| - 1].specialty)
  }

  /** A string is a facet exactly when it is a non-empty specialty of some doctor. */
  lemma {:induction false} SpecialtySetMembers(doctors: seq<Doctor>, s: string)
    ensures s in SpecialtySet(doctors) <==> s != "" && exists d :: d in doctors && s in d.specialty
  {
    if doctors != [] {
      var init, last := doctors[..|doctors| - 1], doctors[|doctors| - 1];
      SpecialtySetMembers(init, s);
      assert doctors == init + [last];
      if s != "" && s in last.specialty {
        assert last in doctors;
      }
      if exists d :: d in doctors && s in d.specialty {
        var d :| d in doctors && s in d.specialty;
        if d != last {
          assert d in init;
        }
      }
    }
  }

  /** The least string of a non-empty set, found by one pass over it. */
  method Least(strings: set<string>) returns (m: string)
    requires strings != {}
    ensures m in strings
    ensures forall x :: x in strings && x != m ==> LexLess(m, x)
  {
    m :| m in strings;
    var pool := strings - {m};
    while pool != {}
      invariant pool <= strings && m in strings && m !in pool
      invariant forall x :: x in strings && x !in pool && x != m ==> LexLess(m, x)
      decreases |pool|
    {
      var y :| y in pool;
      if LexLess(y, m) {
        forall x | x in strings && x !in pool && x != m
          ensures LexLess(y, x)
        {
          LexTransitive(y, m, x);
        }
        m := y;
      } else {
        LexTotal(y, m);
      }
      pool := pool - {y};
    }
  }

  /** `Array.from(set).sort()`: the strings of the set in strictly ascending order. */
  method SortSet(strings: set<string>) returns (sorted: seq<string>)
    ensures StrictlyAscending(sorted)
    ensures forall x :: x in sorted <==> x in strings
    ensures |sorted| == |strings|
  {
    sorted := [];
    var rest := strings;
    while rest != {}
      invariant rest <= strings
      invariant StrictlyAscending(sorted)
      invariant forall x :: x in sorted <==> x in strings && x !in rest
      invariant forall x, y :: x in sorted && y in rest ==> LexLess(x, y)
      invariant |sorted| + |rest| == |strings|
      decreases |rest|
    {
      var m := Least(rest);
      sorted := sorted + [m];
      rest := rest - {m};
    }
  }

  /** `allSpecialties`: collects the non-empty specialties into a set, doctor by doctor,
      then sorts them. The result is determined by this contract (`AscendingUnique`). */
  method AllSpecialties(doctors: seq<Doctor>) returns (facets: seq<string>)
    ensures StrictlyAscending(facets)
    ensures forall s :: s in facets <==> s in SpecialtySet(doctors)
    ensures forall s :: s in facets <==> s != "" && exists d :: d in doctors && s in d.specialty
    ensures doctors == [] ==> facets == []
  {
    var seen: set<string> := {};
    if |doctors| > 0 {
      for i := 0 to |doctors|
        invariant seen == SpecialtySet(doctors[..i])
      {
        var specialties := doctors[i].specialty;
        for j := 0 to |specialties|
          invariant seen == SpecialtySet(doctors[..i]) + Named(specialties[..j])
        {
          if specialties[j] != "" {
            seen := seen + {specialties[j]};
          }
          assert specialties[..j + 1] == specialties[..j] + [specialties[j]];
        }
        assert specialties[..|specialties|] == specialties;
        assert doctors[..i + 1][..i] == doctors[..i];
      }
      assert doctors[..|doctors|] == doctors;
    }
    facets := SortSet(seen);
    forall s
      ensures s in facets <==> s != "" && exists d :: d in doctors && s in d.specialty
    {
      SpecialtySetMembers(doctors, s);
    }
  }

  /** The facets are fixed by the extractor's contract: specialties `["Cardiology"]` and
      `["Dermatology", "Cardiology"]` give exactly `["Cardiology", "Dermatology"]`. */
  lemma CardiologyDermatology(first: Doctor, second: Doctor, facets: seq<string>)
    requires first.specialty == ["Cardiology"]
    requires second.specialty == ["Dermatology", "Cardiology"]
    requires StrictlyAscending(facets)
    requires forall s :: s in facets <==> s in SpecialtySet([first, second])
    ensures facets == ["Cardiology", "Dermatology"]
  {
    var expected := ["Cardiology", "Dermatology"];
    assert [first, second][..1] == [first] && [first][..0] == [];
    assert Named(first.specialty) == {"Cardiology"};
    assert Named(second.specialty) == {"Dermatology", "Cardiology"};
    assert SpecialtySet([first]) == {"Cardiology"};
    assert SpecialtySet([first, second]) == {"Cardiology", "Dermatology"};
    assert LexLess(expected[0], expected[1]);
    AscendingUnique(facets, expected);
  }
}
