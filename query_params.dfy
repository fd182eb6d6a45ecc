/** The two-way coding between the search state and the flat URL parameter map with the keys
    `search`, `mode`, `specialties` and `sort`. */
module QueryParams {
  import opened Json
  import opened Filtering

  /** `s.split(",")`: the pieces between commas; the empty string gives one empty piece. */
  function Split(s: string): (parts: seq<string>)
    ensures |parts| >= 1
    ensures forall i :: 0 <= i < |parts| ==> ',' !in parts[i]
  {
    if s == [] then [""]
    else
      var rest := Split(s[1..]);
      if s[0] == ',' then [""] + rest
      else [[s[0]] + rest[0]] + rest[1..]
  }

  /** `xs.join(",")`. */
  function Join(xs: seq<string>): string
  {
    if xs == [] then ""
    else if |xs| == 1 then xs[0]
    else xs[0] + "," + Join(xs[1..])
  }

  /** Joining the pieces of a split gives the string back, for every string. */
  lemma {:induction false} JoinSplit(s: string)
    ensures Join(Split(s)) == s
  {
    if s != [] {
      var rest := Split(s[1..]);
      JoinSplit(s[1..]);
      if s[0] == ',' {
        assert ([""] + rest)[1..] == rest;
      } else if |rest| > 1 {
        var parts := [[s[0]] + rest[0]] + rest[1..];
        assert parts[1..] == rest[1..];
        assert Join(rest) == rest[0] + "," + Join(rest[1..]);
      }
    }
  }

  /** A comma-free string splits into itself alone. */
  lemma {:induction false} SplitNoComma(x: string)
    requires ',' !in x
    ensures Split(x) == [x]
  {
    if x != [] {
      SplitNoComma(x[1..]);
      assert x == [x[0]] + x[1..];
    }
  }

  /** Splitting past a leading comma-free piece and its comma. */
  lemma {:induction false} SplitAfterPiece(x: string, t: string)
    requires ',' !in x
    ensures Split(x + "," + t) == [x] + Split(t)
  {
    if x == [] {
      assert x + "," + t == [','] + t;
      assert (x + "," + t)[1..] == t;
    } else {
      assert (x + "," + t)[1..] == x[1..] + "," + t;
      SplitAfterPiece(x[1..], t);
      assert x == [x[0]] + x[1..];
    }
  }

  /** Splitting a join gives the list back, when the list is non-empty and no entry
      contains a comma. */
  lemma {:induction false} SplitJoin(xs: seq<string>)
    requires |xs| >= 1
    requires forall i :: 0 <= i < |xs| ==> ',' !in xs[i]
    ensures Split(Join(xs)) == xs
  {
    if |xs| == 1 {
      SplitNoComma(xs[0]);
    } else {
      SplitJoin(xs[1..]);
      SplitAfterPiece(xs[0], Join(xs[1..]));
      assert xs == [xs[0]] + xs[1..];
    }
  }

  /** The join is the empty string only for the empty list and the list of one empty entry. */
  lemma {:induction false} JoinEmpty(xs: seq<string>)
    ensures Join(xs) == "" <==> xs == [] || xs == [""]
  {
    if |xs| > 1 {
      assert Join(xs)[|xs[0]|] == ',';
    }
  }

  /** The parameter map the URL effect writes: a key for each field that is not at its
      default (a non-empty term, a set mode, a non-empty list, a set sort). */
  function Encode(q: QueryState): (m: map<string, string>)
    ensures m.Keys <= {"search", "mode", "specialties", "sort"}
    ensures "search" in m <==> q.searchTerm != ""
    ensures "mode" in m <==> IsSet(q.consultationMode)
    ensures "specialties" in m <==> |q.selectedSpecialties| > 0
    ensures "sort" in m <==> IsSet(q.sortOption)
    ensures "search" in m ==> m["search"] == q.searchTerm
    ensures "mode" in m ==> m["mode"] == q.consultationMode.value
    ensures "specialties" in m ==> m["specialties"] == Join(q.selectedSpecialties)
    ensures "sort" in m ==> m["sort"] == q.sortOption.value
  {
    (if q.searchTerm != "" then map["search" := q.searchTerm] else map[])
    + (if IsSet(q.consultationMode) then map["mode" := q.consultationMode.value] else map[])
    + (if |q.selectedSpecialties| > 0 then map["specialties" := Join(q.selectedSpecialties)] else map[])
    + (if IsSet(q.sortOption) then map["sort" := q.sortOption.value] else map[])
  }

  /** The initial state read from the URL: the term or "", the raw mode and sort strings
      when present, and the split list when the `specialties` value is non-empty. */
  function Decode(m: map<string, string>): (q: QueryState)
    ensures q.searchTerm != "" ==> "search" in m && m["search"] == q.searchTerm
    ensures q.consultationMode.Some? <==> "mode" in m
    ensures q.sortOption.Some? <==> "sort" in m
    ensures |q.selectedSpecialties| > 0 <==> "specialties" in m && m["specialties"] != ""
    ensures |q.selectedSpecialties| > 0 ==> Join(q.selectedSpecialties) == m["specialties"]
  {
    QueryState(
      if "search" in m then m["search"] else "",
      if "mode" in m then Some(m["mode"]) else None,
      if "specialties" in m && m["specialties"] != "" then
        (JoinSplit(m["specialties"]); Split(m["specialties"]))
      else [],
      if "sort" in m then Some(m["sort"]) else None)
  }

  /** A state survives the trip through the URL when its mode and sort are not the empty
      string, its list is not `[""]` and no selected specialty contains a comma. */
  lemma DecodeEncode(q: QueryState)
    requires q.consultationMode != Some("") && q.sortOption != Some("")
    requires q.selectedSpecialties != [""]
    requires forall i :: 0 <= i < |q.selectedSpecialties| ==> ',' !in q.selectedSpecialties[i]
    ensures Decode(Encode(q)) == q
  {
    if |q.selectedSpecialties| > 0 {
      SplitJoin(q.selectedSpecialties);
      JoinEmpty(q.selectedSpecialties);
    }
  }

  /** A canonical parameter map (known keys, non-empty values) survives the trip through
      the state. */
  lemma EncodeDecode(m: map<string, string>)
    requires m.Keys <= {"search", "mode", "specialties", "sort"}
    requires forall k :: k in m ==> m[k] != ""
    ensures Encode(Decode(m)) == m
  {
    var q := Decode(m);
    var r := Encode(q);
    forall k
      ensures k in r <==> k in m
      ensures k in m ==> r[k] == m[k]
    {
      if k == "specialties" && k in m {
        JoinSplit(m[k]);
      }
    }
  }

  /** A selected specialty holding a comma comes back as two. */
  lemma CommaSplitsSpecialty()
    ensures Decode(Encode(QueryState("", None, ["a,b"], None))).selectedSpecialties == ["a", "b"]
  {
    SplitNoComma("b");
    SplitAfterPiece("a", "b");
    assert "a" + "," + "b" == "a,b";
  }

  /** A mode set to the empty string is inactive, so it is not written and reads back as
      absent. */
  lemma EmptyModeIsDropped()
    ensures Decode(Encode(QueryState("", Some(""), [], None))).consultationMode == None
  {
  }

  /** The cleared state writes the empty map. */
  lemma ClearedEncodesEmpty()
    ensures Encode(Cleared) == map[]
  {
  }
}
