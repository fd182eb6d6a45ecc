/** Normalisation of the fetched payload into `Doctor` records: numeric coercion of
    experience and fees, specialty names, consultation modes, and the per-item defaults.
    The network request itself is not part of this model. */
module DoctorService {
  import opened Json
  import opened Doctors

  // ---------------------------------------------------------------------------------
  // Digits: the regular expression /(\d+)/ followed by parseInt(match[1], 10)
  // ---------------------------------------------------------------------------------

  /** `\d` without the unicode flag: an ASCII decimal digit. */
  predicate IsDigit(c: char)
  {
    '0' <= c <= '9'
  }

  predicate AllDigits(s: string)
  {
    forall i :: 0 <= i < |s| ==> IsDigit(s[i])
  }

  predicate NoDigits(s: string)
  {
    forall i :: 0 <= i < |s| ==> !IsDigit(s[i])
  }

  /** The base-10 value of a run of digits, as `parseInt(ds, 10)` reads it. */
  function DecimalValue(ds: string): nat
    requires AllDigits(ds)
  {
    if ds == [] then 0
    else DecimalValue(ds[..|ds| - 1]) * 10 + (ds[|ds| - 1] as int - '0' as int)
  }

  /** The index of the first digit of `s`, or `|s|` when there is none. */
  function FirstDigit(s: string): (i: nat)
    ensures i <= |s|
    ensures NoDigits(s[..i])
    ensures i < |s| ==> IsDigit(s[i])
  {
    if s == [] || IsDigit(s[0]) then 0
    else
      var i := FirstDigit(s[1..]);
      assert s[..i + 1] == [s[0]] + s[1..][..i];
      i + 1
  }

  /** The length of the longest prefix of `s` made of digits. */
  function DigitRunLength(s: string): (n: nat)
    ensures n <= |s|
    ensures AllDigits(s[..n])
    ensures n < |s| ==> !IsDigit(s[n])
  {
    if s == [] || !IsDigit(s[0]) then 0
    else
      var n := DigitRunLength(s[1..]);
      assert s[..n + 1] == [s[0]] + s[1..][..n];
      n + 1
  }

  /** `s.match(/(\d+)/)` then `parseInt(match[1], 10)`: the value of the first maximal
      run of digits, or nothing when `s` has no digit. */
  function FirstInteger(s: string): Option<nat>
  {
    var i := FirstDigit(s);
    if i == |s| then None
    else
      var n := DigitRunLength(s[i..]);
      assert s[i..][..n] == s[i..i + n];
      Some(DecimalValue(s[i..i + n]))
  }

  /** `FirstInteger` is characterised by the split of `s` into a digit-free prefix
      `s[..i]`, a maximal run of digits `s[i..j]` and the rest. */
  lemma FirstIntegerIsFirstRun(s: string, i: nat, j: nat)
    requires i < j <= |s|
    requires NoDigits(s[..i]) && AllDigits(s[i..j])
    requires j == |s| || !IsDigit(s[j])
    ensures FirstInteger(s) == Some(DecimalValue(s[i..j]))
  {
    var k := FirstDigit(s);
    forall m | 0 <= m < i
      ensures !IsDigit(s[m])
    {
      assert s[..i][m] == s[m];
    }
    forall m | 0 <= m < k
      ensures !IsDigit(s[m])
    {
      assert s[..k][m] == s[m];
    }
    assert IsDigit(s[i]) by {
      assert s[i..j][0] == s[i];
    }
    assert k == i;
    var n := DigitRunLength(s[i..]);
    forall m | 0 <= m < j - i
      ensures IsDigit(s[i..][m])
    {
      assert s[i..][m] == s[i..j][m];
    }
    forall m | 0 <= m < n
      ensures IsDigit(s[i..][m])
    {
      assert s[i..][..n][m] == s[i..][m];
    }
    assert n == j - i;
    assert s[i..][..n] == s[i..j];
  }

  /** A string without digits has no integer in it, and a string with one has. */
  lemma FirstIntegerNone(s: string)
    ensures FirstInteger(s).None? <==> NoDigits(s)
  {
    var k := FirstDigit(s);
    if k == |s| {
      assert s[..k] == s;
    }
  }

  // ---------------------------------------------------------------------------------
  // The processX helpers
  // ---------------------------------------------------------------------------------

  /** `processExperience`: a number as it is, the first integer of a string, else 0. */
  function ProcessExperience(exp: Option<Json>): (r: int)
    ensures exp.Some? && exp.value.JNum? ==> r == exp.value.n
    ensures exp.Some? && exp.value.JStr? ==> r >= 0
    ensures exp.Some? && exp.value.JStr? && NoDigits(exp.value.s) ==> r == 0
    ensures exp.None? || !(exp.value.JNum? || exp.value.JStr?) ==> r == 0
  {
    match exp
    case Some(JStr(s)) =>
      FirstIntegerNone(s);
      (match FirstInteger(s) case Some(v) => v case None => 0)
    case Some(JNum(n)) => n
    case _ => 0
  }

  /** `processFees`: the same coercion as `processExperience`, written out separately. */
  function ProcessFees(fees: Option<Json>): (r: int)
    ensures fees.Some? && fees.value.JNum? ==> r == fees.value.n
    ensures fees.Some? && fees.value.JStr? ==> r >= 0
    ensures fees.None? || !(fees.value.JNum? || fees.value.JStr?) ==> r == 0
  {
    match fees
    case Some(JStr(s)) => (match FirstInteger(s) case Some(v) => v case None => 0)
    case Some(JNum(n)) => n
    case _ => 0
  }

  /** The two coercions agree on every input. */
  lemma FeesAgreeWithExperience(v: Option<Json>)
    ensures ProcessFees(v) == ProcessExperience(v)
  {
  }

  /** For a string, both coercions give the decimal value of the first maximal run of
      digits. */
  lemma StringCoercionValue(s: string, i: nat, j: nat)
    requires i < j <= |s|
    requires NoDigits(s[..i]) && AllDigits(s[i..j])
    requires j == |s| || !IsDigit(s[j])
    ensures ProcessExperience(Some(JStr(s))) == DecimalValue(s[i..j])
    ensures ProcessFees(Some(JStr(s))) == DecimalValue(s[i..j])
  {
    FirstIntegerIsFirstRun(s, i, j);
  }

  /** `processExperience("15 years")` is 15. */
  lemma ExperienceOfFifteenYears()
    ensures ProcessExperience(Some(JStr("15 years"))) == 15
  {
    var s := "15 years";
    FirstIntegerIsFirstRun(s, 0, 2);
    assert s[0..2] == "15";
    assert DecimalValue("15") == 15 by {
      assert "15"[..1] == "1";
    }
  }

  /** The name of one entry of `specialities`: `spec.name || ""`, which throws when the
      entry itself is `null`. */
  function SpecialtyName(spec: Json): Result<string>
  {
    if spec.JNull? then TypeError else Ok(TextOr(Field(Some(spec), "name"), ""))
  }

  /** `specs.map(spec => spec.name || "").filter(Boolean)`: the non-empty names in order. */
  function SpecialtyNames(specs: seq<Json>): (r: Result<seq<string>>)
    ensures r.TypeError? <==> JNull in specs
    ensures r.Ok? ==> "" !in r.value && |r.value| <= |specs|
  {
    if specs == [] then Ok([])
    else
      assert specs == [specs[0]] + specs[1..];
      match SpecialtyName(specs[0])
      case TypeError => TypeError
      case Ok(name) =>
        match SpecialtyNames(specs[1..])
        case TypeError => TypeError
        case Ok(rest) => Ok(if name != "" then [name] + rest else rest)
  }

  /** The names of a concatenation are the names of its parts, concatenated: the names
      keep the order of their entries. */
  lemma {:induction false} SpecialtyNamesConcat(a: seq<Json>, b: seq<Json>)
    requires JNull !in a + b
    ensures SpecialtyNames(a + b).Ok? && SpecialtyNames(a).Ok? && SpecialtyNames(b).Ok?
    ensures SpecialtyNames(a + b).value == SpecialtyNames(a).value + SpecialtyNames(b).value
  {
    if a == [] {
      assert a + b == b;
    } else {
      assert (a + b)[0] == a[0] && (a + b)[1..] == a[1..] + b;
      assert JNull !in a[1..] + b;
      SpecialtyNamesConcat(a[1..], b);
      var head := SpecialtyName(a[0]).value;
      var first := if head != "" then [head] else [];
      assert SpecialtyNames(a).value == first + SpecialtyNames(a[1..]).value;
      assert SpecialtyNames(a + b).value == first + SpecialtyNames(a[1..] + b).value;
    }
  }

  /** A string is among the names exactly when it is the non-empty name of some entry. */
  lemma {:induction false} SpecialtyNamesMembers(specs: seq<Json>, x: string)
    requires JNull !in specs
    ensures SpecialtyNames(specs).Ok?
    ensures x in SpecialtyNames(specs).value <==> x != "" && exists spec :: spec in specs && SpecialtyName(spec) == Ok(x)
  {
    if specs != [] {
      assert specs == [specs[0]] + specs[1..];
      SpecialtyNamesMembers(specs[1..], x);
    }
  }

  /** `processSpecialties`: the names of the `specialities` array, or `[]` when the field
      is missing or not an array. */
  function ProcessSpecialties(item: Json): (r: Result<seq<string>>)
    requires !item.JNull?
    ensures !Field(Some(item), "specialities").Some? || !Field(Some(item), "specialities").value.JArr? ==> r == Ok([])
    ensures r.TypeError? <==> exists specs :: Field(Some(item), "specialities") == Some(JArr(specs)) && JNull in specs
    ensures r.Ok? ==> "" !in r.value
  {
    match Field(Some(item), "specialities")
    case Some(JArr(specs)) => SpecialtyNames(specs)
    case _ => Ok([])
  }

  /** The consultation modes of a raw item, video first. */
  function ConsultationModes(item: Json): (modes: seq<ConsultationMode>)
    ensures VideoConsult in modes <==> Truthy(Field(Some(item), "video_consult"))
    ensures InClinic in modes <==> Truthy(Field(Some(item), "in_clinic"))
    ensures |modes| <= 2
    ensures VideoConsult in modes ==> modes[0] == VideoConsult
    ensures forall i, j :: 0 <= i < j < |modes| ==> modes[i] != modes[j]
  {
    (if Truthy(Field(Some(item), "video_consult")) then [VideoConsult] else [])
    + (if Truthy(Field(Some(item), "in_clinic")) then [InClinic] else [])
  }

  /** `processConsultationModes`: builds the list by pushing one mode per truthy flag. */
  method ProcessConsultationModes(item: Json) returns (modes: seq<ConsultationMode>)
    ensures modes == ConsultationModes(item)
  {
    modes := [];
    if Truthy(Field(Some(item), "video_consult")) {
      modes := modes + [VideoConsult];
    }
    if Truthy(Field(Some(item), "in_clinic")) {
      modes := modes + [InClinic];
    }
  }

  /** `item.clinic?.address?.city`. */
  function City(item: Json): Option<Json>
  {
    Field(Field(Field(Some(item), "clinic"), "address"), "city")
  }

  /** The record built for one payload item; `fallbackId` stands for the random id used
      when the item has none. Reading a property of a `null` item throws. */
  function NormalizeItem(item: Json, fallbackId: string): (r: Result<Doctor>)
    ensures r.TypeError? <==> item.JNull? || ProcessSpecialties(item).TypeError?
  {
    if item.JNull? then TypeError
    else
      match ProcessSpecialties(item)
      case TypeError => TypeError
      case Ok(specialty) =>
        Ok(Doctor(
          id := TextOr(Field(Some(item), "id"), fallbackId),
          name := TextOr(Field(Some(item), "name"), "Unknown Doctor"),
          specialty := specialty,
          experience := ProcessExperience(Field(Some(item), "experience")),
          fees := ProcessFees(Field(Some(item), "fees")),
          consultationModes := ConsultationModes(item),
          location := TextOr(City(item), "Unknown location"),
          picture := Text(Field(Some(item), "photo"))))
  }

  /** What the record construction puts in each field: the item's value when it is a
      non-empty string, otherwise the default; the helpers' results for the rest. */
  lemma RecordDefaults(item: Json, fallbackId: string)
    requires NormalizeItem(item, fallbackId).Ok?
    ensures var d := NormalizeItem(item, fallbackId).value;
      && (Text(Field(Some(item), "name")).None? ==> d.name == "Unknown Doctor")
      && (Text(Field(Some(item), "name")).Some? ==> d.name == Text(Field(Some(item), "name")).value)
      && (Text(Field(Some(item), "id")).None? ==> d.id == fallbackId)
      && (Text(Field(Some(item), "id")).Some? ==> d.id == Text(Field(Some(item), "id")).value)
      && (Text(City(item)).None? ==> d.location == "Unknown location")
      && (Text(City(item)).Some? ==> d.location == Text(City(item)).value)
      && (!Truthy(Field(Some(item), "photo")) ==> d.picture.None?)
      && (Text(Field(Some(item), "photo")).Some? ==> d.picture == Text(Field(Some(item), "photo")))
      && d.specialty == ProcessSpecialties(item).value
      && "" !in d.specialty
      && d.experience == ProcessExperience(Field(Some(item), "experience"))
      && d.fees == ProcessFees(Field(Some(item), "fees"))
      && d.consultationModes == ConsultationModes(item)
  {
  }

  /** The processing step of `fetchDoctors`: an array payload is mapped item by item,
      keeping length and order; any other payload gives no doctors. */
  function NormalizePayload(payload: Json, fallbackId: nat -> string): (r: Result<seq<Doctor>>)
    ensures !payload.JArr? ==> r == Ok([])
    ensures payload.JArr? ==>
      (r.Ok? <==> forall i :: 0 <= i < |payload.items| ==> NormalizeItem(payload.items[i], fallbackId(i)).Ok?)
    ensures payload.JArr? && r.Ok? ==> |r.value| == |payload.items|
    ensures payload.JArr? && r.Ok? ==>
      forall i :: 0 <= i < |r.value| ==> r.value[i] == NormalizeItem(payload.items[i], fallbackId(i)).value
  {
    match payload
    case JArr(items) =>
      var each := seq(|items|, i requires 0 <= i < |items| => NormalizeItem(items[i], fallbackId(i)));
      assert forall i :: 0 <= i < |items| ==> each[i] == NormalizeItem(items[i], fallbackId(i));
      Collect(each)
    case _ => Ok([])
  }
}
