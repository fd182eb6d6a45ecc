/** The canonical practitioner record and the two closed vocabularies that go with it. */
module Doctors {
  import opened Json

  /** How a doctor can be consulted; `Label` is the string the records and the URL carry. */
  datatype ConsultationMode = VideoConsult | InClinic
  {
    function Label(): string
    {
      match this
      case VideoConsult => "Video Consult"
      case InClinic => "In Clinic"
    }
  }

  /** The two sort keys the result list offers. */
  datatype SortOption = Fees | Experience
  {
    function Label(): string
    {
      match this
      case Fees => "fees"
      case Experience => "experience"
    }
  }

  /** Reads a sort string such as the one stored in the URL; anything that is not one of
      the two labels is not a sort option. */
  function ParseSortOption(s: string): (r: Option<SortOption>)
    ensures r.Some? ==> r.value.Label() == s
    ensures r.None? ==> forall o: SortOption :: o.Label() != s
  {
    if s == "fees" then Some(Fees)
    else if s == "experience" then Some(Experience)
    else None
  }

  /** A normalised doctor. The fixed `rating` constant of the source is not kept. */
  datatype Doctor = Doctor(
    id: string,
    name: string,
    specialty: seq<string>,
    experience: int,
    fees: int,
    consultationModes: seq<ConsultationMode>,
    location: string,
    picture: Option<string>)
}
