/** The grievance screen (components/GrievancePortal.tsx): a description is
    first classified by the hosted model, then filed as a new grievance at
    the top of the list. The classification reply (or the failure), the
    random draw for the id and the clock reading are parameters. */
module GrievancePortalScreen {
  import opened Types
  import opened JsRuntime

  /** An id of the form `GR-nnnn` with `nnnn` a number from 1000 to 9999. */
  predicate IsGrievanceId(id: string) {
    && |id| == 7
    && id[..3] == "GR-"
    && AllDigits(id[3..])
    && 1000 <= DigitsValue(id[3..]) <= 9999
  }

  /** `GR-${Math.floor(Math.random() * 9000) + 1000}` for the draw
      `r = Math.floor(Math.random() * 9000)`. The number after the prefix
      is `r + 1000` and takes four digits. */
  function GrievanceId(r: nat): (id: string)
    requires r < 9000
    ensures IsGrievanceId(id)
    ensures DigitsValue(id[3..]) == r + 1000
  {
    var digits := Decimal(r + 1000);
    FourDigits(r + 1000);
    DecimalValue(r + 1000);
    var id := "GR-" + digits;
    assert id[3..] == digits;
    id
  }

  /** Distinct draws give distinct ids. */
  lemma GrievanceIdInjective(r1: nat, r2: nat)
    requires r1 < 9000 && r2 < 9000
    ensures GrievanceId(r1) == GrievanceId(r2) ==> r1 == r2
  {
  }

  /** The grievance filed from the form. */
  function NewGrievance(subject: string, description: string, classification: ClassificationResult,
                        r: nat, now: int): (g: Grievance)
    requires r < 9000
    ensures IsGrievanceId(g.id) && DigitsValue(g.id[3..]) == r + 1000
    ensures subject != "" ==> g.subject == subject
    ensures subject == "" ==> g.subject == "New Issue"
    ensures g.description == description
    ensures g.department == classification.department
    ensures g.status == Open
    ensures g.aiClassification == Some(classification)
    ensures g.createdAt == now
  {
    Grievance(GrievanceId(r), if subject == "" then "New Issue" else subject, description,
              classification.department, Open, now, Some(classification))
  }

  /** The sample grievance the list starts with. */
  function InitialGrievance(now: int): Grievance {
    Grievance("GR-1024", "Potholes on Main Street", "Deep potholes causing damage...",
              "Public Works", Open, now, None)
  }

  lemma InitialGrievanceId(now: int)
    ensures IsGrievanceId(InitialGrievance(now).id)
  {
    var digits := "1024";
    assert InitialGrievance(now).id[3..] == digits;
    assert digits[..3] == "102" && "102"[..2] == "10" && "10"[..1] == "1" && "1"[..0] == "";
  }

  class GrievancePortal {
    /** The `language` prop. */
    const language: string
    var subject: string
    var description: string
    var isLoading: bool
    var classification: Option<ClassificationResult>
    var grievances: seq<Grievance>

    /** Every grievance this screen holds is open and has a `GR-nnnn` id. */
    ghost predicate Valid()
      reads this
    {
      forall i :: 0 <= i < |grievances| ==> IsGrievanceId(grievances[i].id) && grievances[i].status == Open
    }

    /** The initial state: an empty form, no classification, the sample
        grievance. */
    constructor (language: string, now: int)
      ensures Valid()
      ensures this.language == language
      ensures subject == "" && description == "" && !isLoading && classification == None
      ensures grievances == [InitialGrievance(now)]
    {
      this.language := language;
      subject := "";
      description := "";
      isLoading := false;
      classification := None;
      grievances := [InitialGrievance(now)];
      InitialGrievanceId(now);
    }

    /** The subject field's `onChange`: `setSubject(value)`. */
    method SetSubject(value: string)
      requires Valid()
      modifies this
      ensures Valid()
      ensures subject == value
      ensures description == old(description) && isLoading == old(isLoading)
      ensures classification == old(classification) && grievances == old(grievances)
    {
      subject := value;
    }

    /** The description field's `onChange`: `setDescription(value)`. The
        classification already shown is kept. */
    method SetDescription(value: string)
      requires Valid()
      modifies this
      ensures Valid()
      ensures description == value
      ensures subject == old(subject) && isLoading == old(isLoading)
      ensures classification == old(classification) && grievances == old(grievances)
    {
      description := value;
    }

    /** `handleClassify`: a blank description changes nothing. Otherwise the
        description is sent for classification; on success the result
        replaces the classification, on failure the old one stays. Loading
        is over at the end either way. Returns the query sent. The guard
        `!description.trim()` is written `AllWhitespace(description)`, which
        `Trim`'s contract shows to be the same test. */
    method HandleClassify(result: Result<ClassificationResult, Failure>) returns (query: Option<string>)
      modifies this
      ensures AllWhitespace(old(description)) ==> unchanged(this) && query == None
      ensures !AllWhitespace(old(description)) ==>
                && query == Some(description)
                && classification == (if result.Ok? then Some(result.value) else old(classification))
                && !isLoading
                && subject == old(subject) && description == old(description)
                && grievances == old(grievances)
    {
      if AllWhitespace(description) {
        return None;
      }
      isLoading := true;
      query := Some(description);
      if result.Ok? {
        classification := Some(result.value);
      }
      isLoading := false;
    }

    /** `handleSubmit`: without a classification nothing changes. Otherwise
        the new grievance goes first, the earlier ones follow unchanged and
        in order, and the form is reset. `r` is the random draw
        `Math.floor(Math.random() * 9000)`. */
    method HandleSubmit(r: nat, now: int) returns (filed: Option<Grievance>)
      requires Valid()
      requires r < 9000
      modifies this
      ensures Valid()
      ensures old(classification).None? ==> unchanged(this) && filed == None
      ensures old(classification).Some? ==>
                && filed == Some(NewGrievance(old(subject), old(description), old(classification).value, r, now))
                && grievances == [filed.value] + old(grievances)
                && |grievances| == |old(grievances)| + 1
                && subject == "" && description == "" && classification == None
                && isLoading == old(isLoading)
    {
      if classification.None? {
        return None;
      }
      var g := NewGrievance(subject, description, classification.value, r, now);
      grievances := [g] + grievances;
      subject := "";
      description := "";
      classification := None;
      filed := Some(g);
    }
  }
}
