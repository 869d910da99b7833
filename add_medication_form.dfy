/**
 * The add-medication form (components/AddMedicationForm.tsx): its fields,
 * the validation on submit, and the guarded "Get Info" enrichment request.
 * The request itself is outside the model; its outcome is a parameter.
 */
module MedicationForm {
  import opened Types

  const FillAllFieldsMessage := "Please fill all required fields."
  const EnterNameFirstMessage := "Please enter a medication name first."
  const UnknownErrorMessage := "An unknown error occurred."

  /** The characters `String.prototype.trim` removes: white space and line terminators. */
  predicate IsWhitespace(c: char) {
    || c == '\t' || c == '\n' || c == '\U{B}' || c == '\U{C}' || c == '\r' || c == ' '
    || c == '\U{A0}' || c == '\U{1680}' || ('\U{2000}' <= c <= '\U{200A}')
    || c == '\U{2028}' || c == '\U{2029}' || c == '\U{202F}' || c == '\U{205F}'
    || c == '\U{3000}' || c == '\U{FEFF}'
  }

  ghost predicate IsBlank(s: string) {
    forall i :: 0 <= i < |s| ==> IsWhitespace(s[i])
  }

  function TrimStart(s: string): (r: string)
    ensures r == [] || !IsWhitespace(r[0])
    ensures |r| <= |s| && r == s[|s| - |r|..]
    ensures IsBlank(s[..|s| - |r|])
    decreases |s|
  {
    if s != [] && IsWhitespace(s[0]) then
      var r := TrimStart(s[1..]);
      assert forall i :: 0 < i < |s| - |r| ==> s[i] == s[1..][i - 1];
      r
    else s
  }

  function TrimEnd(s: string): (r: string)
    ensures r == [] || !IsWhitespace(r[|r| - 1])
    ensures |r| <= |s| && r == s[..|r|]
    ensures IsBlank(s[|r|..])
    decreases |s|
  {
    if s != [] && IsWhitespace(s[|s| - 1]) then
      var r := TrimEnd(s[..|s| - 1]);
      assert forall i :: |r| <= i < |s| - 1 ==> s[i] == s[..|s| - 1][i];
      r
    else s
  }

  /** `s.trim()`. */
  function Trim(s: string): string {
    TrimEnd(TrimStart(s))
  }

  lemma {:induction false} TrimStartEmptyIffBlank(s: string)
    ensures TrimStart(s) == [] <==> IsBlank(s)
    decreases |s|
  {
    if s != [] && IsWhitespace(s[0]) {
      TrimStartEmptyIffBlank(s[1..]);
      assert IsBlank(s) <==> IsBlank(s[1..]) by {
        assert forall i :: 0 < i < |s| ==> s[i] == s[1..][i - 1];
      }
    }
  }

  /** Trimming the end never removes a leading character that is not white space. */
  lemma {:induction false} TrimEndKeepsNonBlank(s: string)
    requires s != [] && !IsWhitespace(s[0])
    ensures TrimEnd(s) != []
    decreases |s|
  {
    if IsWhitespace(s[|s| - 1]) {
      TrimEndKeepsNonBlank(s[..|s| - 1]);
    }
  }

  /** `!name.trim()` holds exactly for names made only of white space (or empty). */
  lemma TrimEmptyIffBlank(s: string)
    ensures Trim(s) == [] <==> IsBlank(s)
  {
    TrimStartEmptyIffBlank(s);
    if TrimStart(s) != [] {
      TrimEndKeepsNonBlank(TrimStart(s));
    }
  }

  /** The guard of `handleSubmit`: `!name || !dosage || timesPerDay < 1` rejects. */
  predicate SubmitAccepted(name: string, dosage: string, timesPerDay: int) {
    name != "" && dosage != "" && timesPerDay >= 1
  }

  /** Submit does not trim, so a name made only of white space passes it while "Get Info" refuses it. */
  lemma BlankNamePassesSubmit(name: string, dosage: string, timesPerDay: int)
    requires name != "" && IsBlank(name) && dosage != "" && timesPerDay >= 1
    ensures SubmitAccepted(name, dosage, timesPerDay)
    ensures Trim(name) == []
  {
    TrimEmptyIffBlank(name);
  }

  /** What the fetch of `fetchMedicationInfo` delivers: a result, or a thrown value. */
  datatype Thrown = ErrorObject(message: string) | OtherValue
  datatype FetchOutcome = Fetched(info: MedicationInfo) | FetchFailed(thrown: Thrown)

  /** `err instanceof Error ? err.message : "An unknown error occurred."` */
  function ErrorText(thrown: Thrown): string {
    match thrown
    case ErrorObject(message) => message
    case OtherValue => UnknownErrorMessage
  }

  /** What an accepted submit asks of the parent: `onAdd(draft)` and then `onClose()`. */
  datatype SubmitEffect = Rejected | AddThenClose(draft: MedicationDraft)

  class AddMedicationForm {
    var name: string
    var dosage: string
    var timesPerDay: int
    var info: Option<MedicationInfo>
    var isLoadingInfo: bool
    var error: Option<string>

    constructor ()
      ensures name == "" && dosage == "" && timesPerDay == 1
      ensures info == None && !isLoadingInfo && error == None
    {
      name, dosage, timesPerDay := "", "", 1;
      info, isLoadingInfo, error := None, false, None;
    }

    /** The `onChange` of the name input. */
    method SetName(value: string)
      modifies this`name
      ensures name == value
    {
      name := value;
    }

    /** The `onChange` of the dosage input. */
    method SetDosage(value: string)
      modifies this`dosage
      ensures dosage == value
    {
      dosage := value;
    }

    /** The `onChange` of the doses-per-day input, after `parseInt`. */
    method SetTimesPerDay(value: int)
      modifies this`timesPerDay
      ensures timesPerDay == value
    {
      timesPerDay := value;
    }

    /**
     * `handleSubmit`: a rejected submit only sets the error; an accepted one
     * hands the four fields on unchanged and closes the form.
     */
    method Submit() returns (effect: SubmitEffect)
      modifies this`error
      ensures SubmitAccepted(name, dosage, timesPerDay) ==>
        effect == AddThenClose(MedicationDraft(name, dosage, timesPerDay, info)) && error == old(error)
      ensures !SubmitAccepted(name, dosage, timesPerDay) ==>
        effect == Rejected && error == Some(FillAllFieldsMessage)
      ensures effect.AddThenClose? ==>
        effect.draft.name != "" && effect.draft.dosage != "" && effect.draft.timesPerDay >= 1
    {
      if name == "" || dosage == "" || timesPerDay < 1 {
        error := Some(FillAllFieldsMessage);
        return Rejected;
      }
      effect := AddThenClose(MedicationDraft(name, dosage, timesPerDay, info));
    }

    /**
     * `handleGetInfo` up to the `await`: a blank name sets the error and asks
     * for nothing; otherwise the request starts with the spinner on and the
     * error cleared.
     */
    method StartGetInfo() returns (fetchStarted: bool)
      modifies this`isLoadingInfo, this`error
      ensures fetchStarted <==> !IsBlank(name)
      ensures !fetchStarted ==> error == Some(EnterNameFirstMessage) && isLoadingInfo == old(isLoadingInfo)
      ensures fetchStarted ==> error == None && isLoadingInfo
    {
      TrimEmptyIffBlank(name);
      if Trim(name) == "" {
        error := Some(EnterNameFirstMessage);
        return false;
      }
      isLoadingInfo := true;
      error := None;
      fetchStarted := true;
    }

    /**
     * `handleGetInfo` after the `await`: success replaces `info`, failure sets
     * the error and keeps `info`; either way the spinner goes off.
     */
    method FinishGetInfo(outcome: FetchOutcome)
      modifies this`info, this`error, this`isLoadingInfo
      ensures !isLoadingInfo
      ensures outcome.Fetched? ==> info == Some(outcome.info) && error == old(error)
      ensures outcome.FetchFailed? ==> info == old(info) && error == Some(ErrorText(outcome.thrown))
    {
      match outcome {
        case Fetched(fetched) =>
          info := Some(fetched);
        case FetchFailed(thrown) =>
          error := Some(ErrorText(thrown));
      }
      isLoadingInfo := false;
    }
  }
}
