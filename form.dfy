/**
 * The form's values as the form renderer hands them to App.js: a mapping from field
 * name to string, where a field that was never filled in is simply absent
 * (JavaScript `undefined`).
 */
module Form {
  import opened Wrappers

  type FormData = map<string, string>

  /** `formData[key]`: the value, or None for `undefined`. */
  function Get(formData: FormData, key: string): (v: Option<string>)
    ensures v.Some? <==> key in formData
    ensures v.Some? ==> v.value == formData[key]
  {
    if key in formData then Some(formData[key]) else None
  }

  const JobFolderName := "JobFolderName"
  const ImpositionTemplate := "ImpositionTemplate"
  const PageSetsPerJob := "kPageSetsPerJob"
  const StartRecord := "kStartRecord"
  const EndRecord := "kEndRecord"
  const ImposeType := "kPDFImposerImposeType"
  const NeedsSampleOutput := "NeedsSampleOutput"
  const NeedsSampleWatermark := "NeedsSampleWatermark"
  const SampleStartRecord := "SampleStartRecord"
  const SampleEndRecord := "SampleEndRecord"

  /** The three fields that only mean something when sample output is requested. */
  const SampleFields: seq<string> := [NeedsSampleWatermark, SampleStartRecord, SampleEndRecord]

  /** A list of field names with no name twice. */
  predicate Distinct(s: seq<string>) {
    forall i, j :: 0 <= i < j < |s| ==> s[i] != s[j]
  }

  /** `formData.NeedsSampleOutput === "Yes"`. */
  predicate WantsSamples(formData: FormData) {
    Get(formData, NeedsSampleOutput) == Some("Yes")
  }
}
