/**
 * The data-capture upload forms: Step1Form checks that the uploaded price
 * list yields data for its schedule; Step3Form asks for the business size.
 *
 * The schedule registry's loader (smart_load_from_upload) and the gleaned
 * data's is_empty test are parameters: their code is not part of this model.
 */
module Forms {
  import opened Wrappers

  /** An uploaded file as the form sees it. */
  datatype UploadedFile = UploadedFile(name: string, content: seq<int>, contentType: string)

  /** A value of Django's cleaned_data dict; G is the type of the gleaned data. */
  datatype CleanedValue<G> = TextValue(s: string) | FileValue(file: UploadedFile) | GleanedValue(data: G)

  type CleanedData<G> = map<string, CleanedValue<G>>

  const GleanedDataKey: string := "gleaned_data"

  const NothingToGleanMessage: string :=
    "The file you uploaded doesn't have any data we can glean from it."

  /**
   * `schedule and file`: both fields are present and truthy. A choice is
   * truthy when it is not empty; a Django File is truthy when it has a name.
   */
  function UploadOf<G>(cleaned: CleanedData<G>): (r: Option<(string, UploadedFile)>)
    ensures r.Some? ==> r.value.0 != "" && r.value.1.name != ""
    ensures r.Some? <==>
      "schedule" in cleaned && cleaned["schedule"].TextValue? && cleaned["schedule"].s != "" &&
      "file" in cleaned && cleaned["file"].FileValue? && cleaned["file"].file.name != ""
  {
    if "schedule" in cleaned && "file" in cleaned then
      match (cleaned["schedule"], cleaned["file"])
      case (TextValue(schedule), FileValue(file)) =>
        if schedule != "" && file.name != "" then Some((schedule, file)) else None
      case _ => None
    else None
  }

  /**
   * Step1Form.clean on the data the parent's clean produced: with a
   * schedule and a file, the file is loaded; empty gleaned data is a
   * ValidationError, otherwise the data is stored under `gleaned_data`.
   */
  function Step1Clean<G>(cleaned: CleanedData<G>, load: (string, UploadedFile) -> G, isEmpty: G -> bool)
    : (r: Result<CleanedData<G>, string>)
    ensures UploadOf(cleaned).None? ==> r == Success(cleaned)
    ensures UploadOf(cleaned).Some? ==>
      var (schedule, file) := UploadOf(cleaned).value;
      (r.Failure? <==> isEmpty(load(schedule, file))) &&
      (r.Failure? ==> r.error == NothingToGleanMessage) &&
      (r.Success? ==>
        GleanedDataKey in r.value && r.value[GleanedDataKey] == GleanedValue(load(schedule, file)) &&
        r.value.Keys == cleaned.Keys + {GleanedDataKey} &&
        forall k :: k in cleaned && k != GleanedDataKey ==> r.value[k] == cleaned[k])
  {
    match UploadOf(cleaned)
    case None => Success(cleaned)
    case Some((schedule, file)) =>
      var gleaned := load(schedule, file);
      if isEmpty(gleaned) then Failure(NothingToGleanMessage)
      else Success(cleaned[GleanedDataKey := GleanedValue(gleaned)])
  }

  /** A bound Step1Form: its cleaned_data and the calls made to the loader. */
  class Step1Form<G> {
    var cleanedData: CleanedData<G>
    var loaderCalls: seq<(string, UploadedFile)>

    constructor (fieldData: CleanedData<G>)
      ensures cleanedData == fieldData && loaderCalls == []
    {
      cleanedData := fieldData;
      loaderCalls := [];
    }

    /**
     * clean(): the loader runs only when both fields are present; on success
     * cleaned_data gains `gleaned_data` in place and is returned; on empty data
     * the ValidationError leaves cleaned_data as it was.
     */
    method Clean(load: (string, UploadedFile) -> G, isEmpty: G -> bool) returns (r: Result<CleanedData<G>, string>)
      modifies this
      ensures r == Step1Clean(old(cleanedData), load, isEmpty)
      ensures cleanedData == if r.Success? then r.value else old(cleanedData)
      ensures loaderCalls ==
        if UploadOf(old(cleanedData)).Some? then old(loaderCalls) + [UploadOf(old(cleanedData)).value]
        else old(loaderCalls)
    {
      var upload := UploadOf(cleanedData);
      if upload.Some? {
        var (schedule, file) := upload.value;
        loaderCalls := loaderCalls + [(schedule, file)];
        var gleaned := load(schedule, file);
        if isEmpty(gleaned) {
          return Failure(NothingToGleanMessage);
        }
        cleanedData := cleanedData[GleanedDataKey := GleanedValue(gleaned)];
      }
      r := Success(cleanedData);
    }
  }

  // ---------------------------------------------------------------------
  // Step3Form.is_small_business

  /** The choices of is_small_business, in order: unset, True, False. */
  const IsSmallBusinessChoices: seq<(Option<bool>, string)> := [
    (None, "---------"),
    (Some(true), "Small business"),
    (Some(false), "Not a small business")
  ]

  const RequiredMessage: string := "This field is required."

  /**
   * The required is_small_business field: the unset choice is an empty
   * value and is refused; True and False are accepted as they are.
   */
  function CleanIsSmallBusiness(choice: Option<bool>): (r: Result<bool, string>)
    ensures r.Success? <==>
      (choice.Some? && exists i :: 0 <= i < |IsSmallBusinessChoices| && IsSmallBusinessChoices[i].0 == choice)
    ensures r.Success? ==> choice == Some(r.value)
    ensures r.Failure? ==> choice == None && r.error == RequiredMessage
  {
    match choice
    case None => Failure(RequiredMessage)
    case Some(b) =>
      assert IsSmallBusinessChoices[if b then 1 else 2].0 == choice;
      Success(b)
  }
}
