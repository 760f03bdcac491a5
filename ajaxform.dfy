/**
 * The <form is="ajax-form"> component: it gathers the form's elements into a
 * FormData, submits it by ajax and reacts to the JSON answer (replace the
 * form, follow a redirect, or report an error).
 *
 * The ajax transport and the browser's delegate (window.location, alert) are
 * replaced by a response parameter and logs of what the form did.
 */
module AjaxForms {
  import opened Wrappers
  import UploadWidgets

  type File = UploadWidgets.File

  /** A value appended to a FormData: a string, or a file. */
  datatype EntryValue = TextValue(s: string) | FileValue(file: File)

  datatype Entry = Entry(name: string, value: EntryValue)

  /**
   * One element of form.elements. `isUpgraded` and `upgradedValue` are set on
   * upgraded <input is="upload-input"> elements only (false and None on others).
   */
  datatype FormElement = FormElement(
    name: string,
    kind: string,
    value: string,
    files: seq<File>,
    isUpgraded: bool,
    upgradedValue: Option<File>)

  /** FormData.append(name, null) stores the string "null". */
  function UpgradedEntryValue(v: Option<File>): EntryValue
  {
    match v
    case Some(f) => FileValue(f)
    case None => TextValue("null")
  }

  function UnsupportedTypeMessage(kind: string): string
  {
    "unsupported input type: " + kind
  }

  /** An element populateFormData rejects. */
  predicate Unsupported(el: FormElement) {
    !el.isUpgraded && (el.kind == "radio" || el.kind == "checked")
  }

  /** One entry per file, in order. */
  function FileEntries(name: string, files: seq<File>): (r: seq<Entry>)
    ensures |r| == |files|
    ensures forall j :: 0 <= j < |files| ==> r[j] == Entry(name, FileValue(files[j]))
  {
    seq(|files|, j requires 0 <= j < |files| => Entry(name, FileValue(files[j])))
  }

  /** What one element adds to the FormData, or the error it raises. */
  function Contribution(el: FormElement): (r: Result<seq<Entry>, string>)
    ensures r.Failure? <==> Unsupported(el)
    ensures r.Failure? ==> r.error == UnsupportedTypeMessage(el.kind)
    ensures el.isUpgraded ==> r == Success([Entry(el.name, UpgradedEntryValue(el.upgradedValue))])
    ensures !el.isUpgraded && el.kind == "file" ==> r == Success(FileEntries(el.name, el.files))
    ensures r.Success? && !el.isUpgraded && el.kind != "file" ==> r == Success([Entry(el.name, TextValue(el.value))])
  {
    if el.isUpgraded then Success([Entry(el.name, UpgradedEntryValue(el.upgradedValue))])
    else if el.kind == "radio" || el.kind == "checked" then Failure(UnsupportedTypeMessage(el.kind))
    else if el.kind == "file" then Success(FileEntries(el.name, el.files))
    else Success([Entry(el.name, TextValue(el.value))])
  }

  /** The entries appended before populateFormData stopped, and the error that stopped it. */
  datatype Populated = Populated(entries: seq<Entry>, error: Option<string>)

  function Populate(elements: seq<FormElement>): Populated
  {
    if elements == [] then Populated([], None)
    else
      match Contribution(elements[0])
      case Failure(msg) => Populated([], Some(msg))
      case Success(es) =>
        var rest := Populate(elements[1..]);
        Populated(es + rest.entries, rest.error)
  }

  /** Processing a + b processes a, then (when a raised nothing) b. */
  lemma {:induction false} PopulateAppend(a: seq<FormElement>, b: seq<FormElement>)
    ensures Populate(a).error.Some? ==> Populate(a + b) == Populate(a)
    ensures Populate(a).error.None? ==>
      Populate(a + b) == Populated(Populate(a).entries + Populate(b).entries, Populate(b).error)
    decreases |a|
  {
    if a == [] {
      assert a + b == b;
    } else {
      assert (a + b)[0] == a[0] && (a + b)[1..] == a[1..] + b;
      PopulateAppend(a[1..], b);
      match Contribution(a[0])
      case Failure(_) =>
      case Success(es) =>
        assert es + Populate(a[1..]).entries + Populate(b).entries ==
          es + (Populate(a[1..]).entries + Populate(b).entries);
    }
  }

  /** populateFormData raises exactly when some element is unsupported, and names the first one. */
  lemma {:induction false} PopulateErrorIsFirstUnsupported(elements: seq<FormElement>)
    ensures Populate(elements).error.Some? <==> exists i :: 0 <= i < |elements| && Unsupported(elements[i])
    ensures Populate(elements).error.Some? ==>
      exists i :: 0 <= i < |elements| && Unsupported(elements[i]) &&
        (forall j :: 0 <= j < i ==> !Unsupported(elements[j])) &&
        Populate(elements).error.value == UnsupportedTypeMessage(elements[i].kind)
  {
    if elements != [] {
      PopulateErrorIsFirstUnsupported(elements[1..]);
      if !Unsupported(elements[0]) && Populate(elements).error.Some? {
        var i :| 0 <= i < |elements[1..]| && Unsupported(elements[1..][i]) &&
          (forall j :: 0 <= j < i ==> !Unsupported(elements[1..][j])) &&
          Populate(elements[1..]).error.value == UnsupportedTypeMessage(elements[1..][i].kind);
        assert Unsupported(elements[i + 1]);
        assert forall j :: 0 <= j < i + 1 ==> !Unsupported(elements[j]) by {
          forall j | 0 < j < i + 1 ensures !Unsupported(elements[j]) {
            assert elements[j] == elements[1..][j - 1];
          }
        }
      }
      if Populate(elements).error.None? {
        forall i | 0 <= i < |elements| ensures !Unsupported(elements[i]) {
          if i > 0 { assert elements[i] == elements[1..][i - 1]; }
        }
      }
    }
  }

  /** The value an element that is not a file input contributes. */
  function SingleValue(el: FormElement): EntryValue
  {
    if el.isUpgraded then UpgradedEntryValue(el.upgradedValue) else TextValue(el.value)
  }

  /**
   * A form without file inputs (other than upgraded ones) and without
   * unsupported elements yields exactly one entry per element, in order.
   */
  lemma {:induction false} OneEntryPerElement(elements: seq<FormElement>)
    requires forall i :: 0 <= i < |elements| ==>
      elements[i].isUpgraded || (elements[i].kind != "file" && !Unsupported(elements[i]))
    ensures Populate(elements).error.None?
    ensures |Populate(elements).entries| == |elements|
    ensures forall i :: 0 <= i < |elements| ==>
      Populate(elements).entries[i] == Entry(elements[i].name, SingleValue(elements[i]))
  {
    if elements != [] {
      OneEntryPerElement(elements[1..]);
      var rest := Populate(elements[1..]).entries;
      assert Populate(elements).entries == [Entry(elements[0].name, SingleValue(elements[0]))] + rest;
      forall i | 0 < i < |elements|
        ensures Populate(elements).entries[i] == Entry(elements[i].name, SingleValue(elements[i]))
      {
        assert elements[i] == elements[1..][i - 1];
      }
    }
  }

  /** A FormData under construction. */
  class FormData {
    var entries: seq<Entry>

    constructor ()
      ensures entries == []
    {
      entries := [];
    }

    method Append(e: Entry)
      modifies this
      ensures entries == old(entries) + [e]
    {
      entries := entries + [e];
    }
  }

  lemma PopulateSingle(el: FormElement)
    ensures Contribution(el).Failure? ==> Populate([el]) == Populated([], Some(Contribution(el).error))
    ensures Contribution(el).Success? ==> Populate([el]) == Populated(Contribution(el).value, None)
  {
    assert [el][1..] == [];
  }

  lemma SplitAt<T>(s: seq<T>, i: nat)
    requires i < |s|
    ensures s[..i + 1] == s[..i] + [s[i]]
    ensures s[..i + 1] + s[i + 1..] == s
  {
  }

  /** An unsupported next element ends the walk with its error. */
  lemma PopulateRaises(elements: seq<FormElement>, i: nat)
    requires i < |elements| && Populate(elements[..i]).error.None? && Unsupported(elements[i])
    ensures Populate(elements) == Populated(Populate(elements[..i]).entries, Some(UnsupportedTypeMessage(elements[i].kind)))
  {
    var before, upTo, after := elements[..i], elements[..i + 1], elements[i + 1..];
    SplitAt(elements, i);
    var stopped := Populated(Populate(before).entries, Some(UnsupportedTypeMessage(elements[i].kind)));
    assert Populate(upTo) == stopped by {
      PopulateSingle(elements[i]);
      PopulateAppend(before, [elements[i]]);
    }
    assert Populate(upTo + after) == stopped by {
      PopulateAppend(upTo, after);
    }
  }

  /** A supported next element adds its contribution. */
  lemma PopulateContinues(elements: seq<FormElement>, i: nat)
    requires i < |elements| && Populate(elements[..i]).error.None? && !Unsupported(elements[i])
    ensures Populate(elements[..i + 1]) == Populated(Populate(elements[..i]).entries + Contribution(elements[i]).value, None)
  {
    SplitAt(elements, i);
    PopulateSingle(elements[i]);
    PopulateAppend(elements[..i], [elements[i]]);
  }

  /** Appends one entry per file, in order. */
  method AppendFiles(formData: FormData, name: string, files: seq<File>)
    modifies formData
    ensures formData.entries == old(formData.entries) + FileEntries(name, files)
  {
    var j := 0;
    while j < |files|
      invariant 0 <= j <= |files|
      invariant formData.entries == old(formData.entries) + FileEntries(name, files[..j])
    {
      formData.Append(Entry(name, FileValue(files[j])));
      assert FileEntries(name, files[..j + 1]) == FileEntries(name, files[..j]) + [Entry(name, FileValue(files[j]))];
      j := j + 1;
    }
    assert files[..j] == files;
  }

  /**
   * populateFormData: walks form.elements in order and appends to formData;
   * an unsupported element throws, leaving what was appended before it.
   */
  method PopulateFormData(formData: FormData, elements: seq<FormElement>) returns (error: Option<string>)
    modifies formData
    ensures formData.entries == old(formData.entries) + Populate(elements).entries
    ensures error == Populate(elements).error
  {
    var i := 0;
    while i < |elements|
      invariant 0 <= i <= |elements|
      invariant Populate(elements[..i]).error.None?
      invariant formData.entries == old(formData.entries) + Populate(elements[..i]).entries
    {
      var el := elements[i];
      if el.isUpgraded {
        PopulateContinues(elements, i);
        formData.Append(Entry(el.name, UpgradedEntryValue(el.upgradedValue)));
      } else if el.kind == "radio" || el.kind == "checked" {
        PopulateRaises(elements, i);
        return Some(UnsupportedTypeMessage(el.kind));
      } else if el.kind == "file" {
        PopulateContinues(elements, i);
        AppendFiles(formData, el.name, el.files);
      } else {
        PopulateContinues(elements, i);
        formData.Append(Entry(el.name, TextValue(el.value)));
      }
      i := i + 1;
    }
    assert elements[..i] == elements;
    error := None;
  }

  // ---------------------------------------------------------------------
  // Submission

  const MiscError: string := "Sorry, we\U{2019}re having trouble. Please try again later or refresh your browser."

  /** The JSON object of a successful ajax response; a missing key is None. */
  datatype ResponseData = ResponseData(formHtml: Option<string>, redirectUrl: Option<string>)

  /** How the ajax request ended. */
  datatype AjaxResult = Done(data: ResponseData) | Fail

  /** What the form does with the answer. */
  datatype Reaction = ReplaceForm(html: string) | Redirect(url: string) | AlertError

  /** A JSON string is truthy when it is present and not empty. */
  predicate Truthy(v: Option<string>) {
    v.Some? && v.value != ""
  }

  /**
   * The handlers of the ajax request: form_html wins over redirect_url;
   * with neither, or when the request fails, the user is told MISC_ERROR.
   */
  function React(result: AjaxResult): (r: Reaction)
    ensures result.Done? && Truthy(result.data.formHtml) ==> r == ReplaceForm(result.data.formHtml.value)
    ensures result.Done? && !Truthy(result.data.formHtml) && Truthy(result.data.redirectUrl) ==>
      r == Redirect(result.data.redirectUrl.value)
    ensures r == AlertError <==>
      result.Fail? || (!Truthy(result.data.formHtml) && !Truthy(result.data.redirectUrl))
  {
    match result
    case Fail => AlertError
    case Done(data) =>
      if Truthy(data.formHtml) then ReplaceForm(data.formHtml.value)
      else if Truthy(data.redirectUrl) then Redirect(data.redirectUrl.value)
      else AlertError
  }

  /** What a submit event led to. */
  datatype SubmitOutcome = NativeSubmit | Raised(message: string) | Sent(reaction: Reaction)

  class AjaxForm {
    var isDegraded: bool
    /** Whether the ajax submit handler is installed. */
    var listening: bool
    var submitInProgress: bool
    /** The FormData entries of each ajax request sent. */
    var requests: seq<seq<Entry>>
    var alerts: seq<string>
    var redirects: seq<string>
    /** The HTML the form was replaced with, if it was. */
    var replacedWith: Option<string>

    constructor ()
      ensures !isDegraded && !listening && !submitInProgress
      ensures requests == [] && alerts == [] && redirects == [] && replacedWith == None
    {
      isDegraded := false;
      listening := false;
      submitInProgress := false;
      requests := [];
      alerts := [];
      redirects := [];
      replacedWith := None;
    }

    /**
     * attachedCallback: the form is degraded exactly when FormData is
     * unsupported or degradation is forced, and only a form that is not
     * degraded gets the ajax submit handler.
     */
    method Attach(formDataSupported: bool, forciblyDegraded: bool)
      modifies this
      ensures isDegraded == (!formDataSupported || forciblyDegraded)
      ensures listening == !isDegraded
      ensures submitInProgress == old(submitInProgress) && requests == old(requests)
      ensures alerts == old(alerts) && redirects == old(redirects) && replacedWith == old(replacedWith)
    {
      isDegraded := !formDataSupported || forciblyDegraded;
      if !isDegraded {
        listening := true;
      } else {
        listening := false;
      }
    }

    /**
     * A submit event. Without the handler the browser submits natively.
     * With it, the form data is built (an unsupported element throws before
     * any request), sent, `submit-in-progress` is set, and the answer is
     * handled; only an error clears `submit-in-progress` again.
     */
    method Submit(elements: seq<FormElement>, result: AjaxResult) returns (outcome: SubmitOutcome)
      modifies this
      ensures isDegraded == old(isDegraded) && listening == old(listening)
      ensures !listening ==> outcome == NativeSubmit
      ensures listening && Populate(elements).error.Some? ==> outcome == Raised(Populate(elements).error.value)
      ensures listening && Populate(elements).error.None? ==> outcome == Sent(React(result))
      ensures outcome.Sent? ==> requests == old(requests) + [Populate(elements).entries]
      ensures !outcome.Sent? ==> requests == old(requests) && submitInProgress == old(submitInProgress)
      ensures outcome.Sent? ==> submitInProgress == !outcome.reaction.AlertError?
      ensures alerts == if outcome == Sent(AlertError) then old(alerts) + [MiscError] else old(alerts)
      ensures redirects ==
        if outcome.Sent? && outcome.reaction.Redirect? then old(redirects) + [outcome.reaction.url] else old(redirects)
      ensures replacedWith ==
        if outcome.Sent? && outcome.reaction.ReplaceForm? then Some(outcome.reaction.html) else old(replacedWith)
    {
      if !listening {
        return NativeSubmit;
      }
      var formData := new FormData();
      var error := PopulateFormData(formData, elements);
      if error.Some? {
        return Raised(error.value);
      }
      assert formData.entries == [] + Populate(elements).entries == Populate(elements).entries;
      requests := requests + [formData.entries];
      submitInProgress := true;
      var reaction := React(result);
      match reaction {
        case ReplaceForm(html) =>
          replacedWith := Some(html);
        case Redirect(url) =>
          redirects := redirects + [url];
        case AlertError =>
          alerts := alerts + [MiscError];
          submitInProgress := false;
      }
      outcome := Sent(reaction);
    }
  }
}
