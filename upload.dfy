/**
 * The upload web components of the data-capture front end.
 *
 * UploadInput is a file input whose selected file can also be set by code
 * (the `upgradedValue` property), checked against the input's `accept`
 * attribute. UploadWidget is the drag-and-drop area around one UploadInput; it
 * highlights itself while a drag is over it, counting nested enter and leave
 * events.
 *
 * Dispatched DOM events are recorded in an event log; markup changes,
 * jQuery and the browser's feature detection are parameters or left out.
 */
module UploadWidgets {
  import opened Wrappers
  import opened Text

  /** A browser File: its name and its MIME type. */
  datatype File = File(name: string, mimeType: string)

  // ---------------------------------------------------------------------
  // isFileValid

  function Clamp(x: int, lo: int, hi: int): (r: int)
    requires lo <= hi
    ensures lo <= r <= hi
    ensures lo <= x <= hi ==> r == x
  {
    if x < lo then lo else if x > hi then hi else x
  }

  /** The largest index i <= k at which t occurs in s, or -1 when there is none. */
  function LastOccurrenceUpTo(s: string, t: string, k: int): (r: int)
    requires k >= -1
    ensures -1 <= r <= k
    ensures r == -1 ==> forall i :: 0 <= i <= k ==> !OccursAt(s, t, i)
    ensures r != -1 ==> OccursAt(s, t, r) && forall i :: r < i <= k ==> !OccursAt(s, t, i)
    decreases k + 1
  {
    if k < 0 then -1
    else if OccursAt(s, t, k) then k
    else LastOccurrenceUpTo(s, t, k - 1)
  }

  /**
   * String.prototype.lastIndexOf(searchString, position) of ECMAScript: the
   * position is clamped to 0..|s| and the search runs backwards from there.
   */
  function LastIndexOf(s: string, t: string, position: int): int
  {
    LastOccurrenceUpTo(s, t, Clamp(position, 0, |s|))
  }

  /**
   * The filename test of isFileValid, `name.lastIndexOf(ext, name.length -
   * ext.length) !== -1`, holds exactly when ext occurs anywhere in name: every
   * occurrence starts at or before name.length - ext.length.
   */
  lemma LastIndexOfFromEndIsContains(name: string, ext: string)
    ensures LastIndexOf(name, ext, |name| - |ext|) != -1 <==> Contains(name, ext)
  {
    var start := Clamp(|name| - |ext|, 0, |name|);
    if Contains(name, ext) {
      var i :| OccursAt(name, ext, i);
      assert i <= start;
    }
  }

  /** accept.split(',').map((s) => s.trim().toLowerCase()) */
  function AcceptsList(accept: string): (r: seq<string>)
    ensures |r| == |Split(accept, ',')|
  {
    var parts := Split(accept, ',');
    seq(|parts|, i requires 0 <= i < |parts| => Lower(Trim(parts[i])))
  }

  /** The test applied to one entry of the accept list, as written. */
  predicate EntryAccepts(entry: string, fileType: string, fileName: string) {
    fileType == entry || LastIndexOf(fileName, entry, |fileName| - |entry|) != -1
  }

  /** The loop of isFileValid with its early return. */
  function AnyEntryAccepts(entries: seq<string>, fileType: string, fileName: string): (r: bool)
    ensures r <==> exists i :: 0 <= i < |entries| && EntryAccepts(entries[i], fileType, fileName)
  {
    if entries == [] then false
    else if EntryAccepts(entries[0], fileType, fileName) then true
    else AnyEntryAccepts(entries[1..], fileType, fileName)
  }

  /** isFileValid: `accept` is the attribute's value, None when it is missing. */
  function IsFileValid(accept: Option<string>, file: File): bool
  {
    if accept.None? || |accept.value| == 0 then true
    else AnyEntryAccepts(AcceptsList(accept.value), Lower(file.mimeType), Lower(file.name))
  }

  /** An entry matches when it equals the file's type or occurs in its name (both lower-cased). */
  ghost predicate MatchesEntry(entry: string, file: File) {
    entry == Lower(file.mimeType) || Contains(Lower(file.name), entry)
  }

  /**
   * isFileValid accepts exactly when the attribute is missing or empty, or
   * some trimmed, lower-cased entry equals the file's type or occurs in its name.
   */
  lemma IsFileValidMeaning(accept: Option<string>, file: File)
    ensures IsFileValid(accept, file) <==>
      accept.None? || accept.value == "" ||
      exists e :: e in AcceptsList(accept.value) && MatchesEntry(e, file)
  {
    if accept.Some? && accept.value != "" {
      var entries := AcceptsList(accept.value);
      forall e | e in entries
        ensures EntryAccepts(e, Lower(file.mimeType), Lower(file.name)) <==> MatchesEntry(e, file)
      {
        LastIndexOfFromEndIsContains(Lower(file.name), e);
      }
      if IsFileValid(accept, file) {
        var i :| 0 <= i < |entries| && EntryAccepts(entries[i], Lower(file.mimeType), Lower(file.name));
        assert entries[i] in entries;
      }
    }
  }

  /** An accept list with a trailing comma has an empty entry, which occurs in every name. */
  lemma TrailingCommaAcceptsEverything(accept: string, file: File)
    ensures IsFileValid(Some(accept + ","), file)
  {
    var a := accept + ",";
    SplitAround(accept, ',', "");
    assert a == accept + [','] + "";
    var parts := Split(a, ',');
    assert parts[|parts| - 1] == "";
    var entries := AcceptsList(a);
    assert entries[|entries| - 1] == "";
    assert OccursAt(Lower(file.name), "", 0);
    IsFileValidMeaning(Some(a), file);
  }

  /** The filename test as evidently intended: the entry is a suffix of the name. */
  function IsFileValidIntended(accept: Option<string>, file: File): bool
  {
    if accept.None? || |accept.value| == 0 then true
    else
      var entries := AcceptsList(accept.value);
      exists i :: 0 <= i < |entries| &&
        (entries[i] == Lower(file.mimeType) || EndsWith(Lower(file.name), entries[i]))
  }

  /**
   * The intended test never accepts more than the test as written: a suffix
   * is in particular a substring.
   */
  lemma IntendedAcceptsLess(accept: Option<string>, file: File)
    ensures IsFileValidIntended(accept, file) ==> IsFileValid(accept, file)
  {
    if accept.Some? && accept.value != "" && IsFileValidIntended(accept, file) {
      var entries := AcceptsList(accept.value);
      var i :| 0 <= i < |entries| &&
        (entries[i] == Lower(file.mimeType) || EndsWith(Lower(file.name), entries[i]));
      if entries[i] != Lower(file.mimeType) {
        EndsWithImpliesContains(Lower(file.name), entries[i]);
      }
      assert entries[i] in entries && MatchesEntry(entries[i], file);
      IsFileValidMeaning(accept, file);
    }
  }

  /**
   * With a single extension or type in `accept`, the intended test accepts
   * exactly the files of that type and the files whose name ends with it.
   */
  lemma IntendedSingleEntry(accept: string, file: File)
    requires accept != ""
    requires forall i :: 0 <= i < |accept| ==> accept[i] != ',' && !IsSpace(accept[i]) && !('A' <= accept[i] <= 'Z')
    ensures IsFileValidIntended(Some(accept), file) <==>
      Lower(file.mimeType) == accept || EndsWith(Lower(file.name), accept)
  {
    SingleEntryList(accept);
    assert AcceptsList(accept)[0] == accept;
  }

  /** Names without upper-case letters are their own lower-case form. */
  lemma LowerOfLowerCase(s: string)
    requires forall i :: 0 <= i < |s| ==> !('A' <= s[i] <= 'Z')
    ensures Lower(s) == s
  {
  }

  /** An attribute without commas, spaces or capitals is a one-entry list of itself. */
  lemma SingleEntryList(accept: string)
    requires forall i :: 0 <= i < |accept| ==> accept[i] != ',' && !IsSpace(accept[i]) && !('A' <= accept[i] <= 'Z')
    ensures AcceptsList(accept) == [accept]
  {
    SplitWithoutSeparator(accept, ',');
    TrimNoSpaces(accept);
    LowerOfLowerCase(accept);
  }

  /**
   * With accept=".csv", a file named "report.csv.exe" of another type passes
   * the check as written but is not a .csv file.
   */
  lemma InnerExtensionAccepted()
    ensures IsFileValid(Some(".csv"), File("report.csv.exe", "application/x-msdownload"))
  {
    var file := File("report.csv.exe", "application/x-msdownload");
    SingleEntryList(".csv");
    LowerOfLowerCase(file.name);
    assert OccursAt(file.name, ".csv", 6);
    IsFileValidMeaning(Some(".csv"), file);
  }

  /** The intended test rejects that file: its name does not end in ".csv". */
  lemma InnerExtensionRejectedAsIntended()
    ensures !IsFileValidIntended(Some(".csv"), File("report.csv.exe", "application/x-msdownload"))
  {
    var file := File("report.csv.exe", "application/x-msdownload");
    SingleEntryList(".csv");
    LowerOfLowerCase(file.name);
    assert file.name[10..] == ".exe";
  }

  // ---------------------------------------------------------------------
  // UploadInput

  /** Events an UploadInput dispatches. */
  datatype InputEvent = InvalidFile | ChangeFile(file: File)

  const ChooseFileMessage: string := "Please choose a file."

  class UploadInput {
    /** The `accept` attribute (None when absent). */
    const accept: Option<string>
    /** Whether the browser offers setCustomValidity. */
    const hasCustomValidity: bool

    var isUpgraded: bool
    var upgradedValue: Option<File>
    /** Whether the element carries the `required` attribute. */
    var required: bool
    var customValidity: string
    /** The native input's own value, cleared when a file is set by code. */
    var nativeValue: string
    var events: seq<InputEvent>

    /** createdCallback */
    constructor (accept: Option<string>, required: bool, hasCustomValidity: bool, nativeValue: string)
      ensures this.accept == accept && this.hasCustomValidity == hasCustomValidity
      ensures this.required == required && this.nativeValue == nativeValue
      ensures !isUpgraded && upgradedValue == None && customValidity == "" && events == []
    {
      this.accept := accept;
      this.hasCustomValidity := hasCustomValidity;
      this.required := required;
      this.nativeValue := nativeValue;
      isUpgraded := false;
      upgradedValue := None;
      customValidity := "";
      events := [];
    }

    /**
     * upgrade(): the input is now written by code, so the browser must not
     * enforce `required`; a custom validity message takes its place.
     */
    method Upgrade()
      modifies this
      ensures isUpgraded
      ensures !required
      ensures customValidity ==
        if old(required) && hasCustomValidity then ChooseFileMessage else old(customValidity)
      ensures upgradedValue == old(upgradedValue) && nativeValue == old(nativeValue)
      ensures events == old(events)
    {
      isUpgraded := true;
      if required {
        required := false;
        if hasCustomValidity {
          customValidity := ChooseFileMessage;
        }
      }
    }

    /** A valid file is stored, clears the native value and the validity message, and is announced. */
    method Store(file: File)
      modifies this
      ensures isUpgraded == old(isUpgraded) && required == old(required)
      ensures upgradedValue == Some(file) && nativeValue == ""
      ensures customValidity == (if hasCustomValidity then "" else old(customValidity))
      ensures events == old(events) + [ChangeFile(file)]
    {
      upgradedValue := Some(file);
      nativeValue := "";
      if hasCustomValidity {
        customValidity := "";
      }
      events := events + [ChangeFile(file)];
    }

    /**
     * The `upgradedValue` setter. A missing file changes nothing; an invalid
     * one dispatches `invalidfile` and keeps the current value; a valid one is
     * stored, clears the native value and the validity message, and
     * dispatches `changefile` carrying the file. Validity is isFileValid as
     * written, so an extension entry found anywhere in the name is accepted.
     */
    method SetUpgradedValue(file: Option<File>)
      modifies this
      ensures isUpgraded == old(isUpgraded) && required == old(required)
      ensures file.None? ==>
        upgradedValue == old(upgradedValue) && customValidity == old(customValidity) &&
        nativeValue == old(nativeValue) && events == old(events)
      ensures file.Some? && !IsFileValid(accept, file.value) ==>
        upgradedValue == old(upgradedValue) && customValidity == old(customValidity) &&
        nativeValue == old(nativeValue) && events == old(events) + [InvalidFile]
      ensures file.Some? && IsFileValid(accept, file.value) ==>
        upgradedValue == file && nativeValue == "" &&
        customValidity == (if hasCustomValidity then "" else old(customValidity)) &&
        events == old(events) + [ChangeFile(file.value)]
    {
      if file.None? {
        return;
      }
      if !IsFileValid(accept, file.value) {
        events := events + [InvalidFile];
        return;
      }
      Store(file.value);
    }

    /**
     * The setter with the corrected check IsFileValidIntended, where a name
     * must end with an extension entry; it rejects what the setter as written
     * rejects, and also names that only contain an entry.
     */
    method SetUpgradedValueIntended(file: Option<File>)
      modifies this
      ensures isUpgraded == old(isUpgraded) && required == old(required)
      ensures file.None? ==>
        upgradedValue == old(upgradedValue) && customValidity == old(customValidity) &&
        nativeValue == old(nativeValue) && events == old(events)
      ensures file.Some? && !IsFileValidIntended(accept, file.value) ==>
        upgradedValue == old(upgradedValue) && customValidity == old(customValidity) &&
        nativeValue == old(nativeValue) && events == old(events) + [InvalidFile]
      ensures file.Some? && IsFileValidIntended(accept, file.value) ==>
        upgradedValue == file && nativeValue == "" &&
        customValidity == (if hasCustomValidity then "" else old(customValidity)) &&
        events == old(events) + [ChangeFile(file.value)]
    {
      if file.None? {
        return;
      }
      if !IsFileValidIntended(accept, file.value) {
        events := events + [InvalidFile];
        return;
      }
      Store(file.value);
    }

    /**
     * A `change` event of the native input. Once upgraded, the handler that
     * upgrade() installs sets upgradedValue to files[0] (undefined when the
     * selection is empty).
     */
    method Change(files: seq<File>)
      modifies this
      ensures isUpgraded == old(isUpgraded) && required == old(required)
      ensures !old(isUpgraded) || files == [] || !IsFileValid(accept, files[0]) ==>
        upgradedValue == old(upgradedValue) && customValidity == old(customValidity) &&
        nativeValue == old(nativeValue)
      ensures !old(isUpgraded) || files == [] ==> events == old(events)
      ensures old(isUpgraded) && files != [] && !IsFileValid(accept, files[0]) ==>
        events == old(events) + [InvalidFile]
      ensures old(isUpgraded) && files != [] && IsFileValid(accept, files[0]) ==>
        upgradedValue == Some(files[0]) && nativeValue == "" &&
        customValidity == (if hasCustomValidity then "" else old(customValidity)) &&
        events == old(events) + [ChangeFile(files[0])]
    {
      if isUpgraded {
        SetUpgradedValue(if files == [] then None else Some(files[0]));
      }
    }
  }

  // ---------------------------------------------------------------------
  // UploadWidget

  datatype DragEvent = DragEnter | DragLeave | Drop

  /** The drag-and-drop state: dragCounter and the `dragged-over` class. */
  datatype DragState = DragState(counter: int, draggedOver: bool)

  /**
   * One drag event: dragenter counts up and highlights; dragleave counts down
   * and removes the highlight only when the count reaches 0; drop removes the
   * highlight and leaves the count as it is.
   */
  function DragStep(s: DragState, e: DragEvent): DragState
  {
    match e
    case DragEnter => DragState(s.counter + 1, true)
    case DragLeave => DragState(s.counter - 1, if s.counter - 1 == 0 then false else s.draggedOver)
    case Drop => DragState(s.counter, false)
  }

  function Replay(s: DragState, events: seq<DragEvent>): DragState
    decreases |events|
  {
    if events == [] then s else Replay(DragStep(s, events[0]), events[1..])
  }

  function Repeat(e: DragEvent, n: nat): (r: seq<DragEvent>)
    ensures |r| == n && forall i :: 0 <= i < n ==> r[i] == e
  {
    if n == 0 then [] else [e] + Repeat(e, n - 1)
  }

  lemma {:induction false} ReplayConcat(s: DragState, a: seq<DragEvent>, b: seq<DragEvent>)
    ensures Replay(s, a + b) == Replay(Replay(s, a), b)
    decreases |a|
  {
    if a == [] {
      assert a + b == b;
    } else {
      assert (a + b)[0] == a[0] && (a + b)[1..] == a[1..] + b;
      ReplayConcat(DragStep(s, a[0]), a[1..], b);
    }
  }

  /** n nested dragenter events count up to n and leave the widget highlighted. */
  lemma {:induction false} EntersHighlight(s: DragState, n: nat)
    requires n > 0
    ensures Replay(s, Repeat(DragEnter, n)) == DragState(s.counter + n, true)
    decreases n
  {
    assert Repeat(DragEnter, n)[1..] == Repeat(DragEnter, n - 1);
    if n > 1 {
      EntersHighlight(DragState(s.counter + 1, true), n - 1);
    }
  }

  /** Leaving fewer times than entered keeps the highlight; the count stays positive. */
  lemma {:induction false} LeavesKeepHighlight(c: nat, m: nat)
    requires m < c
    ensures Replay(DragState(c, true), Repeat(DragLeave, m)) == DragState(c - m, true)
  {
    if m > 0 {
      assert Repeat(DragLeave, m)[1..] == Repeat(DragLeave, m - 1);
      LeavesKeepHighlight(c - 1, m - 1);
    }
  }

  /**
   * From rest, n nested enters followed by fewer leaves keep the widget
   * highlighted, and as many leaves as enters bring it back to rest.
   */
  lemma BalancedDrag(n: nat, m: nat)
    requires 0 < n && m <= n
    ensures Replay(DragState(0, false), Repeat(DragEnter, n) + Repeat(DragLeave, m)) ==
      if m < n then DragState(n - m, true) else DragState(0, false)
  {
    ReplayConcat(DragState(0, false), Repeat(DragEnter, n), Repeat(DragLeave, m));
    EntersHighlight(DragState(0, false), n);
    if m < n {
      LeavesKeepHighlight(n, m);
    } else {
      LeavesKeepHighlight(n, n - 1);
      var last := Repeat(DragLeave, n - 1) + [DragLeave];
      assert Repeat(DragLeave, n) == last;
      ReplayConcat(DragState(n, true), Repeat(DragLeave, n - 1), [DragLeave]);
    }
  }

  /**
   * Because drop does not reset the counter, a file dropped after one
   * dragenter leaves the count at 1, and the next drag that enters and
   * leaves the widget leaves it highlighted.
   */
  lemma HighlightAfterDropAndLeave()
    ensures Replay(DragState(0, false), [DragEnter, Drop, DragEnter, DragLeave]) == DragState(1, true)
  {
  }

  /**
   * The <upload-widget> component. Its drag handlers are installed by
   * attachedCallback only when the widget is not degraded.
   */
  class UploadWidget {
    const input: UploadInput
    var isDegraded: bool
    /** Whether the drag-and-drop handlers are installed. */
    var listening: bool
    var dragCounter: int
    var draggedOver: bool

    constructor (input: UploadInput)
      ensures this.input == input
      ensures !isDegraded && !listening && dragCounter == 0 && !draggedOver
    {
      this.input := input;
      isDegraded := false;
      listening := false;
      dragCounter := 0;
      draggedOver := false;
    }

    /** The drag state the widget is in. */
    function State(): DragState
      reads this
    {
      DragState(dragCounter, draggedOver)
    }

    /**
     * attachedCallback: the widget degrades when the input has a form that
     * is not an ajax form (an input without a form passes that check), when
     * the browser lacks support, or when degradation is forced; otherwise it
     * installs its handlers and upgrades the input.
     */
    method Attach(hasForm: bool, formIsAjax: bool, browserSupport: bool, forced: bool)
      modifies this, input
      ensures isDegraded == ((hasForm && !formIsAjax) || !browserSupport || forced)
      ensures listening == !isDegraded
      ensures State() == old(State())
      ensures input.isUpgraded == (old(input.isUpgraded) || !isDegraded)
      ensures isDegraded ==>
        (input.required == old(input.required) && input.customValidity == old(input.customValidity))
      ensures !isDegraded ==>
        (!input.required && input.customValidity ==
          if old(input.required) && input.hasCustomValidity then ChooseFileMessage else old(input.customValidity))
      ensures input.upgradedValue == old(input.upgradedValue) && input.events == old(input.events)
      ensures input.nativeValue == old(input.nativeValue)
    {
      isDegraded := (hasForm && !formIsAjax) || !browserSupport || forced;
      listening := !isDegraded;
      if !isDegraded {
        input.Upgrade();
      }
    }

    method OnDragEnter()
      modifies this
      ensures State() == if listening then DragStep(old(State()), DragEnter) else old(State())
      ensures listening == old(listening) && isDegraded == old(isDegraded)
    {
      if listening {
        dragCounter := dragCounter + 1;
        draggedOver := true;
      }
    }

    method OnDragLeave()
      modifies this
      ensures State() == if listening then DragStep(old(State()), DragLeave) else old(State())
      ensures listening == old(listening) && isDegraded == old(isDegraded)
    {
      if listening {
        dragCounter := dragCounter - 1;
        if dragCounter == 0 {
          draggedOver := false;
        }
      }
    }

    /** A drop removes the highlight and hands files[0] to the input's setter. */
    method OnDrop(files: seq<File>)
      modifies this, input
      ensures State() == if listening then DragStep(old(State()), Drop) else old(State())
      ensures listening == old(listening) && isDegraded == old(isDegraded)
      ensures input.isUpgraded == old(input.isUpgraded) && input.required == old(input.required)
      ensures !listening || files == [] || !IsFileValid(input.accept, files[0]) ==>
        input.upgradedValue == old(input.upgradedValue) &&
        input.customValidity == old(input.customValidity) && input.nativeValue == old(input.nativeValue)
      ensures !listening || files == [] ==> input.events == old(input.events)
      ensures listening && files != [] && !IsFileValid(input.accept, files[0]) ==>
        input.events == old(input.events) + [InvalidFile]
      ensures listening && files != [] && IsFileValid(input.accept, files[0]) ==>
        input.upgradedValue == Some(files[0]) && input.nativeValue == "" &&
        input.customValidity == (if input.hasCustomValidity then "" else old(input.customValidity)) &&
        input.events == old(input.events) + [ChangeFile(files[0])]
    {
      if listening {
        draggedOver := false;
        input.SetUpgradedValue(if files == [] then None else Some(files[0]));
      }
    }
  }
}
