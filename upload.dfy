/**
  The document upload form: the fields it holds, the tag suggestions, the
  validation gate in front of the upload, the payload it builds (a
  `DD-MM-YYYY` date, `{tag_name}` objects and a file descriptor), the
  category to sub-category options, the decision over a camera result, and
  the reset or failure message after the upload settles.

  The pure rules are functions over a `FormState` record; `UploadForm`
  holds the same fields as the screen's `useState` hooks and updates them
  in place.
*/
module Upload {
  import opened Js

  const Categories: seq<string> := ["Personal", "Professional"]
  const PersonalOptions: seq<string> := ["John", "Tom", "Emily"]
  const ProfessionalOptions: seq<string> := ["Accounts", "HR", "IT", "Finance"]

  /** The `user_id` every upload carries. */
  const UserId := "dharmesh"

  /** The largest photo size accepted from the camera, in bytes (5 MiB). */
  const MaxPhotoBytes := 5 * 1024 * 1024

  /** The file name sent when the form holds none. */
  const DefaultFileName := "document"

  /** `getMonth()`: 0 for January. */
  type MonthIndex = m: int | 0 <= m < 12

  /** `getDate()`: the day of the month. */
  type DayOfMonth = d: int | 1 <= d <= 31 witness 1

  /** A calendar date as the form's `Date` object reports it. */
  datatype Date = Date(year: int, monthIndex: MonthIndex, day: DayOfMonth)

  /** Every field of the form. */
  datatype FormState = FormState(
    fileName: string,
    fileUri: string,
    category: string,
    subCategory: string,
    date: Date,
    remarks: string,
    availableTags: seq<string>,
    tags: seq<string>,
    tagInput: string,
    submitAttempted: bool)

  /** What a freshly opened form, or one reset after a successful upload,
      holds. */
  function Blank(today: Date, availableTags: seq<string>): FormState
  {
    FormState("", "", "", "", today, "", availableTags, [], "", false)
  }

  // ---------------------------------------------------------------------
  // Categories

  /** The sub-categories offered for a category: the personal list for
      `Personal` and the professional list for anything else, including no
      category at all. */
  function SubOptions(category: string): (options: seq<string>)
    ensures options == PersonalOptions <==> category == "Personal"
    ensures options == ProfessionalOptions <==> category != "Personal"
  {
    if category == "Personal" then PersonalOptions else ProfessionalOptions
  }

  /** The facts the form's handlers keep: the category is one the picker
      offers, a sub-category is only set under a category and is one of its
      options, and the selected tags are distinct and non-empty. */
  ghost predicate FormInvariant(s: FormState)
  {
    (s.category == "" || s.category in Categories) &&
    (s.subCategory == "" || (s.category != "" && s.subCategory in SubOptions(s.category))) &&
    Distinct(s.tags) && "" !in s.tags
  }

  // ---------------------------------------------------------------------
  // Tag suggestions

  /** `tag` is offered for `input`: its lower-case form contains the
      lower-case input and it is not selected yet. */
  predicate Suggests(input: string, selected: seq<string>, tag: string)
    ensures input == "" ==> (Suggests(input, selected, tag) <==> tag !in selected)
  {
    Includes(ToLower(tag), ToLower(input)) && tag !in selected
  }

  /** `filteredTags`: the available tags offered for the input, in their
      original order. */
  function FilteredTags(available: seq<string>, input: string, selected: seq<string>): (r: seq<string>)
    ensures IsSubsequence(r, available)
    ensures forall t :: t in r <==> t in available && Suggests(input, selected, t)
    ensures forall t :: multiset(r)[t] == if Suggests(input, selected, t) then multiset(available)[t] else 0
  {
    FilterMultiplicity(available, t => Suggests(input, selected, t));
    Filter(available, t => Suggests(input, selected, t))
  }

  /** With nothing typed, every unselected tag is offered, in order; with
      nothing selected either, all available tags are. */
  lemma EmptyInputSuggestsUnselected(available: seq<string>, selected: seq<string>)
    ensures FilteredTags(available, "", selected) == Filter(available, t => t !in selected)
    ensures FilteredTags(available, [], []) == available
  {
    assert ToLower("") == "";
    FilterCongruent(available, t => Suggests("", selected, t), t => t !in selected);
    FilterAllKept(available, t => Suggests("", [], t));
  }

  /** The suggestions do not depend on the case of the input. */
  lemma SuggestionsIgnoreInputCase(available: seq<string>, input: string, selected: seq<string>)
    ensures FilteredTags(available, input, selected) == FilteredTags(available, ToLower(input), selected)
  {
    ToLowerIdempotent(input);
    FilterCongruent(available, t => Suggests(input, selected, t), t => Suggests(ToLower(input), selected, t));
  }

  // ---------------------------------------------------------------------
  // The validation gate and the required-field markers

  /** The check at the top of `handleSubmit`: a file, a category, a
      sub-category, remarks that are not blank, and at least one tag with
      no blank tag ("blank" meaning empty after `trim`, i.e. white space
      only). */
  predicate ReadyToSubmit(s: FormState)
    ensures ReadyToSubmit(s) <==>
      s.fileUri != "" && s.category != "" && s.subCategory != "" && !IsBlank(s.remarks) &&
      s.tags != [] && forall t :: t in s.tags ==> !IsBlank(t)
  {
    !(s.fileUri == "" || s.category == "" || s.subCategory == "" || Trim(s.remarks) == "" ||
      |s.tags| == 0 || exists t :: t in s.tags && Trim(t) == "")
  }

  datatype Field = FileField | CategoryField | SubCategoryField | DateField | TagsField | RemarksField

  /** The fields marked "This field is required." The date field's marker
      tests the `Date` object, which is never falsy, so it never shows. */
  function FlaggedFields(s: FormState): (flagged: set<Field>)
    ensures DateField !in flagged
    ensures !s.submitAttempted ==> flagged == {}
  {
    if !s.submitAttempted then {}
    else
      (if s.fileUri == "" then {FileField} else {}) +
      (if s.category == "" then {CategoryField} else {}) +
      (if s.subCategory == "" then {SubCategoryField} else {}) +
      (if |s.tags| == 0 || exists t :: t in s.tags && Trim(t) == "" then {TagsField} else {}) +
      (if Trim(s.remarks) == "" then {RemarksField} else {})
  }

  /** Once a submit was attempted, it is blocked exactly when some field is
      marked. */
  lemma SubmitBlockedIffFlagged(s: FormState)
    requires s.submitAttempted
    ensures ReadyToSubmit(s) <==> FlaggedFields(s) == {}
  {
    if !ReadyToSubmit(s) {
      if s.fileUri == "" { assert FileField in FlaggedFields(s); }
      else if s.category == "" { assert CategoryField in FlaggedFields(s); }
      else if s.subCategory == "" { assert SubCategoryField in FlaggedFields(s); }
      else if Trim(s.remarks) == "" { assert RemarksField in FlaggedFields(s); }
      else { assert TagsField in FlaggedFields(s); }
    }
  }

  // ---------------------------------------------------------------------
  // The payload

  /** A number below 100 as exactly two decimal digits. */
  function TwoDigits(n: nat): (r: string)
    requires n < 100
    ensures |r| == 2 && AllDigits(r) && ParseNat(r) == n
  {
    var r := [DigitChar(n / 10), DigitChar(n % 10)];
    assert r[..1] == [DigitChar(n / 10)] && [DigitChar(n / 10)][..0] == [];
    assert DigitValue(DigitChar(n / 10)) == n / 10 && DigitValue(DigitChar(n % 10)) == n % 10;
    assert ParseNat(r[..1]) == 10 * ParseNat(r[..1][..0]) + DigitValue(r[0]);
    assert ParseNat(r) == 10 * ParseNat(r[..1]) + DigitValue(r[1]);
    r
  }

  /** `String(n).padStart(2, '0')` is those two digits. */
  lemma TwoDigitsIsPadded(n: nat)
    requires n < 100
    ensures TwoDigits(n) == PadStart(NatToString(n), 2, '0')
  {
    if n >= 10 {
      assert NatToString(n) == NatToString(n / 10) + [DigitChar(n % 10)];
    }
  }

  /** `document_date`: day, 1-based month and year, separated by dashes. */
  function DocumentDate(d: Date): (text: string)
    ensures |text| >= 7 && text[2] == '-' && text[5] == '-'
    ensures AllDigits(text[..2]) && AllDigits(text[3..5])
  {
    var dd, mm := TwoDigits(d.day), TwoDigits(d.monthIndex + 1);
    var text := dd + "-" + mm + "-" + IntToString(d.year);
    assert text[..2] == dd && text[3..5] == mm;
    text
  }

  /** Reads a `DD-MM-YYYY` date back; the month in the text is 1-based. */
  function ParseDocumentDate(text: string): Option<Date>
  {
    if |text| >= 7 && AllDigits(text[..2]) && text[2] == '-' && AllDigits(text[3..5]) && text[5] == '-' then
      var day, month := ParseNat(text[..2]), ParseNat(text[3..5]);
      match ParseInt(text[6..])
      case Some(year) =>
        if 1 <= day <= 31 && 1 <= month <= 12 then Some(Date(year, month - 1, day)) else None
      case None => None
    else None
  }

  /** The date string determines the date: it reads back as the date it was
      written from. */
  lemma DocumentDateRoundTrip(d: Date)
    ensures ParseDocumentDate(DocumentDate(d)) == Some(d)
  {
    var dd, mm, yy := TwoDigits(d.day), TwoDigits(d.monthIndex + 1), IntToString(d.year);
    IntToStringRoundTrip(d.year);
    var text := DocumentDate(d);
    assert text == dd + "-" + mm + "-" + yy;
    assert text[..2] == dd && text[3..5] == mm && text[6..] == yy;
  }

  /** One `{ tag_name }` object of the payload. */
  datatype TagEntry = TagEntry(tagName: string)

  function TagNames(entries: seq<TagEntry>): seq<string>
  {
    seq(|entries|, i requires 0 <= i < |entries| => entries[i].tagName)
  }

  /** `tags.map(t => ({ tag_name: t }))`: one entry per tag, in order. */
  function TagEntries(tags: seq<string>): (entries: seq<TagEntry>)
    ensures |entries| == |tags|
    ensures TagNames(entries) == tags
  {
    seq(|tags|, i requires 0 <= i < |tags| => TagEntry(tags[i]))
  }

  datatype DocumentData = DocumentData(
    majorHead: string,
    minorHead: string,
    documentDate: string,
    documentRemarks: string,
    tags: seq<TagEntry>,
    userId: string)

  /** The `file` part of the upload: where it is, its name and its type. */
  datatype FileDescriptor = FileDescriptor(uri: string, name: string, mimeType: string)

  function FileFor(fileUri: string, fileName: string): (f: FileDescriptor)
    ensures f.uri == fileUri && f.name != ""
    ensures fileName != "" ==> f.name == fileName
    ensures fileName == "" ==> f.name == DefaultFileName
    ensures f.mimeType == "application/pdf" <==> EndsWith(fileName, ".pdf")
    ensures f.mimeType == "application/pdf" || f.mimeType == "image/jpeg"
  {
    FileDescriptor(
      fileUri,
      if fileName != "" then fileName else DefaultFileName,
      if EndsWith(fileName, ".pdf") then "application/pdf" else "image/jpeg")
  }

  datatype UploadRequest = UploadRequest(file: FileDescriptor, data: DocumentData)

  /** The `{ file, data }` argument `handleSubmit` dispatches: the file as
      `FileFor` describes it, the heads and remarks as entered, a date string
      that reads back as the picked date, one tag entry per selected tag in
      order, and the fixed user id. */
  function BuildRequest(s: FormState): (r: UploadRequest)
    ensures r.file == FileFor(s.fileUri, s.fileName)
    ensures r.data.majorHead == s.category && r.data.minorHead == s.subCategory
    ensures ParseDocumentDate(r.data.documentDate) == Some(s.date)
    ensures r.data.documentRemarks == s.remarks
    ensures TagNames(r.data.tags) == s.tags
    ensures r.data.userId == UserId
  {
    DocumentDateRoundTrip(s.date);
    UploadRequest(
      FileFor(s.fileUri, s.fileName),
      DocumentData(s.category, s.subCategory, DocumentDate(s.date), s.remarks, TagEntries(s.tags), UserId))
  }

  /** A request that passed the gate carries the form faithfully: every
      required part is present, the date reads back as the form's date and
      the tag names are the selected tags, none of them blank. */
  lemma RequestCarriesForm(s: FormState)
    requires ReadyToSubmit(s)
    ensures var r := BuildRequest(s);
      r.file.uri == s.fileUri && r.file.uri != "" &&
      r.data.majorHead == s.category && r.data.majorHead != "" &&
      r.data.minorHead == s.subCategory && r.data.minorHead != "" &&
      ParseDocumentDate(r.data.documentDate) == Some(s.date) &&
      r.data.documentRemarks == s.remarks && !IsBlank(r.data.documentRemarks) &&
      TagNames(r.data.tags) == s.tags && r.data.tags != [] &&
      (forall e :: e in r.data.tags ==> !IsBlank(e.tagName)) &&
      r.data.userId == UserId
  {
    EntriesOfNonBlankTags(s.tags);
  }

  /** Non-blank tags give entries with non-blank names. */
  lemma EntriesOfNonBlankTags(tags: seq<string>)
    requires forall t :: t in tags ==> !IsBlank(t)
    ensures forall e :: e in TagEntries(tags) ==> !IsBlank(e.tagName)
  {
    var entries := TagEntries(tags);
    forall e | e in entries ensures !IsBlank(e.tagName) {
      var i :| 0 <= i < |entries| && entries[i] == e;
      assert e.tagName == tags[i];
    }
  }

  // ---------------------------------------------------------------------
  // The camera result

  /** One asset of a camera result; a missing property is `None`. */
  datatype Asset = Asset(fileName: Option<string>, uri: Option<string>, fileSize: Option<int>)

  datatype CameraResult = CameraResult(
    didCancel: bool,
    errorCode: Option<string>,
    errorMessage: Option<string>,
    assets: Option<seq<Asset>>)

  datatype Alert = Alert(title: string, message: JsValue)

  /** A string property that is present and not empty, i.e. truthy. */
  predicate Present(v: Option<string>)
  {
    v.Some? && v.value != ""
  }

  function GetOr(v: Option<string>, default: string): string
  {
    match v case Some(x) => x case None => default
  }

  /** What the form does with a camera result: nothing, an alert, or the
      photo's name and location. */
  datatype Capture = Ignored | Refused(alert: Alert) | Accepted(fileName: string, fileUri: string)

  /** The photo-size test: a size that is present and above the cap. A
      size of exactly the cap passes. */
  predicate TooLarge(a: Asset)
  {
    a.fileSize.Some? && a.fileSize.value != 0 && a.fileSize.value > MaxPhotoBytes
  }

  function CaptureOutcome(res: CameraResult): (c: Capture)
    ensures c.Ignored? <==> res.didCancel
    ensures c.Accepted? <==>
      !res.didCancel && !Present(res.errorCode) && res.assets.Some? && res.assets.value != [] &&
      !TooLarge(res.assets.value[0])
    ensures c.Accepted? ==>
      c.fileName == GetOr(res.assets.value[0].fileName, "") && c.fileUri == GetOr(res.assets.value[0].uri, "")
    ensures c.Refused? ==> Truthy(c.alert.message)
    ensures c.Refused? && !Present(res.errorCode) && (res.assets.None? || res.assets.value == []) ==>
      c.alert == Alert("Error", Str("No photo captured."))
  {
    if res.didCancel then Ignored
    else if Present(res.errorCode) then
      if res.errorCode.value == "camera_unavailable" then
        Refused(Alert("Camera unavailable", Str("Camera is not available on this device.")))
      else if res.errorCode.value == "permission" then
        Refused(Alert("Permission denied", Str("Camera permission denied.")))
      else
        Refused(Alert("Error", Str(if Present(res.errorMessage) then res.errorMessage.value else "Unknown error occurred.")))
    else if res.assets.None? || res.assets.value == [] then
      Refused(Alert("Error", Str("No photo captured.")))
    else if TooLarge(res.assets.value[0]) then
      Refused(Alert("File too large", Str("The captured image is too large. Please try again with a smaller image.")))
    else
      Accepted(GetOr(res.assets.value[0].fileName, ""), GetOr(res.assets.value[0].uri, ""))
  }

  /** The cap is inclusive: a photo of `n` bytes is accepted exactly when
      `n` is at most 5 MiB. */
  lemma PhotoSizeCap(a: Asset, n: nat)
    ensures CaptureOutcome(CameraResult(false, None, None, Some([a.(fileSize := Some(n))]))).Accepted?
      <==> n <= MaxPhotoBytes
  {
  }

  // ---------------------------------------------------------------------
  // After the upload

  /** How the dispatched upload ended: fulfilled, settled with another
      action (whose payload's `message` is given), or thrown. */
  datatype UploadOutcome = Fulfilled | NotFulfilled(payloadMessage: JsValue) | Threw(message: JsValue)

  const SuccessAlert := Alert("Success", Str("Your document has been uploaded successfully."))

  /** The alert after a failed upload: the payload's message, else the auth
      slice's error, else a fixed text; for a thrown error its message or
      a fixed text. It always has something to say. */
  function FailureAlert(outcome: UploadOutcome, stateError: JsValue): (a: Alert)
    requires !outcome.Fulfilled?
    ensures a.title == "Upload failed" && Truthy(a.message)
    ensures outcome.NotFulfilled? && Truthy(outcome.payloadMessage) ==> a.message == outcome.payloadMessage
    ensures outcome.NotFulfilled? && !Truthy(outcome.payloadMessage) && Truthy(stateError) ==> a.message == stateError
    ensures outcome.NotFulfilled? && !Truthy(outcome.payloadMessage) && !Truthy(stateError) ==>
      a.message == Str("Upload failed")
    ensures outcome.Threw? ==> a.message == if Truthy(outcome.message) then outcome.message else Str("An error occurred.")
  {
    match outcome
    case NotFulfilled(payloadMessage) => Alert("Upload failed", Or(Or(payloadMessage, stateError), Str("Upload failed")))
    case Threw(message) => Alert("Upload failed", Or(message, Str("An error occurred.")))
  }

  // ---------------------------------------------------------------------
  // The form

  class UploadForm {
    var fileName: string
    var fileUri: string
    var category: string
    var subCategory: string
    var date: Date
    var remarks: string
    var availableTags: seq<string>
    var tags: seq<string>
    var tagInput: string
    var submitAttempted: bool

    function State(): FormState
      reads this
    {
      FormState(fileName, fileUri, category, subCategory, date, remarks, availableTags, tags, tagInput, submitAttempted)
    }

    ghost predicate Valid()
      reads this
    {
      FormInvariant(State())
    }

    constructor (today: Date)
      ensures State() == Blank(today, []) && Valid()
    {
      fileName, fileUri, category, subCategory := "", "", "", "";
      date, remarks := today, "";
      availableTags, tags, tagInput, submitAttempted := [], [], "", false;
    }

    /** The tags loaded from the store become the available tags. */
    method SetAvailableTags(loaded: seq<string>)
      modifies this`availableTags
      ensures availableTags == loaded
    {
      availableTags := loaded;
    }

    /** Focusing the screen hides the required-field markers. */
    method OnFocus()
      modifies this`submitAttempted
      ensures !submitAttempted && FlaggedFields(State()) == {}
    {
      submitAttempted := false;
    }

    method SetRemarks(text: string)
      modifies this`remarks
      ensures remarks == text
    {
      remarks := text;
    }

    method SetTagInput(text: string)
      modifies this`tagInput
      ensures tagInput == text
    {
      tagInput := text;
    }

    /** The date picker closed: a selected date replaces the form's date,
        a dismissal keeps it. */
    method OnChangeDate(selected: Option<Date>)
      modifies this`date
      ensures date == if selected.Some? then selected.value else old(date)
    {
      if selected.Some? {
        date := selected.value;
      }
    }

    /** Choosing a category (or the empty placeholder) always clears the
        sub-category. */
    method SelectCategory(v: string)
      requires Valid() && (v == "" || v in Categories)
      modifies this`category, this`subCategory
      ensures Valid()
      ensures category == v && subCategory == ""
    {
      category := v;
      subCategory := "";
    }

    /** Choosing a sub-category, from the picker that is only enabled once
        a category is chosen and that lists that category's options. */
    method SelectSubCategory(v: string)
      requires Valid() && category != "" && (v == "" || v in SubOptions(category))
      modifies this`subCategory
      ensures Valid()
      ensures subCategory == v
    {
      subCategory := v;
    }

    /** `addTag`: an empty or already selected tag is ignored, any other is
        appended; the input is cleared either way. A new tag not yet
        available is posted to the tag service (`postSent`) and, when that
        post succeeds (`tagSaved`), becomes available. */
    method AddTag(t: string, tagSaved: bool) returns (postSent: bool)
      requires Valid()
      modifies this`tags, this`tagInput, this`availableTags
      ensures Valid()
      ensures tagInput == ""
      ensures t == "" || t in old(tags) ==> tags == old(tags) && !postSent
      ensures t != "" && t !in old(tags) ==> tags == old(tags) + [t] && (postSent <==> t !in old(availableTags))
      ensures availableTags == if postSent && tagSaved then old(availableTags) + [t] else old(availableTags)
    {
      if t == "" || t in tags {
        tagInput := "";
        return false;
      }
      var before := tags;
      tags := tags + [t];
      forall i, j | 0 <= i < j < |tags| ensures tags[i] != tags[j] {
        if j == |before| { assert tags[i] in before; }
      }
      postSent := t !in availableTags;
      if postSent && tagSaved {
        availableTags := availableTags + [t];
      }
      tagInput := "";
    }

    /** Submitting the tag input: `addTag(tagInput.trim())`. A blank input
        adds nothing; otherwise the trimmed text is added unless it is
        already selected. Either way the input is cleared. */
    method SubmitTagInput(tagSaved: bool) returns (postSent: bool)
      requires Valid()
      modifies this`tags, this`tagInput, this`availableTags
      ensures Valid()
      ensures tagInput == ""
      ensures IsBlank(old(tagInput)) ==> tags == old(tags) && !postSent
      ensures !IsBlank(old(tagInput)) && Trim(old(tagInput)) !in old(tags) ==>
        tags == old(tags) + [Trim(old(tagInput))] && (postSent <==> Trim(old(tagInput)) !in old(availableTags))
      ensures !IsBlank(old(tagInput)) && Trim(old(tagInput)) in old(tags) ==> tags == old(tags) && !postSent
    {
      postSent := AddTag(Trim(tagInput), tagSaved);
    }

    /** Removing a chip: that tag goes, the others stay in their order. */
    method RemoveTag(t: string)
      requires Valid()
      modifies this`tags
      ensures Valid()
      ensures IsSubsequence(tags, old(tags))
      ensures forall x :: x in tags <==> x in old(tags) && x != t
      ensures t !in old(tags) ==> tags == old(tags)
    {
      var before := tags;
      FilterKeepsDistinct(before, x => x != t);
      if t !in before {
        FilterAllKept(before, x => x != t);
      }
      tags := Filter(before, x => x != t);
    }

    /** The camera callback: an accepted photo replaces the file, anything
        else leaves it and may raise an alert. */
    method OnCameraResult(res: CameraResult) returns (alert: Option<Alert>)
      modifies this`fileName, this`fileUri
      ensures CaptureOutcome(res).Accepted? ==>
        fileName == CaptureOutcome(res).fileName && fileUri == CaptureOutcome(res).fileUri && alert == None
      ensures !CaptureOutcome(res).Accepted? ==> fileName == old(fileName) && fileUri == old(fileUri)
      ensures alert == if CaptureOutcome(res).Refused? then Some(CaptureOutcome(res).alert) else None
    {
      match CaptureOutcome(res)
      case Ignored => alert := None;
      case Refused(a) => alert := Some(a);
      case Accepted(name, uri) =>
        fileName, fileUri := name, uri;
        alert := None;
    }

    /** The reset after a successful upload: every field is cleared except
        the available tags, and the date becomes `today`. */
    method ResetAfterUpload(today: Date)
      modifies this
      ensures State() == Blank(today, old(availableTags)) && Valid()
    {
      fileName, fileUri, category := "", "", "";
      subCategory, date, remarks := "", today, "";
      tags, tagInput, submitAttempted := [], "", false;
    }

    /** `handleSubmit`: mark the attempt; stop there if the gate fails;
        otherwise send the request built from the form and, on success,
        reset every field except the available tags (the date becomes
        `today`), or on failure keep the form and report why. */
    method HandleSubmit(outcome: UploadOutcome, stateError: JsValue, today: Date)
      returns (request: Option<UploadRequest>, alert: Option<Alert>)
      requires Valid()
      modifies this
      ensures Valid()
      ensures !ReadyToSubmit(old(State())) ==>
        request == None && alert == None && State() == old(State()).(submitAttempted := true)
      ensures ReadyToSubmit(old(State())) ==> request == Some(BuildRequest(old(State())))
      ensures ReadyToSubmit(old(State())) && outcome.Fulfilled? ==>
        alert == Some(SuccessAlert) && State() == Blank(today, old(availableTags))
      ensures ReadyToSubmit(old(State())) && !outcome.Fulfilled? ==>
        alert == Some(FailureAlert(outcome, stateError)) && State() == old(State()).(submitAttempted := true)
    {
      var before := State();
      submitAttempted := true;
      if !ReadyToSubmit(before) {
        return None, None;
      }
      request := Some(BuildRequest(before));
      if outcome.Fulfilled? {
        alert := Some(SuccessAlert);
        ResetAfterUpload(today);
      } else {
        alert := Some(FailureAlert(outcome, stateError));
      }
    }
  }
}
