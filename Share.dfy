/** The page's handling of shared content (app.js): the state effect of
    handleShareData and handleSharedImageData, and the pickup of a pending
    share from the IndexedDB store in checkPendingShareData. The page's two
    slots are the job-post text field and the uploaded screenshot. */
module Share {
  import opened Js
  import opened Forms
  import opened Format
  import opened Guards

  const ShareTargetType := "share-target"

  /** A file already encoded for messaging: `{name, size, dataUrl}`. */
  datatype SerializedFile = SerializedFile(name: Option<string>, size: Option<nat>, dataUrl: Option<string>)

  /** The object handleShareData receives, from a service-worker message or
      from a stored record. Every field may be missing. */
  datatype Message = Message(
    kind: Option<string>,
    title: Option<string>,
    text: Option<string>,
    url: Option<string>,
    files: Option<seq<FormValue>>,
    serializedFiles: Option<seq<SerializedFile>>)

  /** The two slots shared content fills. */
  datatype AppState = AppState(jobText: string, screenshot: Option<string>)

  /** The one notice handleShareData shows. */
  datatype Notice = InvalidContent | NoContent | ImageAndTextReceived | ContentReceived | ImageReceived

  function NoticeText(n: Notice): string {
    match n
    case InvalidContent => "Invalid shared content"
    case NoContent => "No content to share"
    case ImageAndTextReceived => "Shared image and text received!"
    case ContentReceived => "Shared content received!"
    case ImageReceived => "Shared image received!"
  }

  /** A missing value, or one whose `type` is not `'share-target'`, is refused. */
  predicate IsShareMessage(msg: Option<Message>) {
    msg.Some? && msg.value.kind == Some(ShareTargetType)
  }

  /** The attachment handleShareData acts on. */
  datatype Attachment = SerializedImage(dataUrl: string) | FileImage(file: SharedFile) | NoAttachment

  function FirstSerialized(m: Message): Option<SerializedFile> {
    if m.serializedFiles.Some? && |m.serializedFiles.value| > 0 then Some(m.serializedFiles.value[0]) else None
  }

  function FirstFile(m: Message): Option<FormValue> {
    if m.files.Some? && |m.files.value| > 0 then Some(m.files.value[0]) else None
  }

  /** Only the first serialized file and the first File are looked at; a
      serialized file with a data URL wins, otherwise a File (blob-like
      value) is taken. */
  function PickAttachment(m: Message): (a: Attachment)
    ensures a.SerializedImage? <==> FirstSerialized(m).Some? && Truthy(FirstSerialized(m).value.dataUrl)
    ensures a.SerializedImage? ==> Some(a.dataUrl) == FirstSerialized(m).value.dataUrl
    ensures a.FileImage? ==> FirstFile(m) == Some(FileValue(a.file))
    ensures a.FileImage? <==>
      !(FirstSerialized(m).Some? && Truthy(FirstSerialized(m).value.dataUrl)) &&
      FirstFile(m).Some? && FirstFile(m).value.FileValue?
  {
    var serialized := FirstSerialized(m);
    var file := FirstFile(m);
    if serialized.Some? && Truthy(serialized.value.dataUrl) then SerializedImage(serialized.value.dataUrl.value)
    else if file.Some? && file.value.FileValue? then FileImage(file.value.file)
    else NoAttachment
  }

  /** Text or a URL was shared. */
  predicate HasText(m: Message) {
    Truthy(m.text) || Truthy(m.url)
  }

  /** The new slots, the notice, and what the screenshot upload guard said
      when a File was handed to it. */
  datatype ShareOutcome = ShareOutcome(state: AppState, notice: Notice, upload: Option<UploadResult>)

  /** The screenshot slot after an attachment is handled. A File goes through
      the upload guard and only a file it loads replaces the screenshot. */
  function ScreenshotAfter(screenshot: Option<string>, a: Attachment): Option<string> {
    match a
    case SerializedImage(d) => Some(d)
    case FileImage(f) => (var u := ScreenshotUpload(f); if u.Loaded? then Some(u.dataUrl) else screenshot)
    case NoAttachment => screenshot
  }

  /** The notice for a valid share; an attachment counts as handled as soon
      as it is picked, whatever the upload guard then does with it. */
  function ShareNotice(imageHandled: bool, hasText: bool): Notice {
    if hasText then (if imageHandled then ImageAndTextReceived else ContentReceived)
    else if imageHandled then ImageReceived
    else NoContent
  }

  /** handleShareData as a merge of a message into the page's slots. A
      refused message and an empty share leave both slots alone. */
  function ApplyShare(s: AppState, msg: Option<Message>): (r: ShareOutcome)
    ensures r.notice == InvalidContent <==> !IsShareMessage(msg)
    ensures r.notice == InvalidContent ==> r.state == s && r.upload.None?
    ensures r.notice == NoContent ==> r.state == s
  {
    if !IsShareMessage(msg) then ShareOutcome(s, InvalidContent, None)
    else
      var m := msg.value;
      var a := PickAttachment(m);
      var jobText := if HasText(m) then FormatSharedContent(m.title, m.url, m.text) else s.jobText;
      ShareOutcome(
        AppState(jobText, ScreenshotAfter(s.screenshot, a)),
        ShareNotice(!a.NoAttachment?, HasText(m)),
        if a.FileImage? then Some(ScreenshotUpload(a.file)) else None)
  }

  /** A refused message changes neither slot. */
  lemma InvalidShareChangesNothing(s: AppState, msg: Option<Message>)
    requires msg.None? || msg.value.kind != Some(ShareTargetType)
    ensures ApplyShare(s, msg) == ShareOutcome(s, InvalidContent, None)
  {
  }

  /** The text slot is set to the formatted content exactly when text or a
      URL is present, whether or not an image was handled. */
  lemma TextSlotIffTextOrUrl(s: AppState, m: Message)
    requires IsShareMessage(Some(m))
    ensures HasText(m) ==> ApplyShare(s, Some(m)).state.jobText == FormatSharedContent(m.title, m.url, m.text)
    ensures !HasText(m) ==> ApplyShare(s, Some(m)).state.jobText == s.jobText
    ensures ApplyShare(s, Some(m)).state.jobText ==
      ApplyShare(s, Some(m.(files := None, serializedFiles := None))).state.jobText
  {
  }

  /** A serialized file with a data URL wins over any File, and its data URL
      becomes the screenshot exactly. */
  lemma SerializedFileWins(s: AppState, m: Message, f: SerializedFile)
    requires IsShareMessage(Some(m)) && FirstSerialized(m) == Some(f) && Truthy(f.dataUrl)
    ensures ApplyShare(s, Some(m)).state.screenshot == f.dataUrl
    ensures ApplyShare(s, Some(m)).upload.None?
  {
  }

  /** The screenshot slot in every attachment case: it keeps its value when
      no attachment is picked, becomes the loaded data URL when the first
      File passes the upload guard, and stays when the guard refuses it. */
  lemma ScreenshotSlot(s: AppState, m: Message)
    requires IsShareMessage(Some(m))
    ensures PickAttachment(m).NoAttachment? ==> ApplyShare(s, Some(m)).state.screenshot == s.screenshot
    ensures PickAttachment(m).SerializedImage? ==>
      ApplyShare(s, Some(m)).state.screenshot == Some(PickAttachment(m).dataUrl)
    ensures PickAttachment(m).FileImage? && ScreenshotUpload(PickAttachment(m).file).Loaded? ==>
      ApplyShare(s, Some(m)).state.screenshot == Some(ScreenshotUpload(PickAttachment(m).file).dataUrl)
    ensures PickAttachment(m).FileImage? && !ScreenshotUpload(PickAttachment(m).file).Loaded? ==>
      ApplyShare(s, Some(m)).state.screenshot == s.screenshot
  {
  }

  /** Only the first element of each attachment list matters. */
  lemma OnlyFirstAttachmentMatters(s: AppState, m: Message, m': Message)
    requires IsShareMessage(Some(m)) && IsShareMessage(Some(m'))
    requires m.title == m'.title && m.text == m'.text && m.url == m'.url
    requires FirstSerialized(m) == FirstSerialized(m') && FirstFile(m) == FirstFile(m')
    ensures ApplyShare(s, Some(m)) == ApplyShare(s, Some(m'))
  {
  }

  /** "No content to share" is shown exactly when no attachment was handled
      and there is neither text nor a URL; otherwise the notice names what
      was filled, the image taking precedence in the wording. */
  lemma NoticeNamesWhatWasShared(s: AppState, m: Message)
    requires IsShareMessage(Some(m))
    ensures var n := ApplyShare(s, Some(m)).notice;
      var imageHandled := !PickAttachment(m).NoAttachment?;
      && (n == NoContent <==> !imageHandled && !HasText(m))
      && (n == ImageAndTextReceived <==> imageHandled && HasText(m))
      && (n == ContentReceived <==> !imageHandled && HasText(m))
      && (n == ImageReceived <==> imageHandled && !HasText(m))
  {
  }

  /** As written, a File that the upload guard refuses still counts as a
      handled image: the slot keeps its old screenshot while the notice says
      an image was received. */
  lemma RefusedFileStillReportsImage(s: AppState, m: Message, f: SharedFile)
    requires IsShareMessage(Some(m)) && PickAttachment(m) == FileImage(f)
    requires !ScreenshotUpload(f).Loaded?
    ensures ApplyShare(s, Some(m)).state.screenshot == s.screenshot
    ensures ApplyShare(s, Some(m)).notice in {ImageReceived, ImageAndTextReceived}
    ensures ApplyShare(s, Some(m)).upload == Some(ScreenshotUpload(f))
  {
  }

  /** Applying the same message twice is the same as applying it once: the
      slots are overwritten with the same values and the notice repeats. */
  lemma {:induction false} ApplyShareIdempotent(s: AppState, msg: Option<Message>)
    ensures ApplyShare(ApplyShare(s, msg).state, msg) == ApplyShare(s, msg)
  {
    if IsShareMessage(msg) {
      var a := PickAttachment(msg.value);
      assert ScreenshotAfter(ScreenshotAfter(s.screenshot, a), a) == ScreenshotAfter(s.screenshot, a);
    }
  }

  // ----- Pending-share pickup over the `shares` object store -----

  /** What checkPendingShareData ends with. */
  datatype PickupResult =
    | Skipped              // no shareId: the store is not opened
    | LoadFailed           // the database could not be opened
    | NotFound             // no record under the id
    | Retired(notice: Notice) // the record was applied, then deleted

  datatype PickupOutcome = PickupOutcome(state: AppState, records: map<string, Message>, result: PickupResult)

  /** Look the id up, apply the record, then delete it. The store is the map
      from record id to record; `opens` says whether the database opens. */
  function Pickup(s: AppState, records: map<string, Message>, opens: bool, shareId: Option<string>): (r: PickupOutcome)
    ensures r.records.Keys <= records.Keys
    ensures forall k :: k in r.records ==> r.records[k] == records[k]
    ensures !r.result.Retired? ==> r.records == records && r.state == s
  {
    if !Truthy(shareId) then PickupOutcome(s, records, Skipped)
    else if !opens then PickupOutcome(s, records, LoadFailed)
    else if shareId.value in records then
      var applied := ApplyShare(s, Some(records[shareId.value]));
      PickupOutcome(applied.state, records - {shareId.value}, Retired(applied.notice))
    else PickupOutcome(s, records, NotFound)
  }

  /** Without a share id nothing happens, whether or not the database would
      open. */
  lemma PickupWithoutIdSkips(s: AppState, records: map<string, Message>, opens: bool, shareId: Option<string>)
    requires !Truthy(shareId)
    ensures Pickup(s, records, opens, shareId) == PickupOutcome(s, records, Skipped)
  {
  }

  /** A found record is applied and then deleted, and only it: a second
      pickup with the same id finds nothing and changes nothing. */
  lemma PickupRetiresOnce(s: AppState, records: map<string, Message>, id: string)
    requires id != "" && id in records
    ensures var first := Pickup(s, records, true, Some(id));
      && first.result == Retired(ApplyShare(s, Some(records[id])).notice)
      && first.state == ApplyShare(s, Some(records[id])).state
      && first.records == records - {id}
      && Pickup(first.state, first.records, true, Some(id)) == PickupOutcome(first.state, first.records, NotFound)
  {
  }

  /** The results of a series of pickups against one store. */
  function PickupAll(s: AppState, records: map<string, Message>, opens: bool, ids: seq<Option<string>>): (r: seq<PickupResult>)
    ensures |r| == |ids|
    decreases |ids|
  {
    if ids == [] then []
    else
      var first := Pickup(s, records, opens, ids[0]);
      [first.result] + PickupAll(first.state, first.records, opens, ids[1..])
  }

  /** A pickup that does not retire a record that was absent from the store. */
  lemma {:induction false} AbsentStaysUnretired(s: AppState, records: map<string, Message>, opens: bool,
                                                ids: seq<Option<string>>, id: string)
    requires id !in records
    ensures forall j :: 0 <= j < |ids| && ids[j] == Some(id) ==> !PickupAll(s, records, opens, ids)[j].Retired?
    decreases |ids|
  {
    if ids != [] {
      var first := Pickup(s, records, opens, ids[0]);
      AbsentStaysUnretired(first.state, first.records, opens, ids[1..], id);
      var rest := PickupAll(first.state, first.records, opens, ids[1..]);
      assert PickupAll(s, records, opens, ids) == [first.result] + rest;
      forall j | 0 <= j < |ids| && ids[j] == Some(id)
        ensures !PickupAll(s, records, opens, ids)[j].Retired?
      {
        if j > 0 {
          assert ids[1..][j - 1] == ids[j];
        }
      }
    }
  }

  /** However pickups are repeated (reloads of the same URL, duplicate
      launches), each share id retires its record at most once. */
  lemma {:induction false} EachRecordRetiredAtMostOnce(s: AppState, records: map<string, Message>, opens: bool,
                                                       ids: seq<Option<string>>, i: nat, j: nat)
    requires i < j < |ids| && ids[i] == ids[j]
    ensures !(PickupAll(s, records, opens, ids)[i].Retired? && PickupAll(s, records, opens, ids)[j].Retired?)
    decreases |ids|
  {
    var first := Pickup(s, records, opens, ids[0]);
    var rest := PickupAll(first.state, first.records, opens, ids[1..]);
    assert PickupAll(s, records, opens, ids) == [first.result] + rest;
    if i == 0 {
      if first.result.Retired? {
        AbsentStaysUnretired(first.state, first.records, opens, ids[1..], ids[0].value);
        assert ids[1..][j - 1] == ids[j];
      }
    } else {
      EachRecordRetiredAtMostOnce(first.state, first.records, opens, ids[1..], i - 1, j - 1);
    }
  }
}
