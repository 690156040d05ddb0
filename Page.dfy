/** The page's mutable state (app.js): the module-level `debugLogs` array,
    `uploadedScreenshot`, the job-post field, and the IndexedDB `shares`
    object store, with the handlers that update them in place. */
module Page {
  import opened Js
  import opened Forms
  import opened Format
  import opened Guards
  import opened DebugLog
  import opened Share

  /** The `shares` object store of ShareTargetDB, keyed by record `id`;
      `opens` says whether indexedDB.open succeeds. */
  class ShareStore {
    var records: map<string, Message>
    const opens: bool

    constructor (records: map<string, Message>, opens: bool)
      ensures this.records == records && this.opens == opens
    {
      this.records := records;
      this.opens := opens;
    }

    /** getShareData: a point lookup. */
    method Get(id: string) returns (r: Option<Message>)
      ensures r.Some? <==> id in records
      ensures r.Some? ==> r.value == records[id]
    {
      r := if id in records then Some(records[id]) else None;
    }

    /** deleteShareData: removes the record; nothing happens when it is absent. */
    method Delete(id: string)
      modifies this`records
      ensures records == old(records) - {id}
    {
      records := records - {id};
    }
  }

  class Page {
    var jobText: string
    var screenshot: Option<string>
    var logs: seq<string>

    ghost predicate Valid()
      reads this
    {
      |logs| <= MaxEntries
    }

    /** The two slots shared content fills. */
    function State(): AppState
      reads this
    {
      AppState(jobText, screenshot)
    }

    constructor ()
      ensures Valid() && State() == AppState("", None) && logs == []
    {
      jobText := "";
      screenshot := None;
      logs := [];
    }

    /** debugLog: push the stamped entry, shift the oldest out past 20, and
        say whether the message also raises a toast. */
    method DebugLog(timestamp: string, message: string) returns (toast: bool)
      requires Valid()
      modifies this`logs
      ensures Valid()
      ensures logs == Recent(old(logs) + [LogEntry(timestamp, message)])
      ensures toast == ShowsToast(message)
    {
      logs := logs + [LogEntry(timestamp, message)];
      if |logs| > MaxEntries {
        logs := logs[1..];
      }
      toast := ShowsToast(message);
    }

    /** handleScreenshotUpload: the type and size guards, then the reader. */
    method HandleScreenshotUpload(f: SharedFile) returns (r: UploadResult, toast: string)
      modifies this`screenshot
      ensures r == ScreenshotUpload(f) && toast == UploadNotice(r)
      ensures screenshot == if r.Loaded? then Some(r.dataUrl) else old(screenshot)
    {
      r := ScreenshotUpload(f);
      if r.Loaded? {
        screenshot := Some(r.dataUrl);
      }
      toast := UploadNotice(r);
    }

    /** handleSharedImageData: a serialized file with a data URL becomes the
        screenshot; one without is refused. */
    method HandleSharedImageData(file: SerializedFile) returns (ok: bool)
      modifies this`screenshot
      ensures ok == Truthy(file.dataUrl)
      ensures screenshot == if ok then file.dataUrl else old(screenshot)
    {
      if !Truthy(file.dataUrl) {
        return false;
      }
      screenshot := file.dataUrl;
      ok := true;
    }

    /** handleShareData, statement by statement. */
    method HandleShareData(msg: Option<Message>) returns (notice: Notice, upload: Option<UploadResult>, toast: string)
      modifies this`jobText, this`screenshot
      ensures ShareOutcome(State(), notice, upload) == ApplyShare(old(State()), msg)
      ensures toast == NoticeText(notice)
    {
      if msg.None? || msg.value.kind != Some(ShareTargetType) {
        return InvalidContent, None, NoticeText(InvalidContent);
      }
      var data := msg.value;
      ghost var before := State();
      ghost var a := PickAttachment(data);
      var firstSerialized := if data.serializedFiles.Some? && |data.serializedFiles.value| > 0
        then Some(data.serializedFiles.value[0]) else None;
      var firstFile := if data.files.Some? && |data.files.value| > 0 then Some(data.files.value[0]) else None;
      var imageHandled := false;
      upload := None;
      if firstSerialized.Some? && Truthy(firstSerialized.value.dataUrl) {
        var _ := HandleSharedImageData(firstSerialized.value);
        imageHandled := true;
      } else if firstFile.Some? && firstFile.value.FileValue? {
        var u, _ := HandleScreenshotUpload(firstFile.value.file);
        upload := Some(u);
        imageHandled := true;
      }
      assert imageHandled == !a.NoAttachment?;
      assert screenshot == ScreenshotAfter(before.screenshot, a);
      assert upload == if a.FileImage? then Some(ScreenshotUpload(a.file)) else None;
      var hasText := Truthy(data.text) || Truthy(data.url);
      if hasText {
        jobText := Format.FormatSharedContent(data.title, data.url, data.text);
        notice := if imageHandled then ImageAndTextReceived else ContentReceived;
      } else if imageHandled {
        notice := ImageReceived;
      } else {
        notice := NoContent;
      }
      assert notice == ShareNotice(imageHandled, HasText(data));
      toast := NoticeText(notice);
    }

    /** The service-worker message listener: a missing message or one of
        another type is dropped silently, before handleShareData sees it. */
    method OnMessage(data: Option<Message>) returns (notice: Option<Notice>)
      modifies this`jobText, this`screenshot
      ensures notice.None? <==> !IsShareMessage(data)
      ensures notice.None? ==> unchanged(this)
      ensures notice.Some? ==> State() == ApplyShare(old(State()), data).state && notice.value == ApplyShare(old(State()), data).notice
    {
      if data.None? {
        return None;
      }
      if data.value.kind != Some(ShareTargetType) {
        return None;
      }
      var n, _, _ := HandleShareData(data);
      notice := Some(n);
    }

    /** checkPendingShareData: look the id up, apply the record, then delete
        it. Without an id the store is not touched at all. */
    method CheckPendingShareData(shareId: Option<string>, db: ShareStore) returns (result: PickupResult)
      modifies this`jobText, this`screenshot, db`records
      ensures var p := Pickup(old(State()), old(db.records), db.opens, shareId);
        State() == p.state && db.records == p.records && result == p.result
      ensures !Truthy(shareId) ==> unchanged(db) && unchanged(this)
    {
      if !Truthy(shareId) {
        return Skipped;
      }
      if !db.opens {
        return LoadFailed;
      }
      var id := shareId.value;
      var shareData := db.Get(id);
      if shareData.Some? {
        var notice, _, _ := HandleShareData(shareData);
        db.Delete(id);
        result := Retired(notice);
      } else {
        result := NotFound;
      }
    }

    /** The DOMContentLoaded share check: only a launch with `source=share`
        looks for a pending share, under its `shareId` parameter. */
    method OnLoad(params: map<string, string>, db: ShareStore) returns (result: Option<PickupResult>)
      modifies this`jobText, this`screenshot, db`records
      ensures result.None? <==> !("source" in params && params["source"] == "share")
      ensures result.None? ==> unchanged(db) && unchanged(this)
      ensures result.Some? ==>
        var p := Pickup(old(State()), old(db.records), db.opens, if "shareId" in params then Some(params["shareId"]) else None);
        State() == p.state && db.records == p.records && result.value == p.result
    {
      if "source" in params && params["source"] == "share" {
        var shareId := if "shareId" in params then Some(params["shareId"]) else None;
        var r := CheckPendingShareData(shareId, db);
        result := Some(r);
      } else {
        result := None;
      }
    }

    /** The generate button's checks on the API key field and the job post
        field, before any remote call. */
    method CheckGenerate(apiKeyField: string) returns (d: GenerateDecision, toast: Option<string>)
      ensures d == GenerateCheck(apiKeyField, jobText, screenshot) && toast == GenerateNotice(d)
    {
      d := GenerateCheck(apiKeyField, jobText, screenshot);
      toast := GenerateNotice(d);
    }
  }
}
