/** The share pipeline end to end: what the service worker posts
    (service-worker.js) as the page's message handler sees it (app.js). */
module Pipeline {
  import opened Js
  import opened Forms
  import opened Format
  import opened Guards
  import opened Share
  import opened ServiceWorker

  /** A form value read as text: a File in a text field is interpolated as
      the string JavaScript gives any File object. */
  function AsText(v: Option<FormValue>): Option<string> {
    match v
    case None => None
    case Some(TextValue(s)) => Some(s)
    case Some(FileValue(_)) => Some("[object File]")
  }

  /** The posted object as handleShareData reads it. It has no `url` and no
      `serializedFiles`, so both read as missing. */
  function Deliver(m: SwShareMessage): (msg: Message)
    ensures msg.kind == Some(m.kind) && msg.url.None? && msg.serializedFiles.None?
    ensures msg.files == Some(m.files)
  {
    Message(Some(m.kind), AsText(m.title), AsText(m.text), None, Some(m.files), None)
  }

  /** The search parameters of ServiceWorker.ShareWindowUrl (`/?source=share`). */
  const ShareWindowParams: map<string, string> := map["source" := "share"]

  /** Every message the service worker delivers passes the page's type check,
      and its attachment, if any, is the first files entry: never a
      serialized file. */
  lemma DeliveredShareIsAccepted(s: AppState, env: ShareEnv)
    requires HandleShareTarget(env).delivery.Some?
    ensures var m := Deliver(HandleShareTarget(env).delivery.value.message);
      && ApplyShare(s, Some(m)).notice != InvalidContent
      && !PickAttachment(m).SerializedImage?
      && (PickAttachment(m).FileImage? <==> FirstFile(m).Some? && FirstFile(m).value.FileValue?)
  {
  }

  /** The URL slot is always empty on this path, so the text slot holds the
      formatted title and text only. */
  lemma DeliveredTextIgnoresUrl(s: AppState, m: SwShareMessage)
    requires m.kind == ShareTargetType && Truthy(AsText(m.text))
    ensures ApplyShare(s, Some(Deliver(m))).state.jobText == FormatSharedContent(AsText(m.title), None, AsText(m.text))
  {
  }

  /** A text-only share to an open window: the text field becomes exactly the
      shared text and the screenshot slot is untouched. */
  lemma TextShareScenario(s: AppState, window: ClientId)
    ensures var env := ShareEnv(Some([FormEntry("text", TextValue("Senior Engineer role"))]), Some([window]), OpenRejected, false);
      var out := HandleShareTarget(env);
      && out.response == Redirect("/", 303)
      && out.delivery.Some? && out.delivery.value.client == window
      && ApplyShare(s, Some(Deliver(out.delivery.value.message))) ==
         ShareOutcome(AppState("Senior Engineer role", s.screenshot), ContentReceived, None)
  {
    var t := "Senior Engineer role";
    var form := [FormEntry("text", TextValue(t))];
    assert "text" != "title" by { assert "text"[2] != "title"[2]; }
    assert "text" != "files" by { assert "text"[0] != "files"[0]; }
    assert Get(form, "title") == None && Get(form, "text") == Some(TextValue(t));
    assert GetAll(form, "files") == [];
    var m := SwShareMessage(ShareTargetType, None, Some(TextValue(t)), []);
    assert ShareMessageOf(form) == m;
    var msg := Deliver(m);
    assert PickAttachment(msg) == NoAttachment;
    FormatPlainTextExample();
  }

  /** One 2 MB image and no text: the screenshot becomes the image's data URL
      and the text field is untouched. */
  lemma ImageShareScenario(s: AppState, window: ClientId, dataUrl: string)
    ensures var image := SharedFile("image/png", 2000000, Some(dataUrl));
      var env := ShareEnv(Some([FormEntry("files", FileValue(image))]), Some([window]), OpenRejected, false);
      var out := HandleShareTarget(env);
      && out.delivery.Some?
      && ApplyShare(s, Some(Deliver(out.delivery.value.message))) ==
         ShareOutcome(AppState(s.jobText, Some(dataUrl)), ImageReceived, Some(Loaded(dataUrl)))
  {
    assert StartsWith("image/png", "image/");
  }

  /** One 15 MB image: the page's size check refuses it, so the screenshot
      slot keeps its value, yet the submission is still redirected and the
      page still announces an image. The service worker itself applies no
      size ceiling. */
  lemma OversizedImageScenario(s: AppState, window: ClientId, dataUrl: string)
    ensures var image := SharedFile("image/jpeg", 15 * 1024 * 1024, Some(dataUrl));
      var env := ShareEnv(Some([FormEntry("files", FileValue(image))]), Some([window]), OpenRejected, false);
      var out := HandleShareTarget(env);
      && out.response == Redirect("/", 303)
      && out.delivery.Some? && out.delivery.value.message.files == [FileValue(image)]
      && ApplyShare(s, Some(Deliver(out.delivery.value.message))) ==
         ShareOutcome(s, ImageReceived, Some(TooLarge))
  {
    assert StartsWith("image/jpeg", "image/");
  }

  /** Cold start: with no window open, the service worker writes nothing to
      the store and opens `/?source=share` without a shareId, so the page
      that loads there checks for a pending share, finds no id, and leaves
      the store alone. */
  lemma ColdStartSkipsStore(env: ShareEnv, s: AppState, records: map<string, Message>, opens: bool)
    requires env.form.Some? && env.windows == Some([])
    ensures HandleShareTarget(env).openedUrl == Some(ShareWindowUrl)
    ensures "source" in ShareWindowParams && ShareWindowParams["source"] == "share"
    ensures var shareId := if "shareId" in ShareWindowParams then Some(ShareWindowParams["shareId"]) else None;
      Pickup(s, records, opens, shareId) == PickupOutcome(s, records, Skipped)
  {
  }
}
