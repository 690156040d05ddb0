/** The service worker's fetch handler (service-worker.js): which requests
    take the Web Share Target branch, and what that branch does with a share
    submission. Window clients are identified by number. */
module ServiceWorker {
  import opened Js
  import opened Forms

  const ShareTargetPath := "/share-target"
  /** The URL a new window is opened at when no window is open. */
  const ShareWindowUrl := "/?source=share"

  /** A fetch event's request: its method (`verb`), URL and pathname. */
  datatype Request = Request(verb: string, url: string, pathname: string)

  datatype Route = ShareTargetRoute | NetworkFirstRoute

  /** Only a POST whose pathname is exactly `/share-target` is a share
      submission; everything else goes to the network-first branch. */
  function RouteOf(req: Request): (r: Route)
    ensures r == ShareTargetRoute <==> req.verb == "POST" && req.pathname == ShareTargetPath
  {
    if req.verb == "POST" && req.pathname == ShareTargetPath then ShareTargetRoute else NetworkFirstRoute
  }

  /** The path is compared whole: an app hosted under a sub-path, or a GET
      of the share path, is not routed to the share branch. */
  lemma RouteIsExactMatch(url: string)
    ensures RouteOf(Request("POST", url, "/app/share-target")) == NetworkFirstRoute
    ensures RouteOf(Request("GET", url, ShareTargetPath)) == NetworkFirstRoute
    ensures RouteOf(Request("POST", url, ShareTargetPath)) == ShareTargetRoute
  {
  }

  type ClientId = nat

  /** `{type: 'share-target', title, text, files}` as posted to a window. */
  datatype SwShareMessage = SwShareMessage(kind: string, title: Option<FormValue>, text: Option<FormValue>, files: seq<FormValue>)

  /** What clients.openWindow settles with. */
  datatype OpenOutcome = Opened(client: ClientId) | OpenedNull | OpenRejected

  /** What the browser does at each step of the share branch: the parsed
      form (`None` when formData() rejects), the open window clients (`None`
      when matchAll rejects), the outcome of openWindow, and whether
      postMessage throws. */
  datatype ShareEnv = ShareEnv(form: Option<seq<FormEntry>>, windows: Option<seq<ClientId>>, open: OpenOutcome, postThrows: bool)

  datatype Redirect = Redirect(location: string, status: int)

  datatype Delivery = Delivery(client: ClientId, message: SwShareMessage)

  /** The observable effects of the share branch: the URL of a window it
      asked to open, the message it delivered, and its response. */
  datatype ShareTargetOutcome = ShareTargetOutcome(openedUrl: Option<string>, delivery: Option<Delivery>, response: Redirect)

  /** The message built from the form, its values passed through unchanged. */
  function ShareMessageOf(form: seq<FormEntry>): (m: SwShareMessage)
    ensures m.kind == "share-target"
    ensures m.title == Get(form, "title") && m.text == Get(form, "text")
    ensures forall i :: 0 <= i < |form| && form[i].name == "files" ==> form[i].value in m.files
  {
    var m := SwShareMessage("share-target", Get(form, "title"), Get(form, "text"), GetAll(form, "files"));
    forall i | 0 <= i < |form| && form[i].name == "files" ensures form[i].value in m.files {
      GetAllKeepsEvery(form, "files", i);
    }
    m
  }

  /** The share branch: read the form, post the message to the first open
      window or to a newly opened one, and redirect whatever went wrong. */
  function HandleShareTarget(env: ShareEnv): (r: ShareTargetOutcome)
    ensures r.response == Redirect("/", 303)
    ensures r.delivery.Some? ==> env.form.Some? && r.delivery.value.message == ShareMessageOf(env.form.value) && !env.postThrows
  {
    var done := Redirect("/", 303);
    if env.form.None? || env.windows.None? then ShareTargetOutcome(None, None, done)
    else
      var message := ShareMessageOf(env.form.value);
      var client :=
        if |env.windows.value| > 0 then Some(env.windows.value[0])
        else if env.open.Opened? then Some(env.open.client)
        else None;
      var openedUrl := if |env.windows.value| > 0 then None else Some(ShareWindowUrl);
      var delivery := if client.Some? && !env.postThrows then Some(Delivery(client.value, message)) else None;
      ShareTargetOutcome(openedUrl, delivery, done)
  }

  /** With a window open, the first one receives the message and no window
      is opened. */
  lemma FirstOpenWindowReceives(env: ShareEnv)
    requires env.form.Some? && env.windows.Some? && |env.windows.value| > 0 && !env.postThrows
    ensures HandleShareTarget(env).openedUrl.None?
    ensures HandleShareTarget(env).delivery == Some(Delivery(env.windows.value[0], ShareMessageOf(env.form.value)))
  {
  }

  /** With no window open, one is opened at `/?source=share`, and the message
      is posted only when the opened window is not null. */
  lemma NoWindowOpensOne(env: ShareEnv)
    requires env.form.Some? && env.windows == Some([])
    ensures HandleShareTarget(env).openedUrl == Some(ShareWindowUrl)
    ensures HandleShareTarget(env).delivery.Some? <==> env.open.Opened? && !env.postThrows
    ensures HandleShareTarget(env).delivery.Some? ==> HandleShareTarget(env).delivery.value.client == env.open.client
  {
  }

  /** A failure at any step loses the content but not the redirect. */
  lemma FailuresStillRedirect(env: ShareEnv)
    requires env.form.None? || env.windows.None? || env.postThrows || (env.windows == Some([]) && !env.open.Opened?)
    ensures HandleShareTarget(env).delivery.None?
    ensures HandleShareTarget(env).response == Redirect("/", 303)
  {
  }

  /** The files entries reach the message in form order: files added after
      the form's other entries come last. */
  lemma MessageFilesInFormOrder(form: seq<FormEntry>, more: seq<FormEntry>)
    ensures ShareMessageOf(form + more).files == ShareMessageOf(form).files + GetAll(more, "files")
  {
    GetAllAppend(form, more, "files");
  }
}
