# Share ingestion of the job-email page, modelled in Dafny

The app is a browser page plus a service worker. The page turns a job post into a draft email. This model covers how shared content gets in:

- the service worker intercepts an operating-system "share to app" POST and posts the shared form to a page window;
- the page merges the shared content into its two slots: the job-post text field and the uploaded screenshot;
- the page can pick up a pending share from its IndexedDB `shares` store when launched with a `shareId`.

It also covers the small deterministic rules around that path: the shared-content formatter, the bounded debug log, the screenshot upload guard, the generate-button preconditions, and the service worker's network-first cache and activate-time cleanup.

Modules, one per file:

- `Js`: JavaScript optional values, string truthiness, and `trim`, `startsWith` and `includes`. The trimmed characters are ECMAScript WhiteSpace and LineTerminator.
- `Forms`: File objects, form values, and `FormData.get`/`getAll` over an ordered list of entries.
- `Format`: `formatSharedContent`.
- `Guards`: the screenshot upload guard and the generate preconditions.
- `DebugLog`: the push-then-shift log of 20 entries.
- `Share`: the merge done by `handleShareData`, written as a function `(state, message) -> (state', notice)`, and the pending-share pickup over a map `id -> record`.
- `Page`: the imperative page. Class `Page` holds `jobText`, `screenshot` and `logs` and has the handlers. Class `ShareStore` is the object store. Each handler's contract ties the new state to the functions in `Share`, `Guards` and `DebugLog`.
- `ServiceWorker`: request routing, and the share-target branch as a function of what the browser does at each step (form parsing, client lookup, window opening, posting).
- `SwCache`: class `CacheStorage`, Cache Storage as an ordered list of named caches, with the network-first fetch and the activate loop.
- `Pipeline`: end-to-end facts, where what the service worker posts is read by the page.

The model follows the code as written:

- The share path is matched exactly (`pathname === '/share-target'`), not by suffix.
- The service worker never writes to IndexedDB. It creates no `shareId`, encodes no files and applies no size ceiling. It opens `/?source=share` without a `shareId`, so a cold start never reads the store (`Pipeline.ColdStartSkipsStore`).
- The posted message is `{type, title, text, files}`. It has no `url` and no `serializedFiles`, so on this path the page only ever sees File attachments, and only the page's 10 MiB check applies.
- A File that the page's upload guard refuses still counts as a handled image: the screenshot slot keeps its old value, yet the notice says an image was received (`Share.RefusedFileStillReportsImage`, `Pipeline.OversizedImageScenario`).

## Model

| member | source | states |
|---|---|---|
| `Js.Trim` | app.js:101 | the trimmed string neither starts nor ends with a white-space or line-terminator character |
| `Js.TrimIsMiddle` | app.js:101 | trim removes only a white-space prefix and a white-space suffix, and keeps the middle of the string unchanged |
| `Js.TrimAppendWhiteSpace` | app.js:101 | appending white space to a string does not change its trim |
| `Js.PrefixSurvivesTrim` | app.js:101 | a prefix that starts and ends with non-white-space characters survives trim whole |
| `Forms.Get` | service-worker.js:30-31 | `get` is null exactly when no entry has the name, and otherwise returns a value of an entry with that name |
| `Forms.GetAll` | service-worker.js:33 | `getAll` returns only values of entries with that name |
| `Forms.GetIsFirstOfGetAll` | service-worker.js:30-33 | `get` returns the first value that `getAll` returns |
| `Forms.GetAllAppend` | service-worker.js:33 | `getAll` keeps form order across any split of the form |
| `Forms.GetAllKeepsEvery` | service-worker.js:33 | `getAll` drops no entry with the name |
| `Format.FormatSharedContent` | app.js:90-102 | the result is trimmed: it neither starts nor ends with white space |
| `Format.FormatIsJoinedSections` | app.js:91-101 | the result is the trimmed join, with blank lines between, of `Title: …` (only when the title is truthy and differs from the text), then `URL: …` (only when a URL is present), then the text |
| `Format.UntrimmedIsJoin` | app.js:91-100 | before trimming, the content is that join, followed by one trailing blank line exactly when the text is falsy and some section (title or URL) is present, and by nothing otherwise |
| `Format.FormatTextOnly` | app.js:92-101 | with no URL, and a title that is absent or equal to the text, the result is the trimmed text, or empty when there is no text |
| `Format.FormatPlainTextExample` | app.js:90-102 | the text "Senior Engineer role" alone formats to itself |
| `Format.FormatTitleFirst` | app.js:98-99 | a shown title heads the result as `Title:`; a title that does not end in white space heads it whole as `Title: <title>` |
| `Format.FormatUrlFirst` | app.js:92-94 | without a shown title, a URL heads the result as `URL:`, and whole when it does not end in white space |
| `Guards.ScreenshotUpload` | app.js:457-481 | a file that is not `image/*` is refused first; an image over 10 MiB is refused next; an image that passes both becomes the screenshot with exactly the data URL the reader yields, unless the reader fails |
| `Guards.UploadCeilingIsInclusive` | app.js:464 | an image of exactly 10485760 bytes is accepted and one of 10485761 bytes is refused |
| `Guards.GenerateCheck` | app.js:599-625 | a blank trimmed API key is refused first; a request goes ahead exactly when a key is present and either a trimmed job post or a screenshot is present; text is extracted from the image exactly when the trimmed job post is empty |
| `Guards.ExtractionNeedsScreenshot` | app.js:610-625 | image extraction only runs when a screenshot is present and the job post is empty; a typed job post always wins |
| `DebugLog.Recent` | app.js:59-60 | keeps at most the 20 most recent entries |
| `DebugLog.Append` | app.js:56-60 | from a log of at most 20 entries, push-then-shift yields at most 20 entries: the most recent ones in arrival order |
| `DebugLog.AppendAllKeepsRecent` | app.js:53-60 | after any sequence of debugLog calls the log holds at most 20 entries: the last 20 of everything logged, in order |
| `DebugLog.RecentOfRecent` | app.js:59-60 | dropping old entries early does not change which entries are the most recent later |
| `Share.PickAttachment` | app.js:216-233 | only the first serialized file and the first File are looked at; a serialized file with a truthy `dataUrl` wins; otherwise the first File is taken exactly when it is blob-like |
| `Share.ApplyShare` | app.js:207-259 | a missing message, or one whose type is not `share-target`, gives "Invalid shared content" and changes no slot; "No content to share" also changes no slot |
| `Share.InvalidShareChangesNothing` | app.js:208-212 | a refused message leaves text and screenshot as they were, and no upload is attempted |
| `Share.TextSlotIffTextOrUrl` | app.js:235-241 | the text slot becomes `formatSharedContent(title, url, text)` exactly when text or URL is truthy, and otherwise keeps its value; attachments do not affect it |
| `Share.SerializedFileWins` | app.js:222-227 | a first serialized file with a data URL sets the screenshot to exactly that data URL (app.js:499), and no File is uploaded |
| `Share.ScreenshotSlot` | app.js:216-233 | for every valid message the screenshot slot keeps its value when no attachment is picked, becomes the serialized data URL (app.js:499) or the loaded File's data URL (app.js:472), and keeps its value when the upload guard refuses the File |
| `Share.OnlyFirstAttachmentMatters` | app.js:217-218 | two messages that agree on title, text, URL and both first attachments have the same outcome |
| `Share.NoticeNamesWhatWasShared` | app.js:243-258 | "No content to share" exactly when no image was handled and there is no text or URL; otherwise "image and text", "content" or "image" according to what was filled |
| `Share.RefusedFileStillReportsImage` | app.js:229-233 | a File refused by the upload guard keeps the old screenshot but is still announced as a received image |
| `Share.ApplyShareIdempotent` | app.js:238-240 | applying the same message twice gives the same slots and notice as applying it once |
| `Share.Pickup` | app.js:140-165 | the store only loses records and no record is changed; unless a record is retired, neither the store nor the slots change |
| `Share.PickupWithoutIdSkips` | app.js:141-144 | with no truthy shareId, nothing is opened or changed, whether or not the database would open |
| `Share.PickupRetiresOnce` | app.js:147-156 | a found record is applied, then deleted, and only that record; a second pickup with the same id finds nothing and changes nothing |
| `Share.PickupAll` | app.js:140-165 | a series of pickups gives one result per pickup |
| `Share.AbsentStaysUnretired` | app.js:150-158 | an id with no record is never retired by later pickups |
| `Share.EachRecordRetiredAtMostOnce` | app.js:150-156 | across any series of pickups, no two pickups with the same id both retire a record |
| `Page.ShareStore.Get` | app.js:184-193 | the lookup finds a record exactly when one is stored under the id, and returns that record |
| `Page.ShareStore.Delete` | app.js:195-204 | delete removes the record under the id and nothing else; it is a no-op when the record is absent |
| `Page.Page.constructor` | app.js:40-47 | the page starts with an empty log, no screenshot and an empty text field |
| `Page.Page.DebugLog` | app.js:53-66 | pushes `[timestamp] message`, shifts the oldest entry out past 20, keeps the log at most 20 long, and raises a toast exactly when the message includes `share-target` or `Shared` |
| `Page.Page.HandleScreenshotUpload` | app.js:457-486 | the screenshot changes only when the guard loads the file, and then to the reader's data URL; the toast is the one the source shows for that outcome |
| `Page.Page.HandleSharedImageData` | app.js:488-499 | a serialized file with a truthy data URL becomes the screenshot; one without is refused and changes nothing |
| `Page.Page.HandleShareData` | app.js:207-259 | the new slots, the notice and the upload outcome are those of `Share.ApplyShare` on the old slots, and the toast is the source's text for the notice |
| `Page.Page.OnMessage` | app.js:271-287 | a missing message or one of another type is dropped with no notice and no change; any other message is handled as handleShareData does |
| `Page.Page.CheckPendingShareData` | app.js:140-165 | the new slots, store and result are those of `Share.Pickup`; without a shareId neither the page nor the store changes |
| `Page.Page.OnLoad` | app.js:128-136 | a pending share is looked for exactly when `source=share`, under the `shareId` parameter; otherwise nothing changes |
| `Page.Page.CheckGenerate` | app.js:598-625 | decides as `Guards.GenerateCheck` on the page's job-post field and screenshot, and shows the source's validation toast when it refuses |
| `ServiceWorker.RouteOf` | service-worker.js:26 | the share branch is taken exactly for a POST whose pathname is `/share-target` |
| `ServiceWorker.RouteIsExactMatch` | service-worker.js:26 | the share path under a sub-path, or a GET of it, goes to the network-first branch |
| `ServiceWorker.ShareMessageOf` | service-worker.js:30-33 | the message's type is `share-target`, title and text are the form values unchanged, and every `files` entry is kept |
| `ServiceWorker.HandleShareTarget` | service-worker.js:27-55 | the answer is always a 303 redirect to `/`; a delivered message is the one built from the parsed form, and only when posting did not throw |
| `ServiceWorker.FirstOpenWindowReceives` | service-worker.js:36-45 | when a window is open, the first one gets the message and no window is opened |
| `ServiceWorker.NoWindowOpensOne` | service-worker.js:37-45 | when no window is open, one is opened at `/?source=share`; a message is posted exactly when that window is non-null and posting does not throw, and to that window |
| `ServiceWorker.FailuresStillRedirect` | service-worker.js:28-51 | a failed form parse, a failed client lookup, a null or failed open, or a throwing post loses the content but still redirects |
| `ServiceWorker.MessageFilesInFormOrder` | service-worker.js:33 | the message's files follow form order: entries added after others come after them |
| `SwCache.Names` | service-worker.js:82 | lists cache names in creation order, one per cache |
| `SwCache.MatchIn` | service-worker.js:73-75 | the fallback finds nothing exactly when no cache holds the URL; otherwise it returns the entry of the first cache, in creation order, that holds the URL |
| `SwCache.PutInKeepsOthers` | service-worker.js:67-69 | writing to the current cache leaves every other cache as it was |
| `SwCache.PutThenMatch` | service-worker.js:67-75 | once only the current cache exists, a 200 response written for a URL is what the fallback later returns for it |
| `SwCache.Without` | service-worker.js:85-86 | deleting caches keeps only caches that were there and whose names are not deleted |
| `SwCache.WithoutKeepsOthers` | service-worker.js:85-86 | deleting caches keeps every cache whose name is not deleted |
| `SwCache.WithoutTwice` | service-worker.js:83-89 | deleting names one at a time deletes their union |
| `SwCache.WithoutStaleIsNamed` | service-worker.js:83-89 | deleting every name other than `CACHE_NAME` leaves exactly the caches called `CACHE_NAME` |
| `SwCache.WithoutUnique` | service-worker.js:85-86 | deleting caches keeps cache names distinct |
| `SwCache.NamedKeepsCurrentOnly` | service-worker.js:83-89 | after cleanup only caches called `CACHE_NAME` remain; with distinct names, the current cache remains alone and unchanged, and nothing remains if there was none |
| `SwCache.PutInAt` | service-worker.js:67-69 | open-then-put updates the first cache with the name, or adds the new cache at the end |
| `SwCache.CacheStorage.constructor` | service-worker.js:82-87 | the browser's Cache Storage, which the worker reads through `caches.keys`, `caches.open`, `caches.match` and `caches.delete`, starts as the given list of caches with distinct names |
| `SwCache.CacheStorage.Match` | service-worker.js:74 | the loop over caches, oldest first, returns what `MatchIn` specifies: the entry of the first cache that holds the URL |
| `SwCache.CacheStorage.Put` | service-worker.js:67-69 | opens or creates the named cache, writes the response under the URL, and keeps cache names distinct |
| `SwCache.CacheStorage.Delete` | service-worker.js:85-86 | removes the named cache, keeps every other cache, and reports whether it existed |
| `SwCache.CacheStorage.HandleFetch` | service-worker.js:58-76 | a network response is returned as is and written to `CACHE_NAME` exactly when its status is 200; any other response leaves the caches unchanged; on network failure the answer is the cached entry for the URL, if any |
| `SwCache.CacheStorage.OnFetch` | service-worker.js:22-58 | a share submission gets the share branch's answer and leaves the caches alone; any other request is answered with the network's response, which is cached exactly when its status is 200, or when the network fails, with the cached entry for its URL |
| `SwCache.CacheStorage.Activate` | service-worker.js:80-96 | every cache whose name differs from `CACHE_NAME` is deleted, and the current cache is kept with its entries |
| `Pipeline.Deliver` | service-worker.js:44 | the page sees the posted type, no URL, no serialized files, and the posted files unchanged |
| `Pipeline.DeliveredShareIsAccepted` | app.js:207-233 | every message the service worker delivers passes the page's type check, and its attachment is never a serialized file |
| `Pipeline.DeliveredTextIgnoresUrl` | app.js:238-239 | on this path the text slot is formatted from title and text alone |
| `Pipeline.TextShareScenario` | service-worker.js:27-55 | sharing only "Senior Engineer role" to an open window sets the text field to exactly that text and leaves the screenshot alone |
| `Pipeline.ImageShareScenario` | app.js:229-233 | sharing one 2 MB image with no text sets the screenshot to its data URL and leaves the text field alone |
| `Pipeline.OversizedImageScenario` | app.js:464-467 | a 15 MB image reaches the page, is refused there, and leaves the screenshot alone; the submission is still redirected |
| `Pipeline.ColdStartSkipsStore` | app.js:128-144 | with no window open, the opened URL `/?source=share` has no shareId, so the page's pending-share check changes nothing |

## Left out

- The remote LLM calls (`extractTextFromImage`, `callGroqAPI`, `extractJobInfo`, `generateEmail`): network I/O whose parsing works on opaque model output. The generate button is modelled only up to the decision to call them.
- PDF text extraction through pdf.js and loading that script: foreign library calls.
- FileReader and data-URL encoding: a file's data URL, or the reader's failure, is part of the modelled file value. The reader finishes asynchronously in the source; the model applies its result at once. The catch branch of `handleScreenshotUpload` (app.js:482-485), taken when `readAsDataURL` itself throws and showing 'Failed to upload screenshot', has no outcome in the model: a real Blob never makes the call throw.
- Toasts, the modal, preview images, drag-and-drop, paste, the triple-tap debug panel and their timers: UI glue. Notices are returned as values, and the debug log's toast is a returned flag.
- The debug messages the share handlers write: only the log buffer and `debugLog` itself are modelled.
- `localStorage` settings, the user-agent check `isMobileDevice`, `launchQueue`, and opening and upgrading the IndexedDB database: browser APIs with no logic here. The store is a map plus a flag saying whether the database opens.
- Page.Page.CheckPendingShareData: a get or delete request that fails after the database has opened is not modelled; only a failure to open is.
- The mailto link builder (`encodeURIComponent`): a library call.
- Service-worker install (`cache.addAll`) and `clients.claim()`: environment calls with no decision in them. Cache Storage is an ordered list of named caches keyed by request URL. The Cache API's own rules, such as refusing to store non-GET requests, are not modelled.
- In the source, the write to the cache happens asynchronously after the response has been returned, and the activate deletions run concurrently. The model runs them in sequence.
- Pipeline.Deliver: a File sent in the title or text field is read as the string "[object File]". Two such values therefore compare equal in the model, while in JavaScript they are distinct objects.
- Pipeline.ColdStartSkipsStore: the search parameters of `/?source=share` are written out as a map rather than parsed by URLSearchParams.
- A payload serializer, `shareId` generation, store writes by the service worker, and an expiry sweep: none of these exist in the source.
