/** The two input guards of the page (app.js): the screenshot upload check
    and the preconditions of the generate button. */
module Guards {
  import opened Js
  import opened Forms

  /** The largest screenshot the page accepts: 10 MiB. */
  const MaxScreenshotBytes: nat := 10 * 1024 * 1024

  /** What handleScreenshotUpload does with a file. */
  datatype UploadResult = NotAnImage | TooLarge | ReadFailed | Loaded(dataUrl: string)

  /** The toast each outcome shows. */
  function UploadNotice(r: UploadResult): string {
    match r
    case NotAnImage => "Please upload an image file"
    case TooLarge => "Image size must be less than 10MB"
    case ReadFailed => "Failed to read image file"
    case Loaded(_) => "Screenshot uploaded successfully"
  }

  /** The MIME type is checked first, then the size; only a file that passes
      both is read, and what the reader yields becomes the screenshot. */
  function ScreenshotUpload(f: SharedFile): (r: UploadResult)
    ensures r == NotAnImage <==> !StartsWith(f.mimeType, "image/")
    ensures r == TooLarge <==> StartsWith(f.mimeType, "image/") && f.size > MaxScreenshotBytes
    ensures r.Loaded? <==> StartsWith(f.mimeType, "image/") && f.size <= MaxScreenshotBytes && f.dataUrl.Some?
    ensures r.Loaded? ==> r.dataUrl == f.dataUrl.value
  {
    if !StartsWith(f.mimeType, "image/") then NotAnImage
    else if f.size > MaxScreenshotBytes then TooLarge
    else if f.dataUrl.None? then ReadFailed
    else Loaded(f.dataUrl.value)
  }

  /** The ceiling is inclusive: an image of exactly 10 MiB is read, one byte
      more is refused, whatever its contents. */
  lemma UploadCeilingIsInclusive(mimeType: string, dataUrl: string)
    requires StartsWith(mimeType, "image/")
    ensures ScreenshotUpload(SharedFile(mimeType, 10485760, Some(dataUrl))) == Loaded(dataUrl)
    ensures ScreenshotUpload(SharedFile(mimeType, 10485761, Some(dataUrl))) == TooLarge
  {
  }

  /** What the generate button does before any remote call. */
  datatype GenerateDecision =
    | MissingApiKey
    | MissingJobPost
    | Generate(apiKey: string, jobPost: string, extractFromImage: bool)

  function GenerateNotice(d: GenerateDecision): Option<string> {
    match d
    case MissingApiKey => Some("Please enter your Groq API key")
    case MissingJobPost => Some("Please paste a job post or upload a screenshot")
    case Generate(_, _, _) => None
  }

  /** Both fields are trimmed; an API key is required, and then a job post or
      a screenshot. Text is extracted from the screenshot only when the job
      post is empty. */
  function GenerateCheck(apiKeyField: string, jobPostField: string, screenshot: Option<string>): (r: GenerateDecision)
    ensures r == MissingApiKey <==> Trim(apiKeyField) == ""
    ensures r.Generate? <==> Trim(apiKeyField) != "" && (Trim(jobPostField) != "" || Truthy(screenshot))
    ensures r.Generate? ==> r.apiKey == Trim(apiKeyField) && r.jobPost == Trim(jobPostField)
    ensures r.Generate? ==> (r.extractFromImage <==> Trim(jobPostField) == "")
  {
    var apiKey := Trim(apiKeyField);
    var jobPost := Trim(jobPostField);
    if apiKey == "" then MissingApiKey
    else if jobPost == "" && !Truthy(screenshot) then MissingJobPost
    else Generate(apiKey, jobPost, Truthy(screenshot) && jobPost == "")
  }

  /** Image text extraction only ever runs on a screenshot that is there,
      and a typed job post always takes precedence over it. */
  lemma ExtractionNeedsScreenshot(apiKeyField: string, jobPostField: string, screenshot: Option<string>)
    ensures var d := GenerateCheck(apiKeyField, jobPostField, screenshot);
      d.Generate? && d.extractFromImage ==> Truthy(screenshot) && d.jobPost == ""
    ensures var d := GenerateCheck(apiKeyField, jobPostField, screenshot);
      d.Generate? && Trim(jobPostField) != "" ==> !d.extractFromImage
  {
  }
}
