/** formatSharedContent (app.js): the text the page puts in the job-post
    field for shared content. */
module Format {
  import opened Js

  /** The title is shown when it is truthy and differs (`!==`) from the text. */
  predicate TitleShown(title: Option<string>, text: Option<string>) {
    Truthy(title) && title != text
  }

  /** Builds `URL: <url>` and the text, puts `Title: <title>` in front of
      them, and trims the whole. */
  function FormatSharedContent(title: Option<string>, url: Option<string>, text: Option<string>): (r: string)
    ensures r == [] || (!IsWhiteSpace(r[0]) && !IsWhiteSpace(r[|r| - 1]))
  {
    Trim(UntrimmedContent(title, url, text))
  }

  /** The content string formatSharedContent builds before trimming it. */
  function UntrimmedContent(title: Option<string>, url: Option<string>, text: Option<string>): string {
    var withUrl := if Truthy(url) then "URL: " + url.value + "\n\n" else "";
    var withText := if Truthy(text) then withUrl + text.value else withUrl;
    if TitleShown(title, text) then "Title: " + title.value + "\n\n" + withText else withText
  }

  /** The sections of the shared content, in the order they appear. */
  function Sections(title: Option<string>, url: Option<string>, text: Option<string>): seq<string> {
    (if TitleShown(title, text) then ["Title: " + title.value] else []) +
    (if Truthy(url) then ["URL: " + url.value] else []) +
    (if Truthy(text) then [text.value] else [])
  }

  /** The formatted content is the trimmed join of its sections, title
      first, then the URL, then the text, separated by blank lines. */
  lemma FormatIsJoinedSections(title: Option<string>, url: Option<string>, text: Option<string>)
    ensures FormatSharedContent(title, url, text) == Trim(Join(Sections(title, url, text), "\n\n"))
  {
    var j := Join(Sections(title, url, text), "\n\n");
    var tail := UntrimmedIsJoin(title, url, text);
    assert AllWhiteSpace(tail);
    TrimAppendWhiteSpace(j, tail);
  }

  /** Before trimming, the content is the join of the sections, followed by
      a blank-line separator exactly when something other than the text
      comes last. */
  lemma UntrimmedIsJoin(title: Option<string>, url: Option<string>, text: Option<string>) returns (tail: string)
    ensures tail == "" || tail == "\n\n"
    ensures tail == "\n\n" <==> !Truthy(text) && Sections(title, url, text) != []
    ensures UntrimmedContent(title, url, text) == Join(Sections(title, url, text), "\n\n") + tail
  {
    var sep := "\n\n";
    var parts := Sections(title, url, text);
    var content := UntrimmedContent(title, url, text);
    tail := if !Truthy(text) && parts != [] then sep else "";
    if TitleShown(title, text) && Truthy(url) && Truthy(text) {
      assert parts == ["Title: " + title.value, "URL: " + url.value, text.value];
      assert parts[1..][1..] == [text.value];
    } else if TitleShown(title, text) && Truthy(url) {
      assert parts == ["Title: " + title.value, "URL: " + url.value];
      assert parts[1..] == ["URL: " + url.value];
    } else if TitleShown(title, text) && Truthy(text) {
      assert parts == ["Title: " + title.value, text.value];
      assert parts[1..] == [text.value];
    } else if TitleShown(title, text) {
      assert parts == ["Title: " + title.value];
    } else if Truthy(url) && Truthy(text) {
      assert parts == ["URL: " + url.value, text.value];
      assert parts[1..] == [text.value];
    } else if Truthy(url) {
      assert parts == ["URL: " + url.value];
    } else if Truthy(text) {
      assert parts == [text.value];
    } else {
      assert parts == [];
    }
  }

  /** With no URL and no title to show, the result is the trimmed text. */
  lemma FormatTextOnly(title: Option<string>, url: Option<string>, text: Option<string>)
    requires !Truthy(url) && !TitleShown(title, text)
    ensures FormatSharedContent(title, url, text) == if Truthy(text) then Trim(text.value) else ""
  {
    assert UntrimmedContent(title, url, text) == if Truthy(text) then text.value else "";
  }

  /** A shared post body with nothing else becomes exactly that text. */
  lemma FormatPlainTextExample()
    ensures FormatSharedContent(None, None, Some("Senior Engineer role")) == "Senior Engineer role"
  {
    var s := "Senior Engineer role";
    FormatTextOnly(None, None, Some(s));
    assert !IsWhiteSpace(s[0]) && !IsWhiteSpace(s[|s| - 1]);
    TrimUnbordered(s);
  }

  /** A shown title heads the result; when the title does not end in white
      space, the whole `Title: <title>` does. */
  lemma FormatTitleFirst(title: Option<string>, url: Option<string>, text: Option<string>)
    requires TitleShown(title, text)
    ensures StartsWith(FormatSharedContent(title, url, text), "Title:")
    ensures !IsWhiteSpace(title.value[|title.value| - 1]) ==>
      StartsWith(FormatSharedContent(title, url, text), "Title: " + title.value)
  {
    var withUrl := if Truthy(url) then "URL: " + url.value + "\n\n" else "";
    var body := "\n\n" + (if Truthy(text) then withUrl + text.value else withUrl);
    var p := "Title: " + title.value;
    var c := UntrimmedContent(title, url, text);
    assert c == p + body;
    assert p == "Title:" + (" " + title.value);
    assert c == "Title:" + (" " + title.value + body);
    PrefixSurvivesTrim("Title:", " " + title.value + body);
    if !IsWhiteSpace(title.value[|title.value| - 1]) {
      assert p[0] == 'T' && p[|p| - 1] == title.value[|title.value| - 1];
      PrefixSurvivesTrim(p, body);
    }
  }

  /** Without a title, a URL heads the result. */
  lemma FormatUrlFirst(title: Option<string>, url: Option<string>, text: Option<string>)
    requires !TitleShown(title, text) && Truthy(url)
    ensures StartsWith(FormatSharedContent(title, url, text), "URL:")
    ensures !IsWhiteSpace(url.value[|url.value| - 1]) ==>
      StartsWith(FormatSharedContent(title, url, text), "URL: " + url.value)
  {
    var body := if Truthy(text) then "\n\n" + text.value else "\n\n";
    var p := "URL: " + url.value;
    var c := UntrimmedContent(title, url, text);
    assert c == p + body;
    assert p == "URL:" + (" " + url.value);
    assert c == "URL:" + (" " + url.value + body);
    PrefixSurvivesTrim("URL:", " " + url.value + body);
    if !IsWhiteSpace(url.value[|url.value| - 1]) {
      assert p[0] == 'U' && p[|p| - 1] == url.value[|url.value| - 1];
      PrefixSurvivesTrim(p, body);
    }
  }
}
