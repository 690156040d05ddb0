/** The few JavaScript value and string rules the page and the service worker
    rely on: optional values (null/undefined), truthiness of strings, and the
    String.prototype methods trim, startsWith and includes. */
module Js {

  /** A value that may be null or undefined (both are `None`). */
  datatype Option<+T> = None | Some(value: T)

  /** JavaScript truthiness of an optional string: present and non-empty. */
  predicate Truthy(s: Option<string>) {
    s.Some? && s.value != ""
  }

  /** The characters String.prototype.trim removes: ECMAScript WhiteSpace
      (tab, vertical tab, form feed, no-break space, byte order mark and the
      Unicode space separators) and LineTerminator (LF, CR, LS, PS). */
  predicate IsWhiteSpace(c: char) {
    c == '\t' || c == '\n' || c == '\U{000B}' || c == '\U{000C}' || c == '\r' ||
    c == ' ' || c == '\U{00A0}' || c == '\U{1680}' ||
    ('\U{2000}' <= c <= '\U{200A}') ||
    c == '\U{2028}' || c == '\U{2029}' || c == '\U{202F}' || c == '\U{205F}' ||
    c == '\U{3000}' || c == '\U{FEFF}'
  }

  predicate AllWhiteSpace(s: string) {
    forall i :: 0 <= i < |s| ==> IsWhiteSpace(s[i])
  }

  /** The number of white-space characters `s` starts with. */
  function LeadingWhiteSpace(s: string): (n: nat)
    ensures n <= |s| && (n == |s| || !IsWhiteSpace(s[n]))
    ensures forall i :: 0 <= i < n ==> IsWhiteSpace(s[i])
  {
    if s == [] || !IsWhiteSpace(s[0]) then 0 else 1 + LeadingWhiteSpace(s[1..])
  }

  /** The length of `s` without the white-space characters it ends with. */
  function TrailingStart(s: string): (n: nat)
    ensures n <= |s| && (n == 0 || !IsWhiteSpace(s[n - 1]))
    ensures forall i :: n <= i < |s| ==> IsWhiteSpace(s[i])
  {
    if s == [] || !IsWhiteSpace(s[|s| - 1]) then |s| else TrailingStart(s[..|s| - 1])
  }

  /** String.prototype.trimStart. */
  function TrimStart(s: string): string {
    s[LeadingWhiteSpace(s)..]
  }

  /** String.prototype.trimEnd. */
  function TrimEnd(s: string): string {
    s[..TrailingStart(s)]
  }

  /** String.prototype.trim: what is left neither starts nor ends with white
      space. */
  function Trim(s: string): (r: string)
    ensures r == [] || (!IsWhiteSpace(r[0]) && !IsWhiteSpace(r[|r| - 1]))
  {
    TrimStart(TrimEnd(s))
  }

  /** Trim removes only white space: the result is a middle part of `s`
      whose left and right neighbours are all white space. */
  lemma TrimIsMiddle(s: string)
    ensures exists i, j ::
      0 <= i <= j <= |s| && Trim(s) == s[i..j] && AllWhiteSpace(s[..i]) && AllWhiteSpace(s[j..])
  {
    var j := TrailingStart(s);
    var e := s[..j];
    var i := LeadingWhiteSpace(e);
    assert Trim(s) == s[i..j];
    assert AllWhiteSpace(s[..i]) by {
      forall k | 0 <= k < i ensures IsWhiteSpace(s[..i][k]) {
        assert s[..i][k] == e[k];
      }
    }
    assert AllWhiteSpace(s[j..]) by {
      forall k | 0 <= k < |s| - j ensures IsWhiteSpace(s[j..][k]) {
        assert s[j..][k] == s[j + k];
      }
    }
  }

  /** A string with no white space at either end is its own trim. */
  lemma TrimUnbordered(s: string)
    requires s == [] || (!IsWhiteSpace(s[0]) && !IsWhiteSpace(s[|s| - 1]))
    ensures Trim(s) == s
  {
    assert TrailingStart(s) == |s|;
    assert s[..|s|] == s;
    assert LeadingWhiteSpace(s) == 0;
  }

  /** Appending white space does not move where the trailing white space
      starts. */
  lemma {:induction false} TrailingStartAppendWhiteSpace(s: string, w: string)
    requires AllWhiteSpace(w)
    ensures TrailingStart(s + w) == TrailingStart(s)
    decreases |w|
  {
    if w == [] {
      assert s + w == s;
    } else {
      var w' := w[..|w| - 1];
      assert (s + w)[..|s + w| - 1] == s + w';
      assert (s + w)[|s + w| - 1] == w[|w| - 1];
      assert AllWhiteSpace(w') by {
        forall i | 0 <= i < |w'| ensures IsWhiteSpace(w'[i]) {
          assert w'[i] == w[i];
        }
      }
      TrailingStartAppendWhiteSpace(s, w');
    }
  }

  /** Appending white space does not change the trim. */
  lemma TrimAppendWhiteSpace(s: string, w: string)
    requires AllWhiteSpace(w)
    ensures Trim(s + w) == Trim(s)
  {
    TrailingStartAppendWhiteSpace(s, w);
    var n := TrailingStart(s);
    assert (s + w)[..n] == s[..n];
  }

  /** A prefix that ends in a non-white-space character is kept whole by
      trimEnd. */
  lemma {:induction false} TrailingStartPastPrefix(p: string, s: string)
    requires p != [] && !IsWhiteSpace(p[|p| - 1])
    ensures TrailingStart(p + s) >= |p|
    decreases |s|
  {
    if s == [] {
      assert p + s == p;
    } else {
      assert (p + s)[..|p + s| - 1] == p + s[..|s| - 1];
      if IsWhiteSpace(s[|s| - 1]) {
        assert (p + s)[|p + s| - 1] == s[|s| - 1];
        TrailingStartPastPrefix(p, s[..|s| - 1]);
      }
    }
  }

  /** A prefix that starts and ends with non-white-space characters is kept
      whole by trim. */
  lemma PrefixSurvivesTrim(p: string, s: string)
    requires p != [] && !IsWhiteSpace(p[0]) && !IsWhiteSpace(p[|p| - 1])
    ensures StartsWith(Trim(p + s), p)
  {
    TrailingStartPastPrefix(p, s);
    var e := TrimEnd(p + s);
    assert e[..|p|] == p;
    assert e[0] == p[0];
    assert LeadingWhiteSpace(e) == 0;
  }

  /** String.prototype.startsWith. */
  predicate StartsWith(s: string, prefix: string) {
    |prefix| <= |s| && s[..|prefix|] == prefix
  }

  /** String.prototype.includes. */
  predicate Includes(s: string, part: string) {
    exists i :: 0 <= i <= |s| - |part| && OccursAt(s, part, i)
  }

  predicate OccursAt(s: string, part: string, i: int)
    requires 0 <= i <= |s| - |part|
  {
    s[i..i + |part|] == part
  }

  /** Joins `parts` with `sep` between consecutive parts (Array.prototype.join). */
  function Join(parts: seq<string>, sep: string): (r: string)
    ensures parts == [] ==> r == []
    ensures |parts| == 1 ==> r == parts[0]
  {
    if parts == [] then "" else if |parts| == 1 then parts[0]
    else parts[0] + sep + Join(parts[1..], sep)
  }
}
