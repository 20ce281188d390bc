/** File-name sanitisation and parent-identifier normalisation (src/index.js:359-383). */
module Naming {
  import opened JsValues

  /** Longest name the storage service accepts, in characters. */
  const MaxNameLength: nat := 254

  /** The characters the sanitising regular expression replaces. The comment above it in the
      source also lists the backslash, but the character class does not contain one. */
  predicate IsForbidden(c: char) {
    c == '/' || c == ':' || c == '*' || c == '?' || c == '"' || c == '<' || c == '>' || c == '|'
  }

  function Scrub(c: char): char {
    if IsForbidden(c) then '_' else c
  }

  /** `filename.replace(/[\/:*?"<>|]/g, '_')`. */
  function ReplaceForbidden(s: string): string {
    seq(|s|, i requires 0 <= i < |s| => Scrub(s[i]))
  }

  /** `s.lastIndexOf(c)`: -1 when absent. */
  function LastIndexOf(s: string, c: char): (i: int)
    ensures -1 <= i < |s|
    ensures i == -1 <==> c !in s
    ensures i >= 0 ==> s[i] == c && c !in s[i + 1..]
    decreases |s|
  {
    if |s| == 0 then -1
    else if s[|s| - 1] == c then |s| - 1
    else
      var init := s[..|s| - 1];
      var j := LastIndexOf(init, c);
      assert s == init + [s[|s| - 1]];
      assert j >= 0 ==> s[j] == init[j] && s[j + 1..] == init[j + 1..] + [s[|s| - 1]];
      j
  }

  /** JavaScript clamps `substring` arguments into `[0, length]`. */
  function Clamp(i: int, n: nat): nat {
    if i < 0 then 0 else if i > n then n else i
  }

  /** `s.substring(start, end)`: both ends clamped, swapped when out of order. */
  function JsSubstring(s: string, start: int, end: int): string {
    var a := Clamp(start, |s|);
    var b := Clamp(end, |s|);
    if a <= b then s[a..b] else s[b..a]
  }

  /** The extension the long-name branch keeps: the suffix from the last '.', or nothing. */
  function Extension(t: string): string {
    if '.' in t then JsSubstring(t, LastIndexOf(t, '.'), |t|) else ""
  }

  /** Independent description of an extension of `t`: empty exactly when `t` has no dot,
      otherwise a suffix of `t` that starts with the only dot it contains. */
  predicate IsExtensionOf(ext: string, t: string) {
    if '.' !in t then ext == ""
    else |ext| >= 1 && |ext| <= |t| && ext == t[|t| - |ext|..] && ext[0] == '.' && '.' !in ext[1..]
  }

  /** `sanitizeFilename` (src/index.js:360-374). */
  function SanitizeFilename(name: string): (r: string)
    ensures forall i :: 0 <= i < |r| ==> !IsForbidden(r[i])
    ensures |name| <= MaxNameLength ==>
              |r| == |name| && forall i :: 0 <= i < |r| ==> r[i] == (if IsForbidden(name[i]) then '_' else name[i])
  {
    var t := ReplaceForbidden(name);
    if |t| > MaxNameLength then
      var ext := Extension(t);
      JsSubstring(t, 0, MaxNameLength - |ext|) + ext
    else t
  }

  /** The extension helper meets its independent description, and that description pins it down. */
  lemma ExtensionIsLastDotSuffix(t: string)
    ensures IsExtensionOf(Extension(t), t)
    ensures forall e :: IsExtensionOf(e, t) ==> e == Extension(t)
  {
    if '.' in t {
      var i := LastIndexOf(t, '.');
      assert Extension(t) == t[i..];
      assert t[i..][1..] == t[i + 1..];
      forall e | IsExtensionOf(e, t)
        ensures e == Extension(t)
      {
        var k := |t| - |e|;
        assert t[k] == e[0] == '.';
      }
    }
  }

  /** A name longer than the limit keeps its extension: the result is the first
      `254 - |ext|` scrubbed characters (none when the extension alone is longer), then the
      extension; it is exactly 254 long when the extension fits (src/index.js:366-371). */
  lemma {:induction false} SanitizeLongName(name: string)
    requires |name| > MaxNameLength
    ensures var t := ReplaceForbidden(name);
            var ext := Extension(t);
            && IsExtensionOf(ext, t)
            && SanitizeFilename(name) == t[..Max(0, MaxNameLength - |ext|)] + ext
            && (|ext| <= MaxNameLength ==> |SanitizeFilename(name)| == MaxNameLength)
            && (|ext| > MaxNameLength ==> SanitizeFilename(name) == ext)
  {
    var t := ReplaceForbidden(name);
    ExtensionIsLastDotSuffix(t);
  }

  /** The result is never longer than the limit unless it is one over-long extension. */
  lemma SanitizeLengthBound(name: string)
    ensures var r := SanitizeFilename(name);
            |r| <= MaxNameLength || (r[0] == '.' && '.' !in r[1..])
  {
    if |name| > MaxNameLength {
      SanitizeLongName(name);
    }
  }

  /** Strings without forbidden characters pass the replacement unchanged. */
  lemma ReplaceKeepsCleanString(s: string)
    requires forall i :: 0 <= i < |s| ==> !IsForbidden(s[i])
    ensures ReplaceForbidden(s) == s
  {
  }

  /** A lone over-long extension without forbidden characters is its own sanitised form. */
  lemma SanitizeKeepsLoneExtension(e: string)
    requires forall i :: 0 <= i < |e| ==> !IsForbidden(e[i])
    requires |e| > MaxNameLength && e[0] == '.' && '.' !in e[1..]
    ensures SanitizeFilename(e) == e
  {
    ReplaceKeepsCleanString(e);
    LoneExtension(e);
    assert JsSubstring(e, 0, MaxNameLength - |e|) == [];
    assert SanitizeFilename(e) == [] + e;
  }

  /** A string that is one dot-led extension is its own extension. */
  lemma LoneExtension(e: string)
    requires |e| >= 1 && e[0] == '.' && '.' !in e[1..]
    ensures Extension(e) == e
  {
    assert IsExtensionOf(e, e) by {
      assert e[|e| - |e|..] == e;
    }
    ExtensionIsLastDotSuffix(e);
  }

  /** Sanitising is idempotent (src/index.js:360-374). */
  lemma {:induction false} SanitizeIdempotent(name: string)
    ensures SanitizeFilename(SanitizeFilename(name)) == SanitizeFilename(name)
  {
    var r := SanitizeFilename(name);
    if |r| > MaxNameLength {
      SanitizeLengthBound(name);
      SanitizeKeepsLoneExtension(r);
    } else {
      ReplaceKeepsCleanString(r);
    }
  }

  /** The one example the repository's tests check (tests/sanitizeFilename.test.js:6-7). */
  lemma SanitizeTestExample()
    ensures SanitizeFilename("inva|id:name?.png") == "inva_id_name_.png"
  {
    assert ReplaceForbidden("inva|id:name?.png") == "inva_id_name_.png";
  }

  /** A backslash is not replaced, whatever the comment in the source says. */
  lemma BackslashSurvives()
    ensures SanitizeFilename("a\\b") == "a\\b"
  {
    assert ReplaceForbidden("a\\b") == "a\\b";
  }

  /** `normalizeParentFileID` (src/index.js:377-383): falsy values become `""`, anything else
      its string form. */
  function NormalizeParentFileID(v: JsId): (r: string)
    ensures r == "" <==> !Truthy(v)
    ensures Truthy(v) ==> r == ToText(v)
  {
    if !Truthy(v) then "" else ToText(v)
  }

  /** Normalising an already-normalised identifier changes nothing. */
  lemma NormalizeIdempotent(v: JsId)
    ensures NormalizeParentFileID(Text(NormalizeParentFileID(v))) == NormalizeParentFileID(v)
  {
  }
}
