/** Deletion of uploaded images: `handleRemove` (src/index.js:1144-1215) keeps the files this
    uploader stored, refreshes the token with its own expiry rule, pulls a file identifier out of
    each link with `/\/([a-zA-Z0-9]+)(?:\?|$)/`, and asks the server to delete each one. */
module Removal {
  import opened JsValues
  import opened Session
  import opened UploadJob

  /** A gallery entry handed to the remove hook: `kind` is its `type`, `imgUrl` its link (`""`
      when it has none). */
  datatype GalleryFile = GalleryFile(kind: string, fileName: string, imgUrl: string)

  const UploaderKind: string := "123pan"

  /** Length of the run of ASCII letters and digits starting at `i`. */
  function AlnumRun(s: string, i: nat): (n: nat)
    ensures i + n <= |s| || (i > |s| && n == 0)
    ensures forall j :: i <= j < i + n ==> IsAsciiAlnum(s[j])
    ensures i + n < |s| ==> !IsAsciiAlnum(s[i + n])
    decreases |s| - i
  {
    if i < |s| && IsAsciiAlnum(s[i]) then 1 + AlnumRun(s, i + 1) else 0
  }

  /** The regular expression matches at `p` with a group of length `len`: a slash, `len >= 1`
      letters or digits, then a question mark or the end of the link. */
  predicate RegexMatch(s: string, p: int, len: int) {
    && 0 <= p && len >= 1 && p + 1 + len <= |s|
    && s[p] == '/'
    && (forall j :: p + 1 <= j < p + 1 + len ==> IsAsciiAlnum(s[j]))
    && (p + 1 + len == |s| || s[p + 1 + len] == '?')
  }

  /** A run of letters and digits that stops at the end or at another character has exactly
      its own length. */
  lemma {:induction false} RunIs(s: string, i: nat, k: nat)
    requires i + k <= |s| && forall j :: i <= j < i + k ==> IsAsciiAlnum(s[j])
    requires i + k == |s| || !IsAsciiAlnum(s[i + k])
    ensures AlnumRun(s, i) == k
    decreases k
  {
    if k > 0 {
      RunIs(s, i + 1, k - 1);
    }
  }

  /** The group length at `p` is the whole run of letters and digits after the slash. */
  lemma MatchIsMaximalRun(s: string, p: nat, len: int)
    requires RegexMatch(s, p, len)
    ensures len == AlnumRun(s, p + 1)
  {
    RunIs(s, p + 1, len);
  }

  /** At a given slash at most one group length works: a shorter group would end on a letter or
      digit, which is neither `?` nor the end, so backtracking never finds a second match. */
  lemma MatchLengthUnique(s: string, p: nat, l1: int, l2: int)
    requires RegexMatch(s, p, l1) && RegexMatch(s, p, l2)
    ensures l1 == l2
  {
    MatchIsMaximalRun(s, p, l1);
    MatchIsMaximalRun(s, p, l2);
  }

  /** Whether the expression matches at `p`, decided by the maximal run. */
  predicate MatchesAt(s: string, p: nat) {
    p < |s| && s[p] == '/' && AlnumRun(s, p + 1) >= 1
    && (p + 1 + AlnumRun(s, p + 1) == |s| || s[p + 1 + AlnumRun(s, p + 1)] == '?')
  }

  lemma MatchesAtMeansRegexMatch(s: string, p: nat)
    ensures MatchesAt(s, p) <==> exists len :: RegexMatch(s, p, len)
  {
    if MatchesAt(s, p) {
      assert RegexMatch(s, p, AlnumRun(s, p + 1));
    }
    if exists len :: RegexMatch(s, p, len) {
      var len :| RegexMatch(s, p, len);
      MatchIsMaximalRun(s, p, len);
    }
  }

  /** What the group captures: non-empty letters and digits. */
  predicate IsPlainID(id: string) {
    |id| >= 1 && forall j :: 0 <= j < |id| ==> IsAsciiAlnum(id[j])
  }

  /** `String.prototype.match` scanning from position `p`: the group of the leftmost match. */
  function MatchFrom(s: string, p: nat): (r: Option<string>)
    ensures r.Some? ==> IsPlainID(r.value)
    ensures r.None? <==> forall q :: p <= q < |s| ==> !MatchesAt(s, q)
    decreases |s| - p
  {
    if p >= |s| then None
    else if MatchesAt(s, p) then Some(s[p + 1..p + 1 + AlnumRun(s, p + 1)])
    else MatchFrom(s, p + 1)
  }

  /** `file.imgUrl.match(/\/([a-zA-Z0-9]+)(?:\?|$)/)[1]`, if there is a match. */
  function ExtractFileID(url: string): (r: Option<string>)
    ensures r.Some? ==> IsPlainID(r.value)
    ensures r.None? <==> forall q :: 0 <= q < |url| ==> !MatchesAt(url, q)
  {
    MatchFrom(url, 0)
  }

  /** A run of letters and digits to the end of the string is as long as the rest. */
  lemma RunToEnd(s: string, i: nat)
    requires i <= |s| && forall j :: i <= j < |s| ==> IsAsciiAlnum(s[j])
    ensures AlnumRun(s, i) == |s| - i
  {
    RunIs(s, i, |s| - i);
  }

  /** Within `https://www.123pan.com/s/` no slash starts a match: each is followed by an empty
      run, or by a run that meets a `.` or a `/`. */
  lemma NoMatchInSharePrefix(s: string)
    requires |s| >= |ShareUrlPrefix| && s[..|ShareUrlPrefix|] == ShareUrlPrefix
    ensures forall q :: 0 <= q < |ShareUrlPrefix| - 1 ==> !MatchesAt(s, q)
  {
    forall q | 0 <= q < |ShareUrlPrefix| - 1
      ensures !MatchesAt(s, q)
    {
      assert s[q] == ShareUrlPrefix[q];
      if q == 6 {
        assert s[7] == ShareUrlPrefix[7] == '/';
      } else if q == 7 {
        assert s[8] == ShareUrlPrefix[8] && s[9] == ShareUrlPrefix[9] && s[10] == ShareUrlPrefix[10];
        assert s[11] == ShareUrlPrefix[11] == '.';
        RunIs(s, 8, 3);
      } else if q == 22 {
        assert s[23] == ShareUrlPrefix[23] && s[24] == ShareUrlPrefix[24] == '/';
        RunIs(s, 23, 1);
      }
    }
  }

  /** A slash followed by a plain identifier that ends the link or meets a `?` matches there,
      and the group is that identifier. */
  lemma SlashBeforeIdentifier(s: string, p: nat, id: string)
    requires IsPlainID(id) && p + 1 + |id| <= |s|
    requires s[p] == '/' && s[p + 1..p + 1 + |id|] == id
    requires p + 1 + |id| == |s| || s[p + 1 + |id|] == '?'
    ensures MatchesAt(s, p) && s[p + 1..p + 1 + AlnumRun(s, p + 1)] == id
  {
    forall j | p + 1 <= j < p + 1 + |id|
      ensures IsAsciiAlnum(s[j])
    {
      assert s[j] == s[p + 1..p + 1 + |id|][j - p - 1];
    }
    RunIs(s, p + 1, |id|);
  }

  /** Deleting by the share link of an upload finds the identifier the link was made from, also
      when a query string follows it (src/index.js:331-338 and 1177). */
  lemma ShareLinkWithQuery(id: string, query: string)
    requires IsPlainID(id)
    requires query == [] || query[0] == '?'
    ensures ExtractFileID(FallbackUrl(Text(id)) + query) == Some(id)
  {
    var s := FallbackUrl(Text(id)) + query;
    var n := |ShareUrlPrefix|;
    assert s == ShareUrlPrefix + id + query;
    assert s[..n] == ShareUrlPrefix;
    assert s[n..n + |id|] == id;
    assert s[n - 1] == '/';
    assert n + |id| < |s| ==> s[n + |id|] == query[0];
    NoMatchInSharePrefix(s);
    SlashBeforeIdentifier(s, n - 1, id);
    SkipToMatch(s, 0, n - 1);
  }

  /** The plain share link gives back its identifier. */
  lemma ShareLinkRoundTrip(id: string)
    requires IsPlainID(id)
    ensures ExtractFileID(FallbackUrl(Text(id))) == Some(id)
  {
    ShareLinkWithQuery(id, []);
    assert FallbackUrl(Text(id)) + [] == FallbackUrl(Text(id));
  }

  /** When nothing matches before `q` and something matches at `q`, the scan from `p` stops at `q`. */
  lemma {:induction false} SkipToMatch(s: string, p: nat, q: nat)
    requires p <= q < |s| && MatchesAt(s, q)
    requires forall r :: p <= r < q ==> !MatchesAt(s, r)
    ensures MatchFrom(s, p) == Some(s[q + 1..q + 1 + AlnumRun(s, q + 1)])
    decreases q - p
  {
    if p < q {
      assert !MatchesAt(s, p);
      SkipToMatch(s, p + 1, q);
      assert MatchFrom(s, p) == MatchFrom(s, p + 1);
    } else {
      assert MatchFrom(s, p) == Some(s[p + 1..p + 1 + AlnumRun(s, p + 1)]);
    }
  }

  /** A share link made from a positive numeric identifier gives back its decimal text. */
  lemma NumericShareLinkRoundTrip(n: int)
    requires n > 0
    ensures ExtractFileID(FallbackUrl(Number(n))) == Some(IntText(n))
  {
    var t := IntText(n);
    assert t == NatText(n);
    assert forall j :: 0 <= j < |t| ==> IsDigit(t[j]);
    assert FallbackUrl(Number(n)) == FallbackUrl(Text(t));
    ShareLinkRoundTrip(t);
  }

  /** The files the hook is responsible for, in order. */
  function OwnFiles(files: seq<GalleryFile>): (r: seq<GalleryFile>)
    ensures |r| <= |files|
    ensures forall i :: 0 <= i < |r| ==> r[i].kind == UploaderKind
    ensures forall i :: 0 <= i < |files| && files[i].kind == UploaderKind ==> files[i] in r
    ensures forall f :: f in r ==> f in files
    decreases |files|
  {
    if |files| == 0 then []
    else (if files[0].kind == UploaderKind then [files[0]] else []) + OwnFiles(files[1..])
  }

  /** The identifiers whose deletion is requested: one per file whose link matches, in order;
      a file without a match is skipped. */
  function DeletionTargets(files: seq<GalleryFile>): (ids: seq<string>)
    ensures |ids| <= |files|
    ensures forall i :: 0 <= i < |ids| ==> IsPlainID(ids[i])
    decreases |files|
  {
    if |files| == 0 then [] else TargetOf(files[0]) + DeletionTargets(files[1..])
  }

  /** The deletion one file contributes: its extracted identifier, or nothing. */
  function TargetOf(f: GalleryFile): (ids: seq<string>)
    ensures |ids| <= 1 && forall i :: 0 <= i < |ids| ==> IsPlainID(ids[i])
  {
    match ExtractFileID(f.imgUrl)
    case Some(id) => [id]
    case None => []
  }

  /** What `handleRemove` does: the credential it saves when it had to fetch one, and the
      identifiers it asks the server to delete, in order. A failed token fetch ends the hook
      before any deletion. */
  datatype RemoveRun = RemoveRun(saved: Option<Credential>, deletions: seq<string>)

  function HandleRemove(files: seq<GalleryFile>, cached: Option<Credential>, now: int,
                        configured: bool, fetch: FetchReply): (r: RemoveRun)
    ensures OwnFiles(files) == [] ==> r == RemoveRun(None, [])
    ensures r.deletions != [] ==> r.deletions == DeletionTargets(OwnFiles(files))
    ensures r.saved.Some? ==> RemoveTokenDecision(cached, now).FetchNew? && configured && fetch == Issued(r.saved.value)
    ensures RemoveTokenDecision(cached, now).UseCached? ==> r == RemoveRun(None, DeletionTargets(OwnFiles(files)))
    ensures RemoveTokenDecision(cached, now).FetchNew? && !configured ==> r == RemoveRun(None, [])
    ensures RemoveTokenDecision(cached, now).FetchNew? && fetch.FetchFailed? ==> r == RemoveRun(None, [])
    ensures OwnFiles(files) != [] && RemoveTokenDecision(cached, now).FetchNew? && configured && fetch.Issued? ==>
              r == RemoveRun(Some(fetch.credential), DeletionTargets(OwnFiles(files)))
  {
    var own := OwnFiles(files);
    if |files| == 0 || |own| == 0 then RemoveRun(None, [])
    else match RemoveTokenDecision(cached, now)
      case UseCached(_) => RemoveRun(None, DeletionTargets(own))
      case FetchNew =>
        if !configured then RemoveRun(None, [])
        else match fetch
          case FetchFailed(_) => RemoveRun(None, [])
          case Issued(c) => RemoveRun(Some(c), DeletionTargets(own))
  }

  /** An upload's share link, once in the gallery, leads to the deletion of that upload. */
  lemma UploadedShareLinkIsDeleted(id: string, fileName: string, cached: Option<Credential>, now: int)
    requires IsPlainID(id)
    requires RemoveTokenDecision(cached, now).UseCached?
    ensures HandleRemove([GalleryFile(UploaderKind, fileName, FallbackUrl(Text(id)))], cached, now, false, FetchFailed("")).deletions == [id]
  {
    ShareLinkRoundTrip(id);
    var f := GalleryFile(UploaderKind, fileName, FallbackUrl(Text(id)));
    assert OwnFiles([f]) == [f] by {
      assert [f][1..] == [];
    }
    assert DeletionTargets([f]) == [id] by {
      assert [f][1..] == [];
    }
  }

  /** Files are filtered one at a time: the kept files of a concatenation are the kept files of
      each part. */
  lemma {:induction false} OwnFilesAppend(a: seq<GalleryFile>, b: seq<GalleryFile>)
    ensures OwnFiles(a + b) == OwnFiles(a) + OwnFiles(b)
    decreases |a|
  {
    if |a| == 0 {
      assert a + b == b;
    } else {
      assert (a + b)[0] == a[0];
      assert (a + b)[1..] == a[1..] + b;
      OwnFilesAppend(a[1..], b);
    }
  }

  /** Each file's link is examined on its own: the deletions for a concatenation are the
      deletions for each part, so a link without a match only drops its own file. */
  lemma {:induction false} DeletionTargetsAppend(a: seq<GalleryFile>, b: seq<GalleryFile>)
    ensures DeletionTargets(a + b) == DeletionTargets(a) + DeletionTargets(b)
    decreases |a|
  {
    if |a| == 0 {
      assert a + b == b;
    } else {
      assert (a + b)[0] == a[0];
      assert (a + b)[1..] == a[1..] + b;
      DeletionTargetsAppend(a[1..], b);
    }
  }

  /** A gallery holding only other uploaders' files has nothing for this hook. */
  lemma {:induction false} NothingOwned(files: seq<GalleryFile>)
    requires forall i :: 0 <= i < |files| ==> files[i].kind != UploaderKind
    ensures OwnFiles(files) == []
    decreases |files|
  {
    if |files| > 0 {
      NothingOwned(files[1..]);
    }
  }

  /** Files stored by other uploaders never change what the hook does. */
  lemma ForeignFilesIgnored(files: seq<GalleryFile>, foreign: seq<GalleryFile>, cached: Option<Credential>,
                            now: int, configured: bool, fetch: FetchReply)
    requires forall i :: 0 <= i < |foreign| ==> foreign[i].kind != UploaderKind
    ensures HandleRemove(files + foreign, cached, now, configured, fetch) == HandleRemove(files, cached, now, configured, fetch)
  {
    OwnFilesAppend(files, foreign);
    NothingOwned(foreign);
    assert OwnFiles(files + foreign) == OwnFiles(files);
  }
}
