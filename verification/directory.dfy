/** Directory listings and directory resolution: `createDirectory` (src/index.js:86-156),
    the listing it falls back on (src/index.js:159-195), and how `processImages` turns its
    answer into the parent identifier of every upload (src/index.js:628-648). */
module Directory {
  import opened JsValues
  import opened Naming

  /** One child of a listed directory; `kind` is the API's `type` field (1 = directory). */
  datatype Entry = Entry(filename: string, fileID: JsId, kind: int)

  /** A listing reply. `getFileList` never throws: a failed or malformed listing reaches its
      callers as an empty list, so that is how a script states it. */
  datatype ListReply = ListReply(entries: seq<Entry>, latency: nat)

  /** `e.filename === name`, and with `dirOnly` also `e.type === 1`. */
  predicate Hit(e: Entry, name: string, dirOnly: bool) {
    e.filename == name && (!dirOnly || e.kind == 1)
  }

  /** Index of the first entry the scan loop stops at. */
  function FindFirst(entries: seq<Entry>, name: string, dirOnly: bool): (r: Option<nat>)
    ensures r.Some? ==> r.value < |entries| && Hit(entries[r.value], name, dirOnly)
    ensures r.Some? ==> forall k :: 0 <= k < r.value ==> !Hit(entries[k], name, dirOnly)
    ensures r.None? ==> forall k :: 0 <= k < |entries| ==> !Hit(entries[k], name, dirOnly)
    decreases |entries|
  {
    if |entries| == 0 then None
    else if Hit(entries[0], name, dirOnly) then Some(0)
    else
      match FindFirst(entries[1..], name, dirOnly)
      case None => None
      case Some(i) => Some(i + 1)
  }

  /** The `fileID` of the first hit, if any. */
  function LookupID(entries: seq<Entry>, name: string, dirOnly: bool): Option<JsId> {
    match FindFirst(entries, name, dirOnly)
    case None => None
    case Some(i) => Some(entries[i].fileID)
  }

  /** ECMAScript white space and line terminators, the characters `trim` removes. */
  predicate IsJsWhitespace(c: char) {
    || c == '\t' || c == '\n' || c == '\U{B}' || c == '\U{C}' || c == '\r' || c == ' '
    || c == '\U{A0}' || c == '\U{1680}' || '\U{2000}' <= c <= '\U{200A}'
    || c == '\U{2028}' || c == '\U{2029}' || c == '\U{202F}' || c == '\U{205F}'
    || c == '\U{3000}' || c == '\U{FEFF}'
  }

  /** `!dirName || dirName.trim() === ''`. */
  predicate IsBlank(s: string) {
    forall i :: 0 <= i < |s| ==> IsJsWhitespace(s[i])
  }

  /** "目录名" (directory name), "不能重名" (must not repeat a name), "已存在" (already exists). */
  const DirNameWord: string := "\U{76EE}\U{5F55}\U{540D}"
  const NoDuplicateWord: string := "\U{4E0D}\U{80FD}\U{91CD}\U{540D}"
  const ExistsWord: string := "\U{5DF2}\U{5B58}\U{5728}"

  /** The duplicate-name test on the lower-cased error message (src/index.js:120-123). */
  predicate IsDirectoryExists(message: string) {
    var m := ToLower(message);
    Contains(m, DirNameWord) && (Contains(m, NoDuplicateWord) || Contains(m, ExistsWord))
  }

  /** None of the three phrases has an ASCII letter, so lower-casing the message is immaterial. */
  lemma DuplicateTestIgnoresCase(message: string)
    ensures IsDirectoryExists(message) <==>
            Contains(message, DirNameWord) && (Contains(message, NoDuplicateWord) || Contains(message, ExistsWord))
  {
    LowerKeepsNonLetterNeedle(message, DirNameWord);
    LowerKeepsNonLetterNeedle(message, NoDuplicateWord);
    LowerKeepsNonLetterNeedle(message, ExistsWord);
  }

  /** Outcome of the mkdir request. `message` is the rejected promise's message. */
  datatype MkdirReply = MkdirCreated(fileID: JsId) | MkdirFailed(message: string)

  datatype DirCall = Mkdir(name: string, parentID: string) | ListChildren(parentFileID: string)

  /** The `data.fileID` `createDirectory` resolves with, and the requests it made. */
  datatype DirResolution = DirResolution(fileID: JsId, calls: seq<DirCall>)

  /** The root directory, `{ fileID: "" }`. */
  const Root: JsId := Text("")

  /** `createDirectory(ctx, token, "", dirName)`; it never rejects (src/index.js:86-156). */
  function CreateDirectory(dirName: string, mkdir: MkdirReply, listing: ListReply): (res: DirResolution)
    ensures IsBlank(dirName) ==> res == DirResolution(Root, [])
    ensures !IsBlank(dirName) ==> |res.calls| >= 1 && res.calls[0] == Mkdir(SanitizeFilename(dirName), "")
    ensures !IsBlank(dirName) && mkdir.MkdirCreated? ==> res == DirResolution(mkdir.fileID, res.calls) && |res.calls| == 1
    ensures !IsBlank(dirName) && mkdir.MkdirFailed? && !IsDirectoryExists(mkdir.message) ==>
              res.fileID == Root && |res.calls| == 1
    ensures !IsBlank(dirName) && mkdir.MkdirFailed? && IsDirectoryExists(mkdir.message) ==>
              var found := FindFirst(listing.entries, SanitizeFilename(dirName), true);
              && res.calls == [Mkdir(SanitizeFilename(dirName), ""), ListChildren("")]
              && res.fileID == (if found.Some? then listing.entries[found.value].fileID else Root)
  {
    if IsBlank(dirName) then DirResolution(Root, [])
    else
      var name := SanitizeFilename(dirName);
      var mk := Mkdir(name, NormalizeParentFileID(Root));
      match mkdir
      case MkdirCreated(id) => DirResolution(id, [mk])
      case MkdirFailed(message) =>
        if IsDirectoryExists(message) then
          var found := FindFirst(listing.entries, name, true);
          DirResolution(if found.Some? then listing.entries[found.value].fileID else Root,
                        [mk, ListChildren(NormalizeParentFileID(Root))])
        else DirResolution(Root, [mk])
  }

  /** The scan stops at the first hit and nowhere else. */
  lemma FindFirstIsFirstHit(entries: seq<Entry>, name: string, dirOnly: bool, j: nat)
    requires j < |entries| && Hit(entries[j], name, dirOnly)
    requires forall k :: 0 <= k < j ==> !Hit(entries[k], name, dirOnly)
    ensures FindFirst(entries, name, dirOnly) == Some(j)
  {
  }

  /** A duplicate-name failure followed by a listing that names the directory resolves to the
      first such directory's identifier. */
  lemma CollisionRecovery(dirName: string, message: string, listing: ListReply, j: nat)
    requires !IsBlank(dirName) && IsDirectoryExists(message)
    requires j < |listing.entries| && Hit(listing.entries[j], SanitizeFilename(dirName), true)
    requires forall k :: 0 <= k < j ==> !Hit(listing.entries[k], SanitizeFilename(dirName), true)
    ensures CreateDirectory(dirName, MkdirFailed(message), listing).fileID == listing.entries[j].fileID
  {
    FindFirstIsFirstHit(listing.entries, SanitizeFilename(dirName), true, j);
  }

  /** The parent identifier `processImages` uploads into: the directory named in the
      configuration when resolution yields a truthy identifier, else the root
      (src/index.js:628-648). */
  function ResolveParent(configName: string, mkdir: MkdirReply, listing: ListReply): (res: DirResolution)
    ensures configName == "" ==> res == DirResolution(Root, [])
    ensures Truthy(res.fileID) || res.fileID == Root
    ensures configName != "" ==> res.calls == CreateDirectory(configName, mkdir, listing).calls
    ensures configName != "" && Truthy(CreateDirectory(configName, mkdir, listing).fileID) ==>
              res.fileID == CreateDirectory(configName, mkdir, listing).fileID
    ensures configName != "" && !Truthy(CreateDirectory(configName, mkdir, listing).fileID) ==> res.fileID == Root
  {
    if configName == "" then DirResolution(Root, [])
    else
      var r := CreateDirectory(configName, mkdir, listing);
      DirResolution(if Truthy(r.fileID) then r.fileID else Root, r.calls)
  }
}
