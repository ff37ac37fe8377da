/** The storage helpers of services/imageStorage.ts: the data-URL helpers, the object-key
    convention of `saveImage`, the URL pipeline of `getImage` and the index guard of
    `deleteImage`. The storage vendor's calls, `atob`, `Date.now` and `Math.random` are not
    modelled: their answers are parameters. */
module ImageStorage {
  import opened Wrappers
  import opened Text
  import opened Bucket
  import JsObjects

  // ---------------------------------------------------------------------------------------
  // MIME types

  const DefaultMime := "image/jpeg"

  /** What `;` the lazy `(.*?);` reaches from the text right after a `:`: the text before the
      first `;`, provided no line terminator comes first (`.` matches none). */
  function LazyGroup(t: string): (r: Option<string>)
    ensures r.Some? ==> ';' !in r.value && StartsWith(t, r.value + ";")
    ensures r.Some? ==> forall k | 0 <= k < |r.value| :: !IsLineTerminator(r.value[k])
  {
    match IndexOf(t, ';')
    case None => None
    case Some(q) =>
      if forall k | 0 <= k < q :: !IsLineTerminator(t[k]) then
        assert t[..q + 1] == t[..q] + ";";
        Some(t[..q])
      else None
  }

  /** From right after `:`, the text up to the first `;` is the group. */
  lemma LazyGroupOf(m: string, tail: string)
    requires ';' !in m && forall k | 0 <= k < |m| :: !IsLineTerminator(m[k])
    ensures LazyGroup(m + [';'] + tail) == Some(m)
  {
    var x := m + [';'] + tail;
    IndexOfAfter(m, ';', tail);
    assert forall k | 0 <= k < |m| :: x[k] == m[k];
    assert x[..|m|] == m;
  }

  /** `s.match(/:(.*?);/)?.[1]`: the group of the leftmost match. */
  function ColonGroup(s: string): (r: Option<string>)
    ensures r.Some? ==> ';' !in r.value
    decreases |s|
  {
    if s == [] then None
    else if s[0] == ':' && LazyGroup(s[1..]).Some? then LazyGroup(s[1..])
    else ColonGroup(s[1..])
  }

  /** Line 16: the MIME type of the blob, from the part of the data URL before its first `,`;
      no match, or an empty group, gives `image/jpeg`. */
  function BlobMime(dataUrl: string): (r: string)
    ensures r != [] && ';' !in r
  {
    var header := Split(dataUrl, ',')[0];
    match ColonGroup(header)
    case Some(g) => if g != "" then g else DefaultMime
    case None => DefaultMime
  }

  /** The search passes over a prefix without `:`. */
  lemma {:induction false} ColonGroupSkips(p: string, x: string)
    requires ':' !in p
    ensures ColonGroup(p + x) == ColonGroup(x)
    decreases |p|
  {
    if p != [] {
      assert (p + x)[1..] == p[1..] + x;
      ColonGroupSkips(p[1..], x);
    } else {
      assert p + x == x;
    }
  }

  /** A header `data:<m>;...` matches at its `:` with group `m`. */
  lemma ColonGroupOfHeader(m: string, tail: string)
    requires ';' !in m && forall k | 0 <= k < |m| :: !IsLineTerminator(m[k])
    ensures ColonGroup("data:" + m + ";" + tail) == Some(m)
  {
    var x := m + [';'] + tail;
    assert "data:" + m + ";" + tail == "data" + ([':'] + x);
    ColonGroupSkips("data", [':'] + x);
    assert ([':'] + x)[1..] == x;
    LazyGroupOf(m, tail);
  }

  /** For a data URL that starts `data:<m>;` the blob's MIME type is `m` (or the default when
      `m` is empty), provided `m` holds no `;`, no `,` and no line terminator. */
  lemma BlobMimeOfDataUrl(m: string, rest: string)
    requires ';' !in m && ',' !in m && forall k | 0 <= k < |m| :: !IsLineTerminator(m[k])
    ensures BlobMime("data:" + m + ";" + rest) == if m == "" then DefaultMime else m
  {
    var p := "data:" + m + ";";
    assert ',' !in p by {
      assert forall k | 0 <= k < |p| :: p[k] != ',' by {
        assert forall k | 5 <= k < 5 + |m| :: p[k] == m[k - 5];
      }
    }
    SplitFirstAfter(p, rest, ',');
    assert p + rest == "data:" + m + ";" + rest;
    assert p + Split(rest, ',')[0] == "data:" + m + ";" + Split(rest, ',')[0];
    ColonGroupOfHeader(m, Split(rest, ',')[0]);
  }

  /** The file extensions the table of lines 31-36 gives. */
  predicate IsImageExtension(ext: string) {
    ext == "jpg" || ext == "png" || ext == "webp" || ext == "gif"
  }

  /** `s.match(/data:([^;]+);/)?.[1]` (line 30): the leftmost `data:` followed by at least one
      character other than `;` and then a `;`. Unlike line 16, any character may occur. */
  function DataGroup(s: string): (r: Option<string>)
    ensures r.Some? ==> r.value != "" && ';' !in r.value
    decreases |s|
  {
    if |s| < 5 then None
    else if s[..5] == "data:" && IndexOf(s[5..], ';').Some? && IndexOf(s[5..], ';').value > 0 then
      Some(s[5..][..IndexOf(s[5..], ';').value])
    else DataGroup(s[1..])
  }

  /** Line 30: the MIME type the extension is chosen by. */
  function ExtensionMime(dataUrl: string): string {
    DataGroup(dataUrl).GetOr(DefaultMime)
  }

  lemma ExtensionMimeOfDataUrl(m: string, rest: string)
    requires m != "" && ';' !in m
    ensures ExtensionMime("data:" + m + ";" + rest) == m
  {
    var s := "data:" + m + ";" + rest;
    assert s[..5] == "data:";
    IndexOfAfter(m, ';', rest);
    assert s[5..] == m + [';'] + rest;
  }

  /** What `mimeToExt[mime]` reads: an own property of the table, a member inherited from
      Object.prototype (a function), or nothing. */
  datatype LookupValue = OwnExtension(ext: string) | InheritedMember(name: string) | NoProperty

  /** Lines 31-36 and the property read of line 37, as written. */
  function MimeToExtAsWritten(mime: string): (v: LookupValue)
    ensures v.OwnExtension? ==> IsImageExtension(v.ext)
    ensures v.InheritedMember? <==> JsObjects.IsInherited(mime)
  {
    if mime == "image/jpeg" then OwnExtension("jpg")
    else if mime == "image/png" then OwnExtension("png")
    else if mime == "image/webp" then OwnExtension("webp")
    else if mime == "image/gif" then OwnExtension("gif")
    else if JsObjects.IsInherited(mime) then InheritedMember(mime)
    else NoProperty
  }

  /** Line 37 as written: `mimeToExt[mime] || 'jpg'`. An inherited member is truthy, so it is
      returned in place of an extension. */
  function ExtensionAsWritten(dataUrl: string): LookupValue {
    match MimeToExtAsWritten(ExtensionMime(dataUrl))
    case NoProperty => OwnExtension("jpg")
    case v => v
  }

  /** A data URL whose MIME type names an Object.prototype member gets a function for an
      extension, which the file key then renders as the function's source text. */
  lemma ExtensionAsWrittenReturnsInheritedMember(name: string, rest: string)
    requires JsObjects.IsInherited(name) && ';' !in name
    ensures ExtensionAsWritten("data:" + name + ";" + rest) == InheritedMember(name)
  {
    assert name != "";
    ExtensionMimeOfDataUrl(name, rest);
  }

  /** One such data URL: `data:toString;base64,AAAA`. */
  lemma ToStringMimeGetsNoExtension()
    ensures ExtensionAsWritten("data:" + "toString" + ";" + "base64,AAAA") == InheritedMember("toString")
  {
    assert JsObjects.IsInherited("toString");
    ExtensionAsWrittenReturnsInheritedMember("toString", "base64,AAAA");
  }

  /** `getExtensionFromDataURL` as intended: the table's own entries only, `jpg` otherwise. */
  function MimeToExt(mime: string): (ext: string)
    ensures IsImageExtension(ext)
    ensures mime == "image/jpeg" ==> ext == "jpg"
    ensures mime == "image/png" ==> ext == "png"
    ensures mime == "image/webp" ==> ext == "webp"
    ensures mime == "image/gif" ==> ext == "gif"
    ensures mime !in {"image/jpeg", "image/png", "image/webp", "image/gif"} ==> ext == "jpg"
  {
    match MimeToExtAsWritten(mime)
    case OwnExtension(ext) => ext
    case _ => "jpg"
  }

  /** Lines 29-38, corrected: always one of the four extensions. */
  function Extension(dataUrl: string): (ext: string)
    ensures IsImageExtension(ext)
    ensures DataGroup(dataUrl).None? ==> ext == "jpg"
  {
    MimeToExt(ExtensionMime(dataUrl))
  }

  /** The written and the corrected lookup agree unless the MIME type names an inherited member. */
  lemma ExtensionAgreesWithWritten(dataUrl: string)
    requires !JsObjects.IsInherited(ExtensionMime(dataUrl))
    ensures ExtensionAsWritten(dataUrl) == OwnExtension(Extension(dataUrl))
  {
  }

  /** A data URL `data:<m>;...` gets the extension of `m`. */
  lemma ExtensionOfDataUrl(m: string, rest: string)
    requires m != "" && ';' !in m
    ensures Extension("data:" + m + ";" + rest) == MimeToExt(m)
  {
    ExtensionMimeOfDataUrl(m, rest);
  }

  // ---------------------------------------------------------------------------------------
  // Blobs

  /** A `Uint8Array` element. */
  newtype Byte = x: int | 0 <= x < 256

  /** Storing a number into a `Uint8Array` keeps it modulo 256. */
  function ToUint8(code: int): (b: Byte)
    ensures 0 <= code < 256 ==> b as int == code
  {
    (code % 256) as Byte
  }

  /** The type a Blob keeps: its `type` option lower-cased, or `""` when it holds a character
      outside U+0020-U+007E (the File API's normalisation). */
  function BlobType(t: string): (r: string)
    ensures r == "" || |r| == |t|
  {
    if forall k | 0 <= k < |t| :: ' ' <= t[k] <= '~' then LowerAsciiString(t) else ""
  }

  /** A blob: its bytes and its type. */
  datatype Blob = Blob(bytes: seq<Byte>, mimeType: string)

  /** Byte `i` of the array is the char code at `i` of the decoded string, modulo 256. */
  function BytesOf(decoded: string): (r: seq<Byte>)
    ensures |r| == |decoded|
    ensures forall i | 0 <= i < |r| :: r[i] == ToUint8(decoded[i] as int)
  {
    seq(|decoded|, i requires 0 <= i < |decoded| => ToUint8(decoded[i] as int))
  }

  /** Line 17: the text `atob` is applied to: the part between the first and the second `,`,
      or, when there is no `,`, `undefined` converted to a string. */
  function Payload(dataUrl: string): (p: string)
    ensures ',' !in p
    ensures ',' !in dataUrl ==> p == "undefined"
  {
    var parts := Split(dataUrl, ',');
    if |parts| >= 2 then parts[1] else "undefined"
  }

  /** The payload of `<header>,<data>` is `data`, when neither holds a `,`. */
  lemma PayloadOfDataUrl(header: string, data: string)
    requires ',' !in header && ',' !in data
    ensures Payload(header + "," + data) == data
  {
    var s := header + [','] + data;
    assert header + "," + data == s;
    IndexOfAfter(header, ',', data);
    assert s[..|header|] == header && s[|header| + 1..] == data;
    assert Split(s, ',') == [header] + Split(data, ',');
  }

  /** Lines 14-24 once `atob` has returned `decoded`: the array is as long as the decoded string
      and is filled from the back by the `while (n--)` loop. */
  method DataUrlToBlob(dataUrl: string, decoded: string) returns (blob: Blob)
    ensures blob.bytes == BytesOf(decoded)
    ensures blob.mimeType == BlobType(BlobMime(dataUrl))
  {
    var mime := BlobMime(dataUrl);
    var n := |decoded|;
    var u8arr := new Byte[n];
    while n > 0
      invariant 0 <= n <= u8arr.Length == |decoded|
      invariant forall k | n <= k < u8arr.Length :: u8arr[k] == ToUint8(decoded[k] as int)
      decreases n
    {
      n := n - 1;
      u8arr[n] := ToUint8(decoded[n] as int);
    }
    blob := Blob(u8arr[..], BlobType(mime));
  }

  /** `atob` only yields characters below 256, and then every byte is the char code itself. */
  lemma BytesAreCharCodes(decoded: string)
    requires forall i | 0 <= i < |decoded| :: decoded[i] as int < 256
    ensures forall i | 0 <= i < |decoded| :: BytesOf(decoded)[i] as int == decoded[i] as int
  {
  }

  // ---------------------------------------------------------------------------------------
  // Object keys

  /** Lines 92 and 136: the folder of a user's images of one star. */
  function FolderPath(userId: string, starId: string): (p: string)
    ensures EndsWith(p, "/")
  {
    userId + "/" + starId + "/"
  }

  /** The object name under the folder: `${timestamp}-${randomStr}.${ext}`. */
  function FileName(timestamp: nat, randomStr: string, ext: string): string {
    Decimal(timestamp) + "-" + randomStr + "." + ext
  }

  lemma FileNameEndsWithExtension(timestamp: nat, randomStr: string, ext: string)
    ensures EndsWith(FileName(timestamp, randomStr, ext), "." + ext)
  {
    var name := FileName(timestamp, randomStr, ext);
    assert name == (Decimal(timestamp) + "-" + randomStr) + ("." + ext);
  }

  /** Line 51: the object key a new image is uploaded under. */
  function FileKey(userId: string, starId: string, timestamp: nat, randomStr: string, ext: string): (key: string)
    ensures key == FolderPath(userId, starId) + FileName(timestamp, randomStr, ext)
  {
    userId + "/" + starId + "/" + Decimal(timestamp) + "-" + randomStr + "." + ext
  }

  /** How the template literal of line 51 renders the extension as written: an own entry as
      itself, a built-in function as its source text, `__proto__` (Object.prototype itself) as
      `[object Object]`. Only an own entry ends in a letter. */
  function ExtensionText(v: LookupValue): (text: string)
    ensures v.OwnExtension? ==> text == v.ext
    ensures v.InheritedMember? ==> text != [] && (text[|text| - 1] == '}' || text[|text| - 1] == ']')
  {
    match v
    case OwnExtension(ext) => ext
    case InheritedMember(name) =>
      if name == "__proto__" then "[object Object]"
      else if name == "constructor" then "function Object() { [native code] }"
      else "function " + name + "() { [native code] }"
    case NoProperty => "undefined"
  }

  /** Line 51 as written: the key built from the extension of line 37 as written. */
  function FileKeyAsWritten(userId: string, starId: string, timestamp: nat, randomStr: string, dataUrl: string): string {
    FileKey(userId, starId, timestamp, randomStr, ExtensionText(ExtensionAsWritten(dataUrl)))
  }

  /** The written key and the corrected one agree unless the MIME type names an inherited member. */
  lemma FileKeyAsWrittenAgrees(userId: string, starId: string, timestamp: nat, randomStr: string, dataUrl: string)
    requires !JsObjects.IsInherited(ExtensionMime(dataUrl))
    ensures FileKeyAsWritten(userId, starId, timestamp, randomStr, dataUrl)
         == FileKey(userId, starId, timestamp, randomStr, Extension(dataUrl))
  {
    ExtensionAgreesWithWritten(dataUrl);
  }

  /** `file.name && !file.name.endsWith('/')` (line 114). */
  predicate IsFileName(name: string) {
    name != "" && !EndsWith(name, "/")
  }

  /** A saved image's name passes the filter of `getImage`. */
  lemma SavedNameIsListed(timestamp: nat, randomStr: string, dataUrl: string)
    ensures IsFileName(FileName(timestamp, randomStr, Extension(dataUrl)))
  {
    var ext := Extension(dataUrl);
    var name := FileName(timestamp, randomStr, ext);
    assert name[|name| - 1] == ext[|ext| - 1];
  }

  /** Distinct users, or distinct stars of one user, never share a folder, as long as user ids
      hold no `/`. */
  lemma FolderPathInjective(user1: string, star1: string, user2: string, star2: string)
    requires '/' !in user1 && '/' !in user2
    requires FolderPath(user1, star1) == FolderPath(user2, star2)
    ensures user1 == user2 && star1 == star2
  {
    var p := FolderPath(user1, star1);
    var q1, q2 := star1 + "/", star2 + "/";
    assert p == user1 + ['/'] + q1 && p == user2 + ['/'] + q2;
    IndexOfAfter(user1, '/', q1);
    IndexOfAfter(user2, '/', q2);
    assert user1 == p[..|user1|] && user2 == p[..|user2|];
    assert q1 == p[|user1| + 1..] == q2;
    assert star1 == q1[..|star1|] && star2 == q2[..|star2|];
  }

  // ---------------------------------------------------------------------------------------
  // saveImage

  /** Why `saveImage` rejects. */
  datatype SaveError =
    | DecodeFailed                    // `atob` threw
    | UploadFailed(error: StorageError)
    | NoPublicUrl                     // "Failed to get public URL for uploaded image"

  /** What is handed to the upload call. */
  datatype Upload = Upload(fileName: string, blob: Blob, contentType: string)

  /** Lines 45-84. `atob` (None when it throws), the upload's error and the public URL the
      vendor gives a key (`""` for none) are parameters. The key and the blob are built first; a
      failed decode of the payload rejects before any upload; an upload error or an empty public
      URL rejects after it. The key uses the corrected extension, which is the key of line 51
      whenever the MIME type names no Object.prototype member. */
  method SaveImage(userId: string, starId: string, imageData: string, timestamp: nat,
                   randomStr: string, atob: string -> Option<string>, uploadError: Option<StorageError>,
                   publicUrl: string -> string)
    returns (upload: Option<Upload>, outcome: Result<string, SaveError>)
    ensures atob(Payload(imageData)).None? ==> upload.None? && outcome == Err(DecodeFailed)
    ensures atob(Payload(imageData)).Some? ==> upload.Some?
    ensures upload.Some? ==>
      && upload.value.fileName == FileKey(userId, starId, timestamp, randomStr, Extension(imageData))
      && upload.value.blob == Blob(BytesOf(atob(Payload(imageData)).value), BlobType(BlobMime(imageData)))
      && upload.value.contentType == upload.value.blob.mimeType
    ensures upload.Some? && !JsObjects.IsInherited(ExtensionMime(imageData)) ==>
      upload.value.fileName == FileKeyAsWritten(userId, starId, timestamp, randomStr, imageData)
    ensures upload.Some? && uploadError.Some? ==> outcome == Err(UploadFailed(uploadError.value))
    ensures upload.Some? && uploadError.None? ==>
      outcome == if publicUrl(upload.value.fileName) == "" then Err(NoPublicUrl)
                 else Ok(publicUrl(upload.value.fileName))
  {
    var ext := Extension(imageData);
    var fileName := FileKey(userId, starId, timestamp, randomStr, ext);
    if !JsObjects.IsInherited(ExtensionMime(imageData)) {
      FileKeyAsWrittenAgrees(userId, starId, timestamp, randomStr, imageData);
    }
    var decoded := atob(Payload(imageData));
    if decoded.None? {
      return None, Err(DecodeFailed);
    }
    var blob := DataUrlToBlob(imageData, decoded.value);
    upload := Some(Upload(fileName, blob, blob.mimeType));
    if uploadError.Some? {
      return upload, Err(UploadFailed(uploadError.value));
    }
    var url := publicUrl(fileName);
    if url == "" {
      return upload, Err(NoPublicUrl);
    }
    outcome := Ok(url);
  }

  // ---------------------------------------------------------------------------------------
  // getImage

  /** The first `filter` of lines 113-121. */
  function KeptFiles(files: seq<StorageObject>): (r: seq<StorageObject>)
    ensures |r| <= |files|
    ensures forall k | 0 <= k < |r| :: IsFileName(r[k].name) && r[k] in files
  {
    if files == [] then []
    else (if IsFileName(files[0].name) then [files[0]] else []) + KeptFiles(files[1..])
  }

  /** The `map`: each kept file's public URL, `""` when there is none. */
  function PublicUrls(folder: string, files: seq<StorageObject>, publicUrl: string -> string): (r: seq<string>)
    ensures |r| == |files|
    ensures forall k | 0 <= k < |r| :: r[k] == publicUrl(folder + files[k].name)
  {
    seq(|files|, k requires 0 <= k < |files| => publicUrl(folder + files[k].name))
  }

  /** The last `filter`: drop the empty URLs. */
  function NonEmptyUrls(urls: seq<string>): (r: seq<string>)
    ensures |r| <= |urls|
    ensures forall k | 0 <= k < |r| :: r[k] != "" && r[k] in urls
  {
    if urls == [] then []
    else (if urls[0] != "" then [urls[0]] else []) + NonEmptyUrls(urls[1..])
  }

  /** Lines 113-121: the pipeline. */
  function ImageUrls(folder: string, files: seq<StorageObject>, publicUrl: string -> string): (r: seq<string>)
    ensures |r| <= |files|
    ensures forall k | 0 <= k < |r| :: r[k] != ""
  {
    NonEmptyUrls(PublicUrls(folder, KeptFiles(files), publicUrl))
  }

  /** What one listed file contributes: its URL, if it passes the name filter and has one. */
  function UrlOf(folder: string, file: StorageObject, publicUrl: string -> string): seq<string> {
    if IsFileName(file.name) && publicUrl(folder + file.name) != "" then [publicUrl(folder + file.name)]
    else []
  }

  /** The pipeline in one pass, file by file in listing order. */
  function UrlsFileByFile(folder: string, files: seq<StorageObject>, publicUrl: string -> string): seq<string> {
    if files == [] then [] else UrlOf(folder, files[0], publicUrl) + UrlsFileByFile(folder, files[1..], publicUrl)
  }

  lemma {:induction false} NonEmptyUrlsAppend(a: seq<string>, b: seq<string>)
    ensures NonEmptyUrls(a + b) == NonEmptyUrls(a) + NonEmptyUrls(b)
    decreases |a|
  {
    if a != [] {
      assert (a + b)[1..] == a[1..] + b;
      NonEmptyUrlsAppend(a[1..], b);
    } else {
      assert a + b == b;
    }
  }

  /** The three stages together agree with the one-pass reading: the URLs come one per listed
      file that survives both filters, in listing order. */
  lemma {:induction false} ImageUrlsFileByFile(folder: string, files: seq<StorageObject>, publicUrl: string -> string)
    ensures ImageUrls(folder, files, publicUrl) == UrlsFileByFile(folder, files, publicUrl)
    decreases |files|
  {
    if files != [] {
      ImageUrlsFileByFile(folder, files[1..], publicUrl);
      var head := if IsFileName(files[0].name) then [files[0]] else [];
      var mapped := PublicUrls(folder, KeptFiles(files), publicUrl);
      var mappedHead := PublicUrls(folder, head, publicUrl);
      var mappedTail := PublicUrls(folder, KeptFiles(files[1..]), publicUrl);
      assert mapped == mappedHead + mappedTail;
      NonEmptyUrlsAppend(mappedHead, mappedTail);
      assert NonEmptyUrls(mappedHead) == UrlOf(folder, files[0], publicUrl);
    }
  }

  /** Listing more files appends their URLs: the pipeline preserves listing order. */
  lemma {:induction false} UrlsFileByFileAppend(folder: string, a: seq<StorageObject>, b: seq<StorageObject>, publicUrl: string -> string)
    ensures UrlsFileByFile(folder, a + b, publicUrl) == UrlsFileByFile(folder, a, publicUrl) + UrlsFileByFile(folder, b, publicUrl)
    decreases |a|
  {
    if a != [] {
      assert (a + b)[1..] == a[1..] + b;
      UrlsFileByFileAppend(folder, a[1..], b, publicUrl);
    } else {
      assert a + b == b;
    }
  }

  /** Lines 90-129: a failed listing, or an empty one, yields no URL; otherwise the pipeline. */
  function GetImage(userId: string, starId: string, listing: Listing<StorageObject>, publicUrl: string -> string): (urls: seq<string>)
    ensures listing.ListFailed? ==> urls == []
    ensures |urls| <= |EntriesOf(listing)|
    ensures forall k | 0 <= k < |urls| :: urls[k] != ""
  {
    match listing
    case ListFailed(_) => []
    case Listed(files) => if |files| == 0 then [] else ImageUrls(FolderPath(userId, starId), files, publicUrl)
  }

  /** Round trip: a folder listing that holds the image `saveImage` stored, among any other
      entries, yields that image's URL, whenever the vendor gives one, in its listing place. */
  lemma GetImageFindsSavedImage(userId: string, starId: string, timestamp: nat, randomStr: string,
                                dataUrl: string, before: seq<StorageObject>, file: StorageObject,
                                after: seq<StorageObject>, publicUrl: string -> string)
    requires file.name == FileName(timestamp, randomStr, Extension(dataUrl))
    requires publicUrl(FileKey(userId, starId, timestamp, randomStr, Extension(dataUrl))) != ""
    ensures GetImage(userId, starId, Listed(before + [file] + after), publicUrl)
         == UrlsFileByFile(FolderPath(userId, starId), before, publicUrl)
          + [publicUrl(FileKey(userId, starId, timestamp, randomStr, Extension(dataUrl)))]
          + UrlsFileByFile(FolderPath(userId, starId), after, publicUrl)
  {
    var folder := FolderPath(userId, starId);
    SavedNameIsListed(timestamp, randomStr, dataUrl);
    ImageUrlsFileByFile(folder, before + [file] + after, publicUrl);
    UrlsFileByFileAppend(folder, before + [file], after, publicUrl);
    UrlsFileByFileAppend(folder, before, [file], publicUrl);
    assert UrlsFileByFile(folder, [file], publicUrl) == UrlOf(folder, file, publicUrl);
  }

  // ---------------------------------------------------------------------------------------
  // deleteImage

  /** Lines 134-175, up to the remove call: the paths handed to `remove`, if it is called. A
      listing error leaves `files` empty. With an index, only an entry that exists is removed;
      without one, every listed entry is. */
  function DeleteRequest(userId: string, starId: string, imageIndex: Option<int>,
                         listing: Listing<StorageObject>): (paths: Option<seq<string>>)
    ensures listing.ListFailed? ==> paths.None?
    ensures imageIndex.Some? ==>
      (paths.Some? <==> 0 <= imageIndex.value < |EntriesOf(listing)|)
    ensures imageIndex.Some? && paths.Some? ==>
      paths.value == [FolderPath(userId, starId) + EntriesOf(listing)[imageIndex.value].name]
    ensures imageIndex.None? ==> (paths.Some? <==> |EntriesOf(listing)| > 0)
    ensures imageIndex.None? && paths.Some? ==>
      |paths.value| == |EntriesOf(listing)| &&
      forall k | 0 <= k < |paths.value| :: paths.value[k] == FolderPath(userId, starId) + EntriesOf(listing)[k].name
  {
    var folder := FolderPath(userId, starId);
    var files := EntriesOf(listing);
    match imageIndex
    case Some(i) => if 0 <= i < |files| then Some([folder + files[i].name]) else None
    case None =>
      if |files| > 0 then Some(seq(|files|, k requires 0 <= k < |files| => folder + files[k].name))
      else None
  }

  /** The rest of lines 134-175: a remove error rejects; no remove call never fails. */
  function DeleteImage(userId: string, starId: string, imageIndex: Option<int>,
                       listing: Listing<StorageObject>, removeError: Option<StorageError>): (r: Result<(), StorageError>)
    ensures r.Err? <==> DeleteRequest(userId, starId, imageIndex, listing).Some? && removeError.Some?
    ensures r.Err? ==> r.error == removeError.value
  {
    if DeleteRequest(userId, starId, imageIndex, listing).Some? && removeError.Some? then Err(removeError.value)
    else Ok(())
  }

  /** Every path `deleteImage` removes lies in the star's folder. */
  lemma DeletedPathsInFolder(userId: string, starId: string, imageIndex: Option<int>,
                             listing: Listing<StorageObject>)
    requires DeleteRequest(userId, starId, imageIndex, listing).Some?
    ensures forall k | 0 <= k < |DeleteRequest(userId, starId, imageIndex, listing).value| ::
      StartsWith(DeleteRequest(userId, starId, imageIndex, listing).value[k], FolderPath(userId, starId))
  {
    var paths := DeleteRequest(userId, starId, imageIndex, listing).value;
    var folder := FolderPath(userId, starId);
    forall k | 0 <= k < |paths| ensures StartsWith(paths[k], folder) {
      var name := if imageIndex.Some? then EntriesOf(listing)[imageIndex.value].name else EntriesOf(listing)[k].name;
      assert paths[k] == folder + name;
      assert (folder + name)[..|folder|] == folder;
    }
  }
}
