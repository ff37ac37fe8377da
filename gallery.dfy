/** The public gallery of services/galleryService.ts: `getAllImages` and `getAllVideos` walk
    the bucket's user folders, their star folders and their files, keep the media files,
    record where each came from, and return the newest ones first, up to a limit. The two
    functions differ only in their bucket, file pattern, item type and default limit, so both
    are one method over the media type. The bucket is given as a tree of the answers its list
    calls return; the vendor's URL function and the clock are parameters. */
module Gallery {
  import opened Wrappers
  import opened Text
  import opened Bucket
  import ImageStorage
  import JsObjects

  datatype MediaType = Image | Video

  /** One gallery entry (lines 6-12); `createdAt` is a time in milliseconds. */
  datatype GalleryItem = GalleryItem(
    url: string,
    mediaType: MediaType,
    userId: Option<string>,
    starId: Option<string>,
    createdAt: Option<int>)

  /** A star folder and what listing it returns. */
  datatype StarFolder = StarFolder(entry: StorageObject, files: Listing<StorageObject>)

  /** A user folder and what listing it returns. */
  datatype UserFolder = UserFolder(entry: StorageObject, starFolders: Listing<StarFolder>)

  const DefaultImageLimit := 20
  const DefaultVideoLimit := 10

  // ---------------------------------------------------------------------------------------
  // Filters

  /** Lines 57, 80, 186 and 209: a folder is walked when its name is non-empty and has no `.`. */
  predicate IsFolderName(name: string) {
    name != "" && '.' !in name
  }

  /** `/\.(jpg|jpeg|png|webp|gif)$/i` and `/\.(mp4|webm|mov)$/i`. */
  predicate HasMediaExtension(kind: MediaType, name: string) {
    match kind
    case Image =>
      || EndsWithIgnoringCase(name, ".jpg") || EndsWithIgnoringCase(name, ".jpeg")
      || EndsWithIgnoringCase(name, ".png") || EndsWithIgnoringCase(name, ".webp")
      || EndsWithIgnoringCase(name, ".gif")
    case Video =>
      EndsWithIgnoringCase(name, ".mp4") || EndsWithIgnoringCase(name, ".webm") || EndsWithIgnoringCase(name, ".mov")
  }

  /** Lines 105 and 234: a non-empty name, not ending in `/`, that ends in one of the media
      type's extensions, ignoring ASCII case. */
  predicate IsMediaFile(kind: MediaType, name: string) {
    name != "" && !EndsWith(name, "/") && HasMediaExtension(kind, name)
  }

  /** Lines 34-38: the root-listing errors the source treats as an access-control refusal. */
  predicate AccessDenied(error: StorageError) {
    || (error.message.Some? && Includes(error.message.value, "row-level security"))
    || (error.message.Some? && Includes(error.message.value, "permission"))
    || (error.message.Some? && Includes(error.message.value, "policy"))
    || error.statusCode == Some(StatusText("403"))
    || error.statusCode == Some(StatusNumber(403))
  }

  /** Lines 119 and 248: `created_at || updated_at || now`. */
  function CreatedAt(file: StorageObject, now: int): (t: int)
    ensures file.createdAt.Some? ==> t == file.createdAt.value
    ensures file.createdAt.None? && file.updatedAt.Some? ==> t == file.updatedAt.value
    ensures file.createdAt.None? && file.updatedAt.None? ==> t == now
  {
    file.createdAt.GetOr(file.updatedAt.GetOr(now))
  }

  // ---------------------------------------------------------------------------------------
  // The walk, as specification functions over the tree

  /** The items `f` gives each element of `xs`, in order: a `for ... of` loop that pushes. */
  function FlatMap<T>(xs: seq<T>, f: T -> seq<GalleryItem>): seq<GalleryItem>
    decreases |xs|
  {
    if xs == [] then [] else FlatMap(xs[..|xs| - 1], f) + f(xs[|xs| - 1])
  }

  lemma {:induction false} FlatMapAppend<T>(a: seq<T>, b: seq<T>, f: T -> seq<GalleryItem>)
    ensures FlatMap(a + b, f) == FlatMap(a, f) + FlatMap(b, f)
    decreases |b|
  {
    if b == [] {
      assert a + b == a;
    } else {
      assert (a + b)[..|a + b| - 1] == a + b[..|b| - 1];
      FlatMapAppend(a, b[..|b| - 1], f);
    }
  }

  /** An element that contributes nothing can be dropped. */
  lemma FlatMapSkip<T>(before: seq<T>, x: T, after: seq<T>, f: T -> seq<GalleryItem>)
    requires f(x) == []
    ensures FlatMap(before + [x] + after, f) == FlatMap(before, f) + FlatMap(after, f)
  {
    FlatMapAppend(before + [x], after, f);
    FlatMapAppend(before, [x], f);
    assert FlatMap([x], f) == FlatMap([x][..0], f) + f(x);
  }

  /** At most one item per element gives at most one item per element in all. */
  lemma {:induction false} FlatMapAtMostOne<T>(xs: seq<T>, f: T -> seq<GalleryItem>)
    requires forall x :: |f(x)| <= 1
    ensures |FlatMap(xs, f)| <= |xs|
    decreases |xs|
  {
    if xs != [] {
      FlatMapAtMostOne(xs[..|xs| - 1], f);
    }
  }

  /** Whatever `f` gives each element holds of every item. */
  lemma {:induction false} FlatMapItems<T>(xs: seq<T>, f: T -> seq<GalleryItem>, p: GalleryItem -> bool)
    requires forall i | 0 <= i < |xs| :: forall k | 0 <= k < |f(xs[i])| :: p(f(xs[i])[k])
    ensures forall k | 0 <= k < |FlatMap(xs, f)| :: p(FlatMap(xs, f)[k])
    decreases |xs|
  {
    if xs != [] {
      FlatMapItems(xs[..|xs| - 1], f, p);
    }
  }

  /** What one file contributes (lines 103-125): an item when it is a media file of the kind
      and the vendor gives its path a public URL. */
  function FileItems(kind: MediaType, userName: string, starName: string, file: StorageObject,
                     publicUrl: string -> string, now: int): (r: seq<GalleryItem>)
    ensures |r| <= 1
  {
    if IsMediaFile(kind, file.name) && publicUrl(userName + "/" + starName + "/" + file.name) != "" then
      [GalleryItem(publicUrl(userName + "/" + starName + "/" + file.name), kind, Some(userName),
                   Some(starName), Some(CreatedAt(file, now)))]
    else []
  }

  /** An item the walk built from a file of `userName`'s folder `starName`. */
  predicate ItemFrom(kind: MediaType, userName: string, starName: string, item: GalleryItem) {
    && item.url != "" && item.mediaType == kind && item.createdAt.Some?
    && item.userId == Some(userName) && item.starId == Some(starName)
  }

  /** The items of a star folder's files, in listing order. */
  function FromFiles(kind: MediaType, userName: string, starName: string, files: seq<StorageObject>,
                     publicUrl: string -> string, now: int): seq<GalleryItem>
  {
    FlatMap(files, file => FileItems(kind, userName, starName, file, publicUrl, now))
  }

  /** Lines 79-126 for one star folder: a skipped name, a failed listing or an empty one add
      nothing. */
  function FromStarFolder(kind: MediaType, userName: string, folder: StarFolder,
                          publicUrl: string -> string, now: int): seq<GalleryItem> {
    if !IsFolderName(folder.entry.name) then []
    else
      match folder.files
      case ListFailed(_) => []
      case Listed(files) =>
        if |files| == 0 then [] else FromFiles(kind, userName, folder.entry.name, files, publicUrl, now)
  }

  /** An item of `userName`'s folder, from a star folder the walk enters. */
  predicate ItemOfUser(kind: MediaType, userName: string, item: GalleryItem) {
    && item.url != "" && item.mediaType == kind && item.createdAt.Some?
    && item.userId == Some(userName) && item.starId.Some? && IsFolderName(item.starId.value)
  }

  /** The items of a user folder's star folders, in listing order. */
  function FromStars(kind: MediaType, userName: string, folders: seq<StarFolder>,
                     publicUrl: string -> string, now: int): seq<GalleryItem>
  {
    FlatMap(folders, folder => FromStarFolder(kind, userName, folder, publicUrl, now))
  }

  /** Lines 56-127 for one user folder. */
  function FromUserFolder(kind: MediaType, folder: UserFolder, publicUrl: string -> string, now: int): seq<GalleryItem> {
    if !IsFolderName(folder.entry.name) then []
    else
      match folder.starFolders
      case ListFailed(_) => []
      case Listed(stars) =>
        if |stars| == 0 then [] else FromStars(kind, folder.entry.name, stars, publicUrl, now)
  }

  /** What every gallery item is: a non-empty URL of the requested type, with a time, from a
      user folder and a star folder the walk may enter. */
  predicate WellFormed(kind: MediaType, item: GalleryItem) {
    && item.url != "" && item.mediaType == kind && item.createdAt.Some?
    && item.userId.Some? && IsFolderName(item.userId.value)
    && item.starId.Some? && IsFolderName(item.starId.value)
  }

  /** Every item of all user folders, in listing order (the `allImages` array). */
  function FromUsers(kind: MediaType, folders: seq<UserFolder>, publicUrl: string -> string, now: int): seq<GalleryItem>
  {
    FlatMap(folders, folder => FromUserFolder(kind, folder, publicUrl, now))
  }

  /** Every item of a star folder carries the folder's user and star, the requested type, a
      non-empty URL and a time; there is at most one per listed file. */
  lemma FromFilesItems(kind: MediaType, userName: string, starName: string,
                       files: seq<StorageObject>, publicUrl: string -> string, now: int)
    ensures |FromFiles(kind, userName, starName, files, publicUrl, now)| <= |files|
    ensures var r := FromFiles(kind, userName, starName, files, publicUrl, now);
      forall k | 0 <= k < |r| :: ItemFrom(kind, userName, starName, r[k])
  {
    var f := file => FileItems(kind, userName, starName, file, publicUrl, now);
    FlatMapAtMostOne(files, f);
    FlatMapItems(files, f, item => ItemFrom(kind, userName, starName, item));
  }

  lemma FromStarsItems(kind: MediaType, userName: string, folders: seq<StarFolder>,
                       publicUrl: string -> string, now: int)
    ensures var r := FromStars(kind, userName, folders, publicUrl, now);
      forall k | 0 <= k < |r| :: ItemOfUser(kind, userName, r[k])
  {
    var f := folder => FromStarFolder(kind, userName, folder, publicUrl, now);
    forall i | 0 <= i < |folders| ensures forall k | 0 <= k < |f(folders[i])| :: ItemOfUser(kind, userName, f(folders[i])[k]) {
      var folder := folders[i];
      if IsFolderName(folder.entry.name) && folder.files.Listed? {
        FromFilesItems(kind, userName, folder.entry.name, folder.files.entries, publicUrl, now);
      }
    }
    FlatMapItems(folders, f, item => ItemOfUser(kind, userName, item));
  }

  /** Every item the walk collects is well formed. */
  lemma FromUsersWellFormed(kind: MediaType, folders: seq<UserFolder>, publicUrl: string -> string, now: int)
    ensures var r := FromUsers(kind, folders, publicUrl, now);
      forall k | 0 <= k < |r| :: WellFormed(kind, r[k])
  {
    var f := folder => FromUserFolder(kind, folder, publicUrl, now);
    forall i | 0 <= i < |folders| ensures forall k | 0 <= k < |f(folders[i])| :: WellFormed(kind, f(folders[i])[k]) {
      var folder := folders[i];
      if IsFolderName(folder.entry.name) && folder.starFolders.Listed? {
        FromStarsItems(kind, folder.entry.name, folder.starFolders.entries, publicUrl, now);
      }
    }
    FlatMapItems(folders, f, item => WellFormed(kind, item));
  }

  /** The item the walk builds from file `k` of `userName`'s folder `starName`: a media file of
      the kind, its public URL, its folders and its time. */
  predicate FromMediaFile(kind: MediaType, userName: string, starName: string, files: seq<StorageObject>,
                          publicUrl: string -> string, now: int, item: GalleryItem) {
    exists k | 0 <= k < |files| ::
      && IsMediaFile(kind, files[k].name)
      && item == GalleryItem(publicUrl(userName + "/" + starName + "/" + files[k].name), kind,
                             Some(userName), Some(starName), Some(CreatedAt(files[k], now)))
  }

  /** Every item of a star folder comes from one of its listed media files. */
  lemma FromFilesProvenance(kind: MediaType, userName: string, starName: string,
                            files: seq<StorageObject>, publicUrl: string -> string, now: int)
    ensures var r := FromFiles(kind, userName, starName, files, publicUrl, now);
      forall k | 0 <= k < |r| :: FromMediaFile(kind, userName, starName, files, publicUrl, now, r[k])
  {
    var f := file => FileItems(kind, userName, starName, file, publicUrl, now);
    var p := item => FromMediaFile(kind, userName, starName, files, publicUrl, now, item);
    forall i | 0 <= i < |files| ensures forall k | 0 <= k < |f(files[i])| :: p(f(files[i])[k]) {
      if |f(files[i])| > 0 {
        assert IsMediaFile(kind, files[i].name);
        assert FromMediaFile(kind, userName, starName, files, publicUrl, now, f(files[i])[0]);
      }
    }
    FlatMapItems(files, f, p);
  }

  /** An item that comes from a media file of a star folder the walk enters. */
  predicate FromStarFolders(kind: MediaType, userName: string, folders: seq<StarFolder>,
                            publicUrl: string -> string, now: int, item: GalleryItem) {
    exists j | 0 <= j < |folders| ::
      && IsFolderName(folders[j].entry.name) && folders[j].files.Listed?
      && FromMediaFile(kind, userName, folders[j].entry.name, folders[j].files.entries, publicUrl, now, item)
  }

  lemma FromStarsProvenance(kind: MediaType, userName: string, folders: seq<StarFolder>,
                            publicUrl: string -> string, now: int)
    ensures var r := FromStars(kind, userName, folders, publicUrl, now);
      forall k | 0 <= k < |r| :: FromStarFolders(kind, userName, folders, publicUrl, now, r[k])
  {
    var f := folder => FromStarFolder(kind, userName, folder, publicUrl, now);
    var p := item => FromStarFolders(kind, userName, folders, publicUrl, now, item);
    forall i | 0 <= i < |folders| ensures forall k | 0 <= k < |f(folders[i])| :: p(f(folders[i])[k]) {
      var folder := folders[i];
      if IsFolderName(folder.entry.name) && folder.files.Listed? {
        FromFilesProvenance(kind, userName, folder.entry.name, folder.files.entries, publicUrl, now);
      }
    }
    FlatMapItems(folders, f, p);
  }

  /** An item that comes from a media file of a star folder of a user folder the walk enters. */
  predicate InTree(kind: MediaType, users: seq<UserFolder>, publicUrl: string -> string, now: int,
                   item: GalleryItem) {
    exists i | 0 <= i < |users| ::
      && IsFolderName(users[i].entry.name) && users[i].starFolders.Listed?
      && FromStarFolders(kind, users[i].entry.name, users[i].starFolders.entries, publicUrl, now, item)
  }

  /** Every item the walk collects is built from a listed media file (its name passes the
      pattern of line 105 or 234) in folders the walk enters, with that file's URL and time. */
  lemma FromUsersProvenance(kind: MediaType, users: seq<UserFolder>, publicUrl: string -> string, now: int)
    ensures var r := FromUsers(kind, users, publicUrl, now);
      forall k | 0 <= k < |r| :: InTree(kind, users, publicUrl, now, r[k])
  {
    var f := folder => FromUserFolder(kind, folder, publicUrl, now);
    var p := item => InTree(kind, users, publicUrl, now, item);
    forall i | 0 <= i < |users| ensures forall k | 0 <= k < |f(users[i])| :: p(f(users[i])[k]) {
      var folder := users[i];
      if IsFolderName(folder.entry.name) && folder.starFolders.Listed? {
        FromStarsProvenance(kind, folder.entry.name, folder.starFolders.entries, publicUrl, now);
      }
    }
    FlatMapItems(users, f, p);
  }

  // ---------------------------------------------------------------------------------------
  // Sort and slice

  /** Lines 132-133: the time an item is sorted by; an item without one counts as 0. */
  function SortKey(item: GalleryItem): int {
    item.createdAt.GetOr(0)
  }

  /** Newest first: no item is older than the one after it. */
  predicate NewestFirst(s: seq<GalleryItem>) {
    forall i | 0 <= i < |s| - 1 :: SortKey(s[i]) >= SortKey(s[i + 1])
  }

  /** Newest first, as a statement about every pair. */
  lemma {:induction false} NewestFirstEveryPair(s: seq<GalleryItem>)
    requires NewestFirst(s)
    ensures forall i, j | 0 <= i < j < |s| :: SortKey(s[i]) >= SortKey(s[j])
    decreases |s|
  {
    if |s| > 1 {
      NewestFirstEveryPair(s[1..]);
      forall i, j | 0 <= i < j < |s| ensures SortKey(s[i]) >= SortKey(s[j]) {
        if i > 0 {
          assert s[i] == s[1..][i - 1] && s[j] == s[1..][j - 1];
        } else if j > 1 {
          assert s[j] == s[1..][j - 1] && s[1] == s[1..][0];
        }
      }
    }
  }

  /** `x` placed after every item of `sorted` that is at least as new: a later item with an
      equal time stays behind the earlier ones. */
  function InsertNewestFirst(sorted: seq<GalleryItem>, x: GalleryItem): (r: seq<GalleryItem>)
    ensures |r| == |sorted| + 1
    ensures multiset(r) == multiset(sorted) + multiset{x}
    ensures r[0] == x || (sorted != [] && r[0] == sorted[0])
    decreases |sorted|
  {
    if sorted == [] then [x]
    else if SortKey(sorted[0]) >= SortKey(x) then
      assert sorted == [sorted[0]] + sorted[1..];
      [sorted[0]] + InsertNewestFirst(sorted[1..], x)
    else
      [x] + sorted
  }

  lemma {:induction false} InsertKeepsNewestFirst(sorted: seq<GalleryItem>, x: GalleryItem)
    requires NewestFirst(sorted)
    ensures NewestFirst(InsertNewestFirst(sorted, x))
    decreases |sorted|
  {
    if sorted != [] && SortKey(sorted[0]) >= SortKey(x) {
      var rest := InsertNewestFirst(sorted[1..], x);
      NewestFirstTail(sorted);
      InsertKeepsNewestFirst(sorted[1..], x);
      var r := [sorted[0]] + rest;
      forall i | 0 <= i < |r| - 1 ensures SortKey(r[i]) >= SortKey(r[i + 1]) {
        if i > 0 {
          assert r[i] == rest[i - 1] && r[i + 1] == rest[i];
        }
      }
    }
  }

  /** Lines 130-135 with Array.prototype.sort, which is stable: equal times keep their order. */
  function SortNewestFirst(s: seq<GalleryItem>): (r: seq<GalleryItem>)
    ensures |r| == |s|
    ensures multiset(r) == multiset(s)
    decreases |s|
  {
    if s == [] then []
    else
      assert s == s[..|s| - 1] + [s[|s| - 1]];
      InsertNewestFirst(SortNewestFirst(s[..|s| - 1]), s[|s| - 1])
  }

  /** The sort leaves the items newest first. */
  lemma {:induction false} SortIsNewestFirst(s: seq<GalleryItem>)
    ensures NewestFirst(SortNewestFirst(s))
    decreases |s|
  {
    if s != [] {
      SortIsNewestFirst(s[..|s| - 1]);
      InsertKeepsNewestFirst(SortNewestFirst(s[..|s| - 1]), s[|s| - 1]);
    }
  }

  /** The items with time `t`, in order. */
  function WithKey(s: seq<GalleryItem>, t: int): seq<GalleryItem>
    decreases |s|
  {
    if s == [] then [] else (if SortKey(s[0]) == t then [s[0]] else []) + WithKey(s[1..], t)
  }

  lemma {:induction false} WithKeyAppend(a: seq<GalleryItem>, b: seq<GalleryItem>, t: int)
    ensures WithKey(a + b, t) == WithKey(a, t) + WithKey(b, t)
    decreases |a|
  {
    if a != [] {
      assert (a + b)[1..] == a[1..] + b;
      WithKeyAppend(a[1..], b, t);
    } else {
      assert a + b == b;
    }
  }

  lemma {:induction false} WithKeyNone(s: seq<GalleryItem>, t: int)
    requires forall i | 0 <= i < |s| :: SortKey(s[i]) < t
    ensures WithKey(s, t) == []
    decreases |s|
  {
    if s != [] {
      WithKeyNone(s[1..], t);
    }
  }

  /** The tail of a newest-first sequence is newest first. */
  lemma NewestFirstTail(s: seq<GalleryItem>)
    requires NewestFirst(s) && s != []
    ensures NewestFirst(s[1..])
  {
    forall i | 0 <= i < |s[1..]| - 1 ensures SortKey(s[1..][i]) >= SortKey(s[1..][i + 1]) {
      assert s[1..][i] == s[i + 1] && s[1..][i + 1] == s[i + 2];
    }
  }

  /** In a newest-first sequence no item is newer than the first. */
  lemma NoneNewerThanHead(s: seq<GalleryItem>, t: int)
    requires NewestFirst(s) && s != [] && SortKey(s[0]) < t
    ensures WithKey(s, t) == []
  {
    NewestFirstEveryPair(s);
    assert forall i | 0 <= i < |s| :: SortKey(s[i]) <= SortKey(s[0]);
    WithKeyNone(s, t);
  }

  /** An item newer than every item of a newest-first sequence goes in front of it. */
  lemma InsertInFront(sorted: seq<GalleryItem>, x: GalleryItem, t: int)
    requires NewestFirst(sorted) && sorted != [] && SortKey(sorted[0]) < SortKey(x)
    ensures WithKey([x] + sorted, t) == WithKey(sorted, t) + (if SortKey(x) == t then [x] else [])
  {
    assert ([x] + sorted)[1..] == sorted;
    if SortKey(x) == t {
      NoneNewerThanHead(sorted, t);
      assert WithKey([x] + sorted, t) == [x] + WithKey(sorted, t);
    } else {
      assert WithKey([x] + sorted, t) == WithKey(sorted, t);
    }
  }

  /** Putting the same item in front of two sequences keeps any relation between their items of
      time `t`. */
  lemma WithKeyCons(y: GalleryItem, s: seq<GalleryItem>, rest: seq<GalleryItem>, tail: seq<GalleryItem>, t: int)
    requires WithKey(rest, t) == WithKey(s, t) + tail
    ensures WithKey([y] + rest, t) == WithKey([y] + s, t) + tail
  {
    var head := if SortKey(y) == t then [y] else [];
    assert ([y] + rest)[1..] == rest;
    assert ([y] + s)[1..] == s;
    assert WithKey([y] + rest, t) == head + WithKey(rest, t);
    assert WithKey([y] + s, t) == head + WithKey(s, t);
  }

  lemma {:induction false} InsertKeepsOrderOfEqualTimes(sorted: seq<GalleryItem>, x: GalleryItem, t: int)
    requires NewestFirst(sorted)
    ensures WithKey(InsertNewestFirst(sorted, x), t)
         == WithKey(sorted, t) + (if SortKey(x) == t then [x] else [])
    decreases |sorted|
  {
    if sorted == [] {
    } else if SortKey(sorted[0]) >= SortKey(x) {
      NewestFirstTail(sorted);
      InsertKeepsOrderOfEqualTimes(sorted[1..], x, t);
      WithKeyCons(sorted[0], sorted[1..], InsertNewestFirst(sorted[1..], x), if SortKey(x) == t then [x] else [], t);
      assert [sorted[0]] + sorted[1..] == sorted;
    } else {
      InsertInFront(sorted, x, t);
    }
  }

  /** The items of time `t` of a sequence, read off its last element. */
  lemma WithKeyLast(s: seq<GalleryItem>, t: int)
    requires s != []
    ensures WithKey(s, t) == WithKey(s[..|s| - 1], t) + (if SortKey(s[|s| - 1]) == t then [s[|s| - 1]] else [])
  {
    var init, last := s[..|s| - 1], s[|s| - 1];
    assert s == init + [last];
    WithKeyAppend(init, [last], t);
    assert WithKey([last], t) == (if SortKey(last) == t then [last] else []) + WithKey([], t);
  }

  /** The sort is stable: the items of any one time come out in their original order. With
      NewestFirst and the multiset equality this pins the result down completely. */
  lemma {:induction false} SortIsStable(s: seq<GalleryItem>, t: int)
    ensures WithKey(SortNewestFirst(s), t) == WithKey(s, t)
    decreases |s|
  {
    if s != [] {
      var init := s[..|s| - 1];
      SortIsStable(init, t);
      SortIsNewestFirst(init);
      InsertKeepsOrderOfEqualTimes(SortNewestFirst(init), s[|s| - 1], t);
      WithKeyLast(s, t);
    }
  }

  /** Line 136's `slice(0, limit)`: a negative limit counts from the end. */
  function SliceToLimit(s: seq<GalleryItem>, limit: int): (r: seq<GalleryItem>)
    ensures |r| == if limit < 0 then (if |s| + limit < 0 then 0 else |s| + limit)
                   else (if limit < |s| then limit else |s|)
    ensures r == s[..|r|]
  {
    var end := if limit < 0 then (if |s| + limit < 0 then 0 else |s| + limit)
               else (if limit < |s| then limit else |s|);
    s[..end]
  }

  /** Lines 17-141 and 146-270 as one value: nothing on a root-listing error (the access-denied
      error thrown at line 40 is caught at line 137) or an empty root; otherwise the newest
      items first, sliced to the limit. */
  function Gallery(kind: MediaType, root: Listing<UserFolder>, publicUrl: string -> string,
                   now: int, limit: int): seq<GalleryItem> {
    match root
    case ListFailed(_) => []
    case Listed(users) =>
      if |users| == 0 then [] else SliceToLimit(SortNewestFirst(FromUsers(kind, users, publicUrl, now)), limit)
  }

  // ---------------------------------------------------------------------------------------
  // The walk, as the source runs it

  lemma FlatMapStep<T>(xs: seq<T>, i: nat, f: T -> seq<GalleryItem>)
    requires i < |xs|
    ensures FlatMap(xs[..i + 1], f) == FlatMap(xs[..i], f) + f(xs[i])
  {
    assert xs[..i + 1][..i] == xs[..i];
  }

  /** Pushing one folder's items onto what the earlier folders gave. */
  lemma AppendStep(all0: seq<GalleryItem>, done: seq<GalleryItem>, next: seq<GalleryItem>,
                   before: seq<GalleryItem>, after: seq<GalleryItem>)
    requires before == all0 + done && after == before + next
    ensures after == all0 + (done + next)
  {
  }

  /** One turn of the loop over user folders. */
  lemma FromUsersStep(kind: MediaType, users: seq<UserFolder>, i: nat, publicUrl: string -> string, now: int)
    requires i < |users|
    ensures FromUsers(kind, users[..i + 1], publicUrl, now)
         == FromUsers(kind, users[..i], publicUrl, now) + FromUserFolder(kind, users[i], publicUrl, now)
  {
    FlatMapStep(users, i, folder => FromUserFolder(kind, folder, publicUrl, now));
  }

  /** One turn of the loop over star folders. */
  lemma FromStarsStep(kind: MediaType, userName: string, stars: seq<StarFolder>, j: nat,
                      publicUrl: string -> string, now: int)
    requires j < |stars|
    ensures FromStars(kind, userName, stars[..j + 1], publicUrl, now)
         == FromStars(kind, userName, stars[..j], publicUrl, now) + FromStarFolder(kind, userName, stars[j], publicUrl, now)
  {
    FlatMapStep(stars, j, folder => FromStarFolder(kind, userName, folder, publicUrl, now));
  }

  /** One turn of the loop over files. */
  lemma FromFilesStep(kind: MediaType, userName: string, starName: string, files: seq<StorageObject>,
                      k: nat, publicUrl: string -> string, now: int)
    requires k < |files|
    ensures FromFiles(kind, userName, starName, files[..k + 1], publicUrl, now)
         == FromFiles(kind, userName, starName, files[..k], publicUrl, now)
            + FileItems(kind, userName, starName, files[k], publicUrl, now)
  {
    FlatMapStep(files, k, file => FileItems(kind, userName, starName, file, publicUrl, now));
  }

  /** The loop of lines 103-125 over one star folder's files: pushes the items onto `all`. */
  method CollectFiles(kind: MediaType, userName: string, starName: string, files: seq<StorageObject>,
                      publicUrl: string -> string, now: int, all0: seq<GalleryItem>)
    returns (all: seq<GalleryItem>)
    ensures all == all0 + FromFiles(kind, userName, starName, files, publicUrl, now)
  {
    all := all0;
    var k := 0;
    while k < |files|
      invariant 0 <= k <= |files|
      invariant all == all0 + FromFiles(kind, userName, starName, files[..k], publicUrl, now)
    {
      FromFilesStep(kind, userName, starName, files, k, publicUrl, now);
      var file := files[k];
      if IsMediaFile(kind, file.name) {
        var url := publicUrl(userName + "/" + starName + "/" + file.name);
        if url != "" {
          all := all + [GalleryItem(url, kind, Some(userName), Some(starName), Some(CreatedAt(file, now)))];
        }
      }
      k := k + 1;
    }
    assert files[..k] == files;
  }

  /** Lines 80-99 for one star folder: skip it, or walk its files. */
  method CollectStarFolder(kind: MediaType, userName: string, starFolder: StarFolder,
                           publicUrl: string -> string, now: int, all0: seq<GalleryItem>)
    returns (all: seq<GalleryItem>)
    ensures all == all0 + FromStarFolder(kind, userName, starFolder, publicUrl, now)
  {
    var starName := starFolder.entry.name;
    if IsFolderName(starName) && starFolder.files.Listed? && |starFolder.files.entries| > 0 {
      all := CollectFiles(kind, userName, starName, starFolder.files.entries, publicUrl, now, all0);
    } else {
      all := all0;
    }
  }

  /** The loop of lines 79-126 over one user folder's star folders. */
  method CollectStars(kind: MediaType, userName: string, stars: seq<StarFolder>,
                      publicUrl: string -> string, now: int, all0: seq<GalleryItem>)
    returns (all: seq<GalleryItem>)
    ensures all == all0 + FromStars(kind, userName, stars, publicUrl, now)
  {
    all := all0;
    var j := 0;
    while j < |stars|
      invariant 0 <= j <= |stars|
      invariant all == all0 + FromStars(kind, userName, stars[..j], publicUrl, now)
    {
      FromStarsStep(kind, userName, stars, j, publicUrl, now);
      ghost var before := all;
      all := CollectStarFolder(kind, userName, stars[j], publicUrl, now, all);
      AppendStep(all0, FromStars(kind, userName, stars[..j], publicUrl, now),
                 FromStarFolder(kind, userName, stars[j], publicUrl, now), before, all);
      j := j + 1;
    }
    assert stars[..j] == stars;
  }

  /** The loop of lines 56-127 over the user folders. */
  method CollectUsers(kind: MediaType, users: seq<UserFolder>, publicUrl: string -> string, now: int)
    returns (all: seq<GalleryItem>)
    ensures all == FromUsers(kind, users, publicUrl, now)
  {
    all := [];
    var i := 0;
    while i < |users|
      invariant 0 <= i <= |users|
      invariant all == FromUsers(kind, users[..i], publicUrl, now)
    {
      FromUsersStep(kind, users, i, publicUrl, now);
      ghost var before := all;
      var userFolder := users[i];
      var userName := userFolder.entry.name;
      if IsFolderName(userName) && userFolder.starFolders.Listed? && |userFolder.starFolders.entries| > 0 {
        all := CollectStars(kind, userName, userFolder.starFolders.entries, publicUrl, now, all);
      }
      assert all == before + FromUserFolder(kind, userFolder, publicUrl, now);
      i := i + 1;
    }
    assert users[..i] == users;
  }

  /** Lines 17-141 (or 146-270): the root listing's error policy, the walk, then the sort and
      the slice. */
  method GetAllMedia(kind: MediaType, root: Listing<UserFolder>, publicUrl: string -> string,
                     now: int, limit: int) returns (items: seq<GalleryItem>)
    ensures items == Gallery(kind, root, publicUrl, now, limit)
  {
    if root.ListFailed? {
      if AccessDenied(root.error) {
        // line 40 throws; the catch of line 137 returns the empty list
        return [];
      }
      return [];
    }
    var users := root.entries;
    if |users| == 0 {
      return [];
    }
    var all := CollectUsers(kind, users, publicUrl, now);
    items := SliceToLimit(SortNewestFirst(all), limit);
  }

  /** `getAllImages(limit = 20)`. */
  method GetAllImages(root: Listing<UserFolder>, publicUrl: string -> string, now: int,
                      limit: int := DefaultImageLimit) returns (items: seq<GalleryItem>)
    ensures items == Gallery(Image, root, publicUrl, now, limit)
  {
    items := GetAllMedia(Image, root, publicUrl, now, limit);
  }

  /** `getAllVideos(limit = 10)`. */
  method GetAllVideos(root: Listing<UserFolder>, publicUrl: string -> string, now: int,
                      limit: int := DefaultVideoLimit) returns (items: seq<GalleryItem>)
    ensures items == Gallery(Video, root, publicUrl, now, limit)
  {
    items := GetAllMedia(Video, root, publicUrl, now, limit);
  }

  // ---------------------------------------------------------------------------------------
  // Properties

  /** Never more items than the limit, and exactly that many when there are enough. */
  lemma GalleryWithinLimit(kind: MediaType, root: Listing<UserFolder>, publicUrl: string -> string,
                           now: int, limit: int)
    requires limit >= 0
    ensures |Gallery(kind, root, publicUrl, now, limit)| <= limit
    ensures root.Listed? ==>
      |Gallery(kind, root, publicUrl, now, limit)|
        == if limit < |FromUsers(kind, root.entries, publicUrl, now)| then limit
           else |FromUsers(kind, root.entries, publicUrl, now)|
  {
  }

  /** A failing root listing, whatever its error, gives an empty gallery. */
  lemma RootErrorGivesNothing(kind: MediaType, error: StorageError, publicUrl: string -> string,
                              now: int, limit: int)
    ensures Gallery(kind, ListFailed(error), publicUrl, now, limit) == []
  {
  }

  /** A prefix of a newest-first sequence is newest first, draws on the sequence's items, and is
      no older than anything the prefix leaves out. */
  lemma NewestFirstPrefix(sorted: seq<GalleryItem>, n: nat)
    requires NewestFirst(sorted) && n <= |sorted|
    ensures NewestFirst(sorted[..n])
    ensures multiset(sorted[..n]) <= multiset(sorted)
    ensures forall i, j | 0 <= i < n <= j < |sorted| :: SortKey(sorted[j]) <= SortKey(sorted[..n][i])
  {
    var g := sorted[..n];
    assert sorted == g + sorted[n..];
    assert multiset(sorted) == multiset(g) + multiset(sorted[n..]);
    assert NewestFirst(g) by {
      forall i | 0 <= i < |g| - 1 ensures SortKey(g[i]) >= SortKey(g[i + 1]) {
        assert g[i] == sorted[i] && g[i + 1] == sorted[i + 1];
      }
    }
    NewestFirstEveryPair(sorted);
  }

  /** The gallery is newest first, every item is well formed, and it keeps the newest items:
      every item left out is no newer than every item shown. */
  lemma GalleryNewestFirst(kind: MediaType, users: seq<UserFolder>, publicUrl: string -> string,
                           now: int, limit: int)
    requires |users| > 0
    ensures var g := Gallery(kind, Listed(users), publicUrl, now, limit);
      && NewestFirst(g)
      && (forall k | 0 <= k < |g| :: WellFormed(kind, g[k]))
      && multiset(g) <= multiset(FromUsers(kind, users, publicUrl, now))
    ensures var sorted := SortNewestFirst(FromUsers(kind, users, publicUrl, now));
      var g := Gallery(kind, Listed(users), publicUrl, now, limit);
      forall i, j | 0 <= i < |g| <= j < |sorted| :: SortKey(sorted[j]) <= SortKey(g[i])
  {
    var all := FromUsers(kind, users, publicUrl, now);
    var sorted := SortNewestFirst(all);
    var g := Gallery(kind, Listed(users), publicUrl, now, limit);
    FromUsersWellFormed(kind, users, publicUrl, now);
    SortIsNewestFirst(all);
    NewestFirstPrefix(sorted, |g|);
    assert g == sorted[..|g|];
    forall k | 0 <= k < |g| ensures WellFormed(kind, g[k]) {
      assert g[k] in multiset(sorted);
      assert g[k] in multiset(all);
    }
  }

  /** Every item of the gallery is built from a listed media file of the tree. */
  lemma GalleryItemsFromMediaFiles(kind: MediaType, users: seq<UserFolder>, publicUrl: string -> string,
                                   now: int, limit: int)
    ensures var g := Gallery(kind, Listed(users), publicUrl, now, limit);
      forall k | 0 <= k < |g| :: InTree(kind, users, publicUrl, now, g[k])
  {
    if |users| > 0 {
      var all := FromUsers(kind, users, publicUrl, now);
      var sorted := SortNewestFirst(all);
      var g := Gallery(kind, Listed(users), publicUrl, now, limit);
      FromUsersProvenance(kind, users, publicUrl, now);
      assert g == sorted[..|g|];
      forall k | 0 <= k < |g| ensures InTree(kind, users, publicUrl, now, g[k]) {
        assert g[k] in multiset(sorted);
        assert g[k] in multiset(all);
      }
    }
  }

  /** Lines 57 and 67-70: a user folder with an unwalkable name or a failing listing is skipped,
      and the folders around it contribute exactly what they would without it. */
  lemma SkippedUserFolder(kind: MediaType, before: seq<UserFolder>, folder: UserFolder,
                          after: seq<UserFolder>, publicUrl: string -> string, now: int)
    requires !IsFolderName(folder.entry.name) || folder.starFolders.ListFailed?
    ensures FromUsers(kind, before + [folder] + after, publicUrl, now)
         == FromUsers(kind, before, publicUrl, now) + FromUsers(kind, after, publicUrl, now)
  {
    FlatMapSkip(before, folder, after, f => FromUserFolder(kind, f, publicUrl, now));
  }

  /** Lines 80 and 91-94: the same for a star folder within a user folder. */
  lemma SkippedStarFolder(kind: MediaType, userName: string, before: seq<StarFolder>, folder: StarFolder,
                          after: seq<StarFolder>, publicUrl: string -> string, now: int)
    requires !IsFolderName(folder.entry.name) || folder.files.ListFailed?
    ensures FromStars(kind, userName, before + [folder] + after, publicUrl, now)
         == FromStars(kind, userName, before, publicUrl, now) + FromStars(kind, userName, after, publicUrl, now)
  {
    FlatMapSkip(before, folder, after, f => FromStarFolder(kind, userName, f, publicUrl, now));
  }

  /** A name ending in `.jpg`, `.png`, `.webp` or `.gif` matches the image pattern. */
  lemma ImageExtensionIsMedia(name: string, ext: string)
    requires ImageStorage.IsImageExtension(ext) && EndsWith(name, "." + ext)
    ensures HasMediaExtension(Image, name)
  {
    if ext == "jpg" {
      assert LowerAsciiString(".jpg") == ".jpg";
      EndsWithIgnoringCaseOf(name, ".jpg");
    } else if ext == "png" {
      assert LowerAsciiString(".png") == ".png";
      EndsWithIgnoringCaseOf(name, ".png");
    } else if ext == "webp" {
      assert LowerAsciiString(".webp") == ".webp";
      EndsWithIgnoringCaseOf(name, ".webp");
    } else {
      assert LowerAsciiString(".gif") == ".gif";
      EndsWithIgnoringCaseOf(name, ".gif");
    }
  }

  /** The name under which an image is saved (ImageStorage.FileKey) is one the image gallery
      shows: it passes the name filter of line 105. */
  lemma SavedImageIsGalleryImage(timestamp: nat, randomStr: string, dataUrl: string)
    ensures IsMediaFile(Image, ImageStorage.FileName(timestamp, randomStr, ImageStorage.Extension(dataUrl)))
  {
    var ext := ImageStorage.Extension(dataUrl);
    ImageStorage.SavedNameIsListed(timestamp, randomStr, dataUrl);
    ImageStorage.FileNameEndsWithExtension(timestamp, randomStr, ext);
    ImageExtensionIsMedia(ImageStorage.FileName(timestamp, randomStr, ext), ext);
  }

  /** A name whose last character is `}` or `]` ends in none of the image extensions. */
  lemma BracketEndIsNoImage(name: string)
    requires name != [] && (name[|name| - 1] == '}' || name[|name| - 1] == ']')
    ensures !HasMediaExtension(Image, name)
  {
    var lower := LowerAsciiString(name);
    assert lower[|lower| - 1] == name[|name| - 1];
  }

  /** As written, the image `saveImage` stores is one the image gallery shows exactly when its
      data URL's MIME type names no Object.prototype member; otherwise the key ends in the
      text of a function or in `[object Object]` and line 105 drops it. */
  lemma SavedImageAsWrittenIsGalleryImage(timestamp: nat, randomStr: string, dataUrl: string)
    ensures IsMediaFile(Image, ImageStorage.FileName(timestamp, randomStr,
                                 ImageStorage.ExtensionText(ImageStorage.ExtensionAsWritten(dataUrl))))
        <==> !JsObjects.IsInherited(ImageStorage.ExtensionMime(dataUrl))
  {
    var text := ImageStorage.ExtensionText(ImageStorage.ExtensionAsWritten(dataUrl));
    var name := ImageStorage.FileName(timestamp, randomStr, text);
    if JsObjects.IsInherited(ImageStorage.ExtensionMime(dataUrl)) {
      assert name[|name| - 1] == text[|text| - 1];
      BracketEndIsNoImage(name);
    } else {
      ImageStorage.ExtensionAgreesWithWritten(dataUrl);
      SavedImageIsGalleryImage(timestamp, randomStr, dataUrl);
    }
  }
}
