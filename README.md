# Star catalogue, image storage and video chamber — a Dafny model

This project models the self-contained logic of a React and Vite web application. The
application shows a catalogue of star systems, lets a signed-in user attach generated images
to stars, keeps those images in a storage bucket and in the browser's local storage, shows a
public gallery of everyone's images and videos, and drives a video-generation chamber. The
model covers six pieces of it:

- **DockerEnv** (`vite.config.ts`): the build configuration's `docker.env` reader. It is a
  `KEY=VALUE` parser that fills in entries of the environment dictionary which are not yet
  set. It then publishes the API key under two compile-time names. The loop is a method with
  a `while` loop, proved against the function `MergeLines`. `MergeLines` is in turn proved
  equal to an independent description (`MergedEntry`: who wins for each key).
- **Sanctuary** (`components/Sanctuary.tsx`): the per-user table of saved images, the merge of
  that table into the catalogue, linking a new image to a star, and the chamber handlers. The
  component is a class (`SanctuaryView`) whose fields are the component state plus the local
  storage. Its invariant says that the catalogue shown is always the one a fresh load would
  build from storage.
- **ImageStorage** (`services/imageStorage.ts`): the MIME-type extraction and the
  MIME-to-extension table, and the byte-copy loop of `dataURLtoBlob` on an array. It also
  covers the object-key convention of `saveImage`, the filter/map/filter pipeline of
  `getImage` and the index guard of `deleteImage`.
- **Gallery** (`services/galleryService.ts`): the walk over user folders, star folders and
  files, as three nested loops in methods. The walk is proved against specification
  functions over a tree of listing answers. The items are then sorted newest first by a
  stable sort and sliced to the limit, under the root listing's error policy.
- **Portal** (`components/Portal.tsx`): the theme tables, the centre star (`polaris`) and the
  orbiting stars.
- **StellarAnimator** (`components/StellarAnimator.tsx`): the status machine of the video
  chamber. Handlers, continuations after an `await` and timer firings are discrete events,
  specified by functions on a state datatype and implemented by a class whose methods update
  its fields.

Supporting modules: `Wrappers` (Option, Result), `Text` provides JavaScript's string operations
(`trim`, `split`, `join`, `indexOf`, `startsWith`, `endsWith`, `includes`, ASCII case folding,
decimal rendering), `JsObjects` (members every plain object inherits), `Types` (the shapes of
`types.ts`) and `Bucket` (what a storage listing returns).

All foreign values are parameters:
- file text;
- the initial environment;
- `atob`'s answer;
- listings, public URLs, timestamps and random strings;
- vendor errors and poll results.

## Model

| member | source | states |
|---|---|---|
| DockerEnv.ParsedEntryShape | vite.config.ts:16-22 | a stored key is non-empty, trimmed and holds no `=`; a stored value is trimmed |
| DockerEnv.ParseLineMeaning | vite.config.ts:16-20 | the split/join parse equals the reading "key before the first `=`, value everything after it, both trimmed; blank and `#` lines give nothing", so values may contain `=` |
| DockerEnv.ParseLine | vite.config.ts:16-20 | no contract; the definition of lines 16-20: trim the line, skip blank and `#` lines, split on `=`, keep the trimmed first part as key and the trimmed rest joined by `=` as value when the key is non-empty and a rest exists (its partner is ParseLineMeaning) |
| DockerEnv.SkippedLine | vite.config.ts:16-19 | a line blank after trimming, starting with `#`, without `=` or with nothing before its first `=` yields no entry |
| DockerEnv.EmptyValueLine | vite.config.ts:20-21 | a line whose text after the first `=` trims to nothing yields an entry with an empty value |
| DockerEnv.InertLineDropped | vite.config.ts:15-26 | a line with no entry or an empty value can be removed from the file without changing the resulting dictionary |
| DockerEnv.InertEntryDropped | vite.config.ts:21-23 | the same for an entry in the sequence of parsed entries |
| DockerEnv.MergeEntriesAppend | vite.config.ts:15-26 | merging two runs of lines is merging the first, then the second |
| DockerEnv.MergeEntriesMeaning | vite.config.ts:15-26 | for every key, the merged dictionary holds exactly `MergedEntry`: a truthy entry stays, else the first non-empty value the file gives, else the old entry or nothing |
| DockerEnv.NonEmptyEntryKept | vite.config.ts:21 | an entry with a non-empty value is never overwritten |
| DockerEnv.FirstNonEmptyValueWins | vite.config.ts:21-22 | for a key without a truthy entry the first line giving it a non-empty value wins |
| DockerEnv.UnassignedKeyUnchanged | vite.config.ts:15-26 | a key no line assigns keeps its entry or stays absent |
| DockerEnv.InheritedKeyNeverAdded | vite.config.ts:21 | a key named like an Object.prototype member, absent from the dictionary, is never added (it reads as truthy) |
| DockerEnv.ApplyEntry | vite.config.ts:21-23 | no contract; the definition of lines 21-23: an entry is stored only when `env[key]` is not truthy and the value is non-empty |
| DockerEnv.ParseAll | vite.config.ts:15-16 | one parse per line, in file order: the k-th entry is ParseLine of the k-th line |
| DockerEnv.MergeEntries | vite.config.ts:15-26 | no contract; the `forEach` of line 15 as a left fold of ApplyEntry over the parsed lines (its partner is MergeEntriesMeaning) |
| DockerEnv.MergeLines | vite.config.ts:15-26 | no contract; MergeEntries of the parsed lines, the dictionary after the `forEach` (LoadDockerEnv is proved to compute it) |
| DockerEnv.FirstAssigned | vite.config.ts:21-22 | the first value the file gives a key, if any, is non-empty |
| DockerEnv.MergedEntry | vite.config.ts:15-26 | no contract; the independent closed form of the loop's result for one key: the truthy entry, else the first non-empty assigned value, else the old entry (MergeEntriesMeaning proves the loop equal to it) |
| DockerEnv.LoadDockerEnv | vite.config.ts:11-30 | no file leaves the dictionary as it was; otherwise the result is `MergeLines` of the file's lines, and every non-empty entry survives |
| DockerEnv.JsonString | vite.config.ts:49-50 | JSON.stringify of a string is quoted |
| DockerEnv.Defines | vite.config.ts:48-51 | exactly the two names are defined, both to the same value, which is the JSON text of `GEMINI_API_KEY` when present and undefined otherwise |
| Sanctuary.StorageKey | components/Sanctuary.tsx:84 | the key is the fixed prefix followed by the user name |
| Sanctuary.StorageKeysSeparateUsers | components/Sanctuary.tsx:84 | different users never share a storage key |
| Sanctuary.HasSavedImage | components/Sanctuary.tsx:92 | no contract; the definition of line 92's test `userImages[star.id]`: an own entry with a non-empty value |
| Sanctuary.StoredImages | components/Sanctuary.tsx:88 | no contract; the definition of line 88: the table stored under the user's key, or nothing |
| Sanctuary.WithSavedImages | components/Sanctuary.tsx:91-93 | length, order and every field but `image` are kept; a star takes the saved image iff the table has a truthy entry for its id, otherwise it is unchanged |
| Sanctuary.LoadCatalogue | components/Sanctuary.tsx:88-97 | with no stored table the catalogue is the initial data; the length is always kept |
| Sanctuary.EmptyTableChangesNothing | components/Sanctuary.tsx:91-93 | an empty table leaves the catalogue as it is |
| Sanctuary.WithLinkedImage | components/Sanctuary.tsx:134-136 | stars with the id get the new image, every other star is identical, length kept |
| Sanctuary.LinkAgreesWithReload | components/Sanctuary.tsx:131-142 | linking in memory gives the catalogue a fresh load of the updated table would give |
| Sanctuary.VisionPrompt | components/Sanctuary.tsx:122 | no contract; the definition of line 122: the template with the star's label, lore and details |
| Sanctuary.SanctuaryView.constructor | components/Sanctuary.tsx:77-98 | mounting loads the catalogue from the user's stored table, with nothing selected and no chamber |
| Sanctuary.SanctuaryView.SelectStar | components/Sanctuary.tsx:100-102 | the star becomes the selection; the invariant is kept |
| Sanctuary.SanctuaryView.BackToPortal | components/Sanctuary.tsx:104-106 | the selection is cleared |
| Sanctuary.SanctuaryView.SetStargazing | components/Portal.tsx:57 | the stargazing flag takes the given value; invariant kept |
| Sanctuary.SanctuaryView.OpenChamber | components/Sanctuary.tsx:108-112 | the chamber opens with context star and prompt cleared |
| Sanctuary.SanctuaryView.CloseChamber | components/Sanctuary.tsx:114-118 | no chamber, no context star, empty prompt |
| Sanctuary.SanctuaryView.GenerateVision | components/Sanctuary.tsx:120-124 | the forge opens with the star as context and its vision prompt |
| Sanctuary.SanctuaryView.AnimateVision | components/Sanctuary.tsx:126-129 | the animator opens with the star as context; the prompt is kept |
| Sanctuary.SanctuaryView.LinkImageToStar | components/Sanctuary.tsx:131-150 | with a context star: the catalogue is relinked, the stored table gets the one new entry and keeps all others, and the selection is updated only when its id matches; without one: catalogue, storage and selection stay; always ends with the chamber closed |
| ImageStorage.LazyGroup | services/imageStorage.ts:16 | the lazy group stops at the first `;`, holds no `;` and no line terminator |
| ImageStorage.LazyGroupOf | services/imageStorage.ts:16 | from right after the `:`, the text up to the first `;` is the group |
| ImageStorage.ColonGroup | services/imageStorage.ts:16 | a match's group holds no `;` |
| ImageStorage.ColonGroupSkips | services/imageStorage.ts:16 | the leftmost match is not found in a prefix without `:` |
| ImageStorage.ColonGroupOfHeader | services/imageStorage.ts:16 | a header `data:<m>;…` matches with group `m` |
| ImageStorage.BlobMime | services/imageStorage.ts:15-16 | the blob's MIME type is never empty and holds no `;` |
| ImageStorage.BlobMimeOfDataUrl | services/imageStorage.ts:15-16 | for `data:<m>;…` the blob MIME is `m`, or `image/jpeg` when `m` is empty |
| ImageStorage.DataGroup | services/imageStorage.ts:30 | a match's group is non-empty with no `;` |
| ImageStorage.ExtensionMime | services/imageStorage.ts:30 | no contract; the definition of line 30: the `[^;]+` group, or `image/jpeg` when there is none (ExtensionMimeOfDataUrl gives its value for `data:<m>;...`) |
| ImageStorage.ExtensionMimeOfDataUrl | services/imageStorage.ts:30 | for `data:<m>;…` with non-empty `m` the MIME looked up is `m` |
| ImageStorage.MimeToExtAsWritten | services/imageStorage.ts:31-37 | the property read gives one of the four extensions, or an inherited member exactly for Object.prototype names, or nothing |
| ImageStorage.ExtensionAsWritten | services/imageStorage.ts:37 | no contract; line 37 as written: the plain-object read of the table, with `jpg` only for a missing property; the as-written half of the Findings row (ExtensionAsWrittenReturnsInheritedMember, ExtensionAgreesWithWritten) |
| ImageStorage.ExtensionAsWrittenReturnsInheritedMember | services/imageStorage.ts:29-38 | as written, a MIME type naming an Object.prototype member yields that member instead of an extension |
| ImageStorage.ToStringMimeGetsNoExtension | services/imageStorage.ts:29-38 | `data:toString;base64,AAAA` yields the inherited `toString`, not an extension |
| ImageStorage.MimeToExt | services/imageStorage.ts:31-37 | image/jpeg→jpg, image/png→png, image/webp→webp, image/gif→gif, anything else →jpg |
| ImageStorage.Extension | services/imageStorage.ts:29-38 | always one of jpg, png, webp, gif; no `data:…;` header gives jpg |
| ImageStorage.ExtensionAgreesWithWritten | services/imageStorage.ts:29-38 | the corrected lookup agrees with the written one whenever the MIME type is not an inherited member's name |
| ImageStorage.ExtensionOfDataUrl | services/imageStorage.ts:29-38 | `data:<m>;…` gets the extension of `m` |
| ImageStorage.ToUint8 | services/imageStorage.ts:21 | a char code below 256 is stored as itself |
| ImageStorage.BlobType | services/imageStorage.ts:23 | the blob type is empty or as long as the given type |
| ImageStorage.BytesOf | services/imageStorage.ts:19-22 | as many bytes as decoded characters, byte i is char code i modulo 256 |
| ImageStorage.DataUrlToBlob | services/imageStorage.ts:14-24 | the array filled from the back holds `BytesOf(decoded)`, and the type is the normalised blob MIME |
| ImageStorage.BytesAreCharCodes | services/imageStorage.ts:17-22 | for `atob` output (codes below 256) byte i equals the char code at i |
| ImageStorage.FolderPath | services/imageStorage.ts:92 | a folder path ends in `/` |
| ImageStorage.FileName | services/imageStorage.ts:51 | no contract; the definition of line 51 after the folder: `${timestamp}-${randomStr}.${ext}` (FileNameEndsWithExtension, SavedNameIsListed) |
| ImageStorage.ExtensionText | services/imageStorage.ts:51 | the template literal renders an own extension as itself and an inherited member as text ending in `}` or `]` |
| ImageStorage.FileKeyAsWritten | services/imageStorage.ts:51 | no contract; line 51 as written: FileKey with the rendered text of the as-written extension; the as-written half of the Findings row (FileKeyAsWrittenAgrees, Gallery.SavedImageAsWrittenIsGalleryImage) |
| ImageStorage.FileKeyAsWrittenAgrees | services/imageStorage.ts:29-51 | the key built from the written lookup equals the corrected key whenever the MIME type names no inherited member |
| ImageStorage.FileNameEndsWithExtension | services/imageStorage.ts:51 | a saved name ends in `.` and its extension |
| ImageStorage.FileKey | services/imageStorage.ts:51 | the key is the folder `getImage` lists followed by `timestamp-rand.ext` |
| ImageStorage.SavedNameIsListed | services/imageStorage.ts:51 | a saved file's name passes the name filter of line 114 |
| ImageStorage.FolderPathInjective | services/imageStorage.ts:92 | distinct users or stars never share a folder (user ids without `/`) |
| ImageStorage.Payload | services/imageStorage.ts:15-17 | the text handed to `atob` holds no `,`, and is `undefined` when the data URL has no `,` |
| ImageStorage.PayloadOfDataUrl | services/imageStorage.ts:15-17 | the payload of `<header>,<data>` is `data` |
| ImageStorage.SaveImage | services/imageStorage.ts:45-84 | a failed `atob` of the payload rejects before any upload; otherwise the upload gets the key, the blob of the decoded bytes and its type; an upload error or a missing public URL rejects, else the public URL is returned; the key is line 51's whenever the MIME type names no inherited member |
| ImageStorage.KeptFiles | services/imageStorage.ts:114 | only names that are non-empty and do not end in `/` are kept, each a listed file |
| ImageStorage.PublicUrls | services/imageStorage.ts:115-120 | one URL per kept file, for its path in the folder |
| ImageStorage.NonEmptyUrls | services/imageStorage.ts:121 | only non-empty URLs, each from the input |
| ImageStorage.NonEmptyUrlsAppend | services/imageStorage.ts:121 | the filter distributes over concatenation |
| ImageStorage.ImageUrls | services/imageStorage.ts:113-121 | never more URLs than files, none empty |
| ImageStorage.UrlOf | services/imageStorage.ts:113-121 | no contract; what one listed file contributes under the three stages: its URL when its name passes line 114 and the URL is non-empty |
| ImageStorage.UrlsFileByFile | services/imageStorage.ts:113-121 | no contract; the independent one-pass reference for the pipeline, file by file (ImageUrlsFileByFile proves the pipeline equal to it) |
| ImageStorage.ImageUrlsFileByFile | services/imageStorage.ts:113-121 | the three stages equal one pass that gives each listed file's URL when it passes both filters, in listing order |
| ImageStorage.UrlsFileByFileAppend | services/imageStorage.ts:113-121 | listing more files appends their URLs |
| ImageStorage.GetImage | services/imageStorage.ts:90-129 | a listing error yields no URL; never more URLs than listed files; none empty |
| ImageStorage.GetImageFindsSavedImage | services/imageStorage.ts:45-121 | a folder listing that holds the saved image among any other entries yields its public URL, in its listing place between the other entries' URLs |
| ImageStorage.DeleteRequest | services/imageStorage.ts:134-170 | with an index, one path is removed iff the index is within the listing; without one, all listed paths iff there are any; a listing error removes nothing |
| ImageStorage.DeleteImage | services/imageStorage.ts:134-175 | rejects iff a remove call is made and it fails, with that error |
| ImageStorage.DeletedPathsInFolder | services/imageStorage.ts:136-161 | every removed path lies in the star's folder |
| Gallery.CreatedAt | services/galleryService.ts:119 | `created_at`, else `updated_at`, else now |
| Gallery.IsMediaFile | services/galleryService.ts:105 | no contract; the definition of line 105 (line 234 for videos): a non-empty name not ending in `/` that matches the type's `$`-anchored, case-insensitive pattern |
| Gallery.AccessDenied | services/galleryService.ts:34-38 | no contract; the definition of lines 34-38: the message mentions row-level security, permission or policy, or the status is 403 as text or number |
| Gallery.FromFiles | services/galleryService.ts:103-125 | no contract; the items of one star folder's files in listing order (FromFilesItems, FromFilesProvenance; CollectFiles is proved to compute it) |
| Gallery.FromStarFolder | services/galleryService.ts:80-126 | no contract; one star folder: nothing for an unwalkable name, a failed listing or an empty one, else FromFiles (SkippedStarFolder; CollectStarFolder is proved to compute it) |
| Gallery.FromStars | services/galleryService.ts:79-126 | no contract; the items of all star folders of one user, in listing order (FromStarsItems, FromStarsProvenance; CollectStars is proved to compute it) |
| Gallery.FromUserFolder | services/galleryService.ts:56-127 | no contract; one user folder: nothing for an unwalkable name, a failed listing or an empty one, else FromStars (SkippedUserFolder) |
| Gallery.FromUsers | services/galleryService.ts:56-127 | no contract; the `allImages` array: the items of all user folders in listing order (FromUsersWellFormed, FromUsersProvenance; CollectUsers is proved to compute it) |
| Gallery.SortKey | services/galleryService.ts:132-133 | no contract; the definition of lines 132-133: the item's time, or 0 without one (SortIsNewestFirst, SortIsStable) |
| Gallery.Gallery | services/galleryService.ts:17-141 | no contract; the whole call as a value: nothing on a root-listing error or an empty root, else the sorted walk sliced to the limit (GetAllMedia is proved to compute it; GalleryNewestFirst, GalleryWithinLimit, GalleryItemsFromMediaFiles) |
| Gallery.FileItems | services/galleryService.ts:103-125 | a file contributes at most one item |
| Gallery.FromFilesItems | services/galleryService.ts:103-125 | at most one item per file; each item has the folder's user and star, the requested type, a non-empty URL and a time |
| Gallery.FromStarsItems | services/galleryService.ts:79-126 | every item of a user folder records that user and a walkable star folder |
| Gallery.FromUsersWellFormed | services/galleryService.ts:56-127 | every collected item is well formed: non-empty URL of the type, with a time, from folders whose names are non-empty and hold no `.` |
| Gallery.FromFilesProvenance | services/galleryService.ts:103-120 | every item of a star folder is built from one of its listed files whose name passes the media pattern, with that file's URL and time |
| Gallery.FromStarsProvenance | services/galleryService.ts:79-126 | likewise for a user folder: the file lies in a walkable star folder with a successful listing |
| Gallery.FromUsersProvenance | services/galleryService.ts:56-127 | likewise for the whole walk |
| Gallery.GalleryItemsFromMediaFiles | services/galleryService.ts:17-136 | every gallery item is built from a listed media file of the tree |
| Gallery.InsertNewestFirst | services/galleryService.ts:130-135 | insertion adds the one item: length and multiset |
| Gallery.InsertKeepsNewestFirst | services/galleryService.ts:130-135 | insertion keeps the order newest first |
| Gallery.SortNewestFirst | services/galleryService.ts:130-135 | the sort is a permutation |
| Gallery.SortIsNewestFirst | services/galleryService.ts:130-135 | the sort leaves items newest first, a missing time counting as 0 |
| Gallery.InsertKeepsOrderOfEqualTimes | services/galleryService.ts:130-135 | insertion puts the new item after every item with the same time |
| Gallery.SortIsStable | services/galleryService.ts:130-135 | items with equal times keep their original order |
| Gallery.SliceToLimit | services/galleryService.ts:136 | `slice(0, limit)` gives a prefix of length `min(limit, n)`, counted from the end for a negative limit |
| Gallery.CollectFiles | services/galleryService.ts:103-125 | the file loop appends exactly the star folder's items |
| Gallery.CollectStarFolder | services/galleryService.ts:80-99 | a skipped star folder adds nothing, another adds its items |
| Gallery.CollectStars | services/galleryService.ts:79-126 | the star loop appends exactly the user folder's items |
| Gallery.CollectUsers | services/galleryService.ts:56-127 | the user loop collects exactly the items of all folders, in listing order |
| Gallery.GetAllMedia | services/galleryService.ts:17-141 | the result is the gallery value: nothing on any root-listing error (access denied included) or an empty root, else the sorted items sliced |
| Gallery.GetAllImages | services/galleryService.ts:17-141 | images with the default limit 20 |
| Gallery.GetAllVideos | services/galleryService.ts:146-270 | videos with the default limit 10 |
| Gallery.GalleryWithinLimit | services/galleryService.ts:136 | never more items than a non-negative limit, exactly the limit when there are enough |
| Gallery.RootErrorGivesNothing | services/galleryService.ts:26-44 | a failing root listing gives an empty gallery whatever the error |
| Gallery.NewestFirstPrefix | services/galleryService.ts:136 | the slice of a sorted list is sorted, drawn from it and no older than what it leaves out |
| Gallery.GalleryNewestFirst | services/galleryService.ts:129-136 | the gallery is newest first, well formed, drawn from the collected items, and keeps the newest ones |
| Gallery.SkippedUserFolder | services/galleryService.ts:57-70 | a user folder with an unwalkable name or failing listing is skipped, the others contribute exactly as without it |
| Gallery.SkippedStarFolder | services/galleryService.ts:80-94 | the same for a star folder |
| Gallery.ImageExtensionIsMedia | services/galleryService.ts:105 | a name ending in `.jpg`, `.png`, `.webp` or `.gif` matches the image pattern |
| Gallery.SavedImageIsGalleryImage | services/galleryService.ts:105 | every name `saveImage` gives a file passes the image gallery's name filter |
| Gallery.BracketEndIsNoImage | services/galleryService.ts:105 | a name ending in `}` or `]` fails the image pattern |
| Gallery.SavedImageAsWrittenIsGalleryImage | services/galleryService.ts:105 | with line 37 as written, a saved image passes the image gallery's filter exactly when its MIME type names no Object.prototype member |
| Portal.AnimationClass | components/Portal.tsx:20-29 | andromeda iff spin-and-pulse; sirius, orion, polaris iff twinkle; the other four iff soft-pulse |
| Portal.ThemesTotal | components/Portal.tsx:9-18 | every theme has a non-empty colour class |
| Portal.PolarisPortal | components/Portal.tsx:40 | a found centre star is a portal with id `polaris` |
| Portal.PolarisPortalIsFirst | components/Portal.tsx:40 | the centre star is the first portal with id `polaris` |
| Portal.PolarisPortalAbsent | components/Portal.tsx:40 | no centre star iff no portal has id `polaris` |
| Portal.OrbitingPortals | components/Portal.tsx:41 | never more orbiting stars than portals |
| Portal.OrbitingPortalsAppend | components/Portal.tsx:41 | the filter distributes over concatenation, keeping the catalogue's order |
| Portal.OrbitingPortalsMembers | components/Portal.tsx:41 | a star orbits iff it is a portal with an id other than `polaris` |
| Portal.NumSystems | components/Portal.tsx:42 | no contract; the definition of line 42: the number of orbiting portals (NumSystemsCount) |
| Portal.CentreCount | components/Portal.tsx:40 | no contract; how many portals carry the id `find` looks for at line 40 (PolarisPortalIffCounted, NumSystemsCount) |
| Portal.NumSystemsCount | components/Portal.tsx:40-42 | `numSystems` plus the number of `polaris` portals is the catalogue's size |
| Portal.PolarisPortalIffCounted | components/Portal.tsx:40-42 | a centre star exists iff some portal counts as one |
| StellarAnimator.MessageOr | components/StellarAnimator.tsx:106 | `message \|\| fallback` is the message or the fallback, never empty with a non-empty fallback |
| StellarAnimator.InitialInv | components/StellarAnimator.tsx:36-48 | the mounted state satisfies the invariant |
| StellarAnimator.WithStatus | components/StellarAnimator.tsx:82-123 | a status change re-runs the effect: timers cleared, set again only for `polling` with an operation, counter restarted; an unchanged status changes nothing |
| StellarAnimator.OnKeyChecked | components/StellarAnimator.tsx:66-73 | no contract; the mount-time key check: the key flag becomes the answer, and nothing changes without key selection (StepInv) |
| StellarAnimator.OnFileChosen | components/StellarAnimator.tsx:125-131 | no contract; a chosen file becomes the source, and no file changes nothing (StepInv, HappyPath) |
| StellarAnimator.OnKeySelected | components/StellarAnimator.tsx:133-139 | no contract; after the dialog the key counts as selected, and without the dialog nothing changes (StepInv) |
| StellarAnimator.OnAnimate | components/StellarAnimator.tsx:141-158 | no contract; the synchronous part of `handleAnimate` (AnimateWithoutSource, AnimateWithoutKey, AnimateStarts) |
| StellarAnimator.OnGenerationStarted | components/StellarAnimator.tsx:160-163 | no contract; an operation is held and the status becomes `polling` (GenerationStartsPolling, NewRunKeepsShownMessage) |
| StellarAnimator.OnGenerationFailed | components/StellarAnimator.tsx:164-172 | no contract; the catch of `handleAnimate`: `error`, with the invalid-key text and the key flag cleared for "Requested entity was not found" (GenerationFailure) |
| StellarAnimator.OnPollTick | components/StellarAnimator.tsx:84-109 | no contract; one firing of the polling interval (PollingHasNoCap, PollFindsVideo, PollFindsNoVideo, PollFailureStopsTimers, TimersOnlyWhilePolling) |
| StellarAnimator.OnMessageTick | components/StellarAnimator.tsx:112-116 | no contract; one firing of the message interval (MessageTickAdvances, MessagesCycle, TimersOnlyWhilePolling) |
| StellarAnimator.OnCreateAnother | components/StellarAnimator.tsx:186-192 | no contract; the Create Another button, shown only on success with a video, sets `idle` (CreateAnotherResets, IdleOnlyFromSuccess) |
| StellarAnimator.Step | components/StellarAnimator.tsx:66-190 | no contract; every handler, continuation and timer firing of the component, one event at a time (StepInv, SuccessOnlyFromPolling, IdleOnlyFromSuccess) |
| StellarAnimator.Run | components/StellarAnimator.tsx:66-190 | no contract; the state after a sequence of events (RunInv, HappyPath) |
| StellarAnimator.StepInv | components/StellarAnimator.tsx:82-190 | every event keeps the invariant: message indices below 6, timers running iff polling, polling has an operation, success has a video |
| StellarAnimator.RunInv | components/StellarAnimator.tsx:82-190 | every reachable state satisfies the invariant |
| StellarAnimator.AnimateWithoutSource | components/StellarAnimator.tsx:142-145 | without a source only the error changes |
| StellarAnimator.AnimateWithoutKey | components/StellarAnimator.tsx:148-153 | without a selected key the key flag drops and the error is set; the status stays |
| StellarAnimator.AnimateStarts | components/StellarAnimator.tsx:154-158 | otherwise `generating` with error cleared, no video, key flag set, timers off |
| StellarAnimator.GenerationStartsPolling | components/StellarAnimator.tsx:161-163 | an operation moves to `polling` with both timers and the counter at 0 |
| StellarAnimator.GenerationFailure | components/StellarAnimator.tsx:164-171 | a failed start ends in `error`; "not found" marks the key invalid, any other failure keeps the key flag and shows the message or the default |
| StellarAnimator.PollingHasNoCap | components/StellarAnimator.tsx:84-89 | any number of not-done polls leaves the state as it was, still polling |
| StellarAnimator.PollFindsVideo | components/StellarAnimator.tsx:89-98 | a done poll with a video ends in `success` with it, timers off |
| StellarAnimator.PollFindsNoVideo | components/StellarAnimator.tsx:99-108 | done without a video ends in `error` with the vendor's message or the default, timers off |
| StellarAnimator.PollFailureStopsTimers | components/StellarAnimator.tsx:103-108 | a failing poll ends in `error`, stops both timers, and shows a non-empty message |
| StellarAnimator.TimersOnlyWhilePolling | components/StellarAnimator.tsx:83-122 | outside `polling` neither timer fires |
| StellarAnimator.MessageTickAdvances | components/StellarAnimator.tsx:112-115 | a tick advances the counter by one modulo 6 and shows that message |
| StellarAnimator.MessagesCycle | components/StellarAnimator.tsx:112-115 | after n ticks the counter is n steps further modulo 6, still polling |
| StellarAnimator.NewRunKeepsShownMessage | components/StellarAnimator.tsx:112-115 | a new polling run restarts the counter but keeps the message on screen |
| StellarAnimator.CreateAnotherResets | components/StellarAnimator.tsx:186-190 | "Create Another" moves `success` to `idle`, nothing else changes |
| StellarAnimator.SuccessOnlyFromPolling | components/StellarAnimator.tsx:98 | `success` is entered only from `polling` by a poll that found a video |
| StellarAnimator.IdleOnlyFromSuccess | components/StellarAnimator.tsx:190 | `idle` is re-entered only from `success` by "Create Another" |
| StellarAnimator.HappyPath | components/StellarAnimator.tsx:125-190 | choose a file, animate, start, poll twice: success with the video, then back to `idle` |
| StellarAnimator.StellarAnimatorView.constructor | components/StellarAnimator.tsx:36-48 | the mounted state, which keeps the invariant |
| StellarAnimator.StellarAnimatorView.SetStatus | components/StellarAnimator.tsx:82-123 | the fields become `WithStatus` of the old state |
| StellarAnimator.StellarAnimatorView.CheckKey | components/StellarAnimator.tsx:66-73 | the fields become `OnKeyChecked` of the old state; invariant kept |
| StellarAnimator.StellarAnimatorView.ChooseFile | components/StellarAnimator.tsx:125-131 | the fields become `OnFileChosen` of the old state; invariant kept |
| StellarAnimator.StellarAnimatorView.SelectKey | components/StellarAnimator.tsx:133-139 | the fields become `OnKeySelected` of the old state; invariant kept |
| StellarAnimator.StellarAnimatorView.Animate | components/StellarAnimator.tsx:141-158 | the fields become `OnAnimate` of the old state; invariant kept |
| StellarAnimator.StellarAnimatorView.GenerationStarted | components/StellarAnimator.tsx:160-163 | the fields become `OnGenerationStarted` of the old state; invariant kept |
| StellarAnimator.StellarAnimatorView.GenerationFailed | components/StellarAnimator.tsx:164-172 | the fields become `OnGenerationFailed` of the old state; invariant kept |
| StellarAnimator.StellarAnimatorView.PollTick | components/StellarAnimator.tsx:84-109 | the fields become `OnPollTick` of the old state; invariant kept |
| StellarAnimator.StellarAnimatorView.MessageTick | components/StellarAnimator.tsx:112-116 | the fields become `OnMessageTick` of the old state; invariant kept |
| StellarAnimator.StellarAnimatorView.CreateAnother | components/StellarAnimator.tsx:186-192 | the fields become `OnCreateAnother` of the old state; invariant kept |

## Left out

- Reading `docker.env`, `existsSync`, `loadEnv` and the `try`/`catch` around them: the file's text (None when it is missing or unreadable) and the initial dictionary are parameters.
- Console output and the API-key warning of `vite.config.ts` lines 32-41: logging only.
- DockerEnv.JsonString: only its quoting is stated. JSON.stringify's escaping is written out but has no round-trip lemma, because JSON parsing is not part of this model.
- DockerEnv.LoadDockerEnv: an assignment to the key `__proto__` is ignored by JavaScript. Here it cannot happen, because that key always reads as truthy.
- Sanctuary: local storage holds parsed tables, not JSON text. `JSON.parse`/`JSON.stringify` and a malformed or empty stored string are not modelled.
- Sanctuary.SanctuaryView.constructor: the catalogue's initial data (`initialPortalsData`) is a parameter rather than the literal of lines 11-68. The catalogue literal is `Sanctuary.InitialPortals`, which the proofs do not unfold.
- Sanctuary.SanctuaryView.LinkImageToStar: requires a non-empty image. The only caller, CelestialForge.tsx line 99, links only a truthy image, and an empty one would break the "catalogue equals a fresh load" invariant.
- Sanctuary.HasSavedImage: reads only the table's own entries. `userImages[star.id]` at line 92 would also find an Object.prototype member for an id naming one. That is harmless only because no id in `InitialPortals` names such a member.
- Sanctuary.VisionPrompt: it has no contract beyond its text. `star.label` is called `displayName` because `label` is a Dafny keyword.
- ImageStorage: the vendor's upload, list, getPublicUrl and remove calls, `atob`, `Date.now`, `Math.random` and `URL.createObjectURL` are not modelled; their answers are parameters. `Math.random().toString(36).substring(2, 9)` is a string parameter.
- ImageStorage: the `limit`, `offset` and `sortBy` options of the list calls are not modelled. The listing given is what the vendor returned.
- ImageStorage.DeleteRequest: `imageIndex` is an integer. JavaScript would also accept fractional or non-numeric indices, which `files[imageIndex]` reads as undefined.
- ImageStorage.SaveImage: the upload key uses the corrected `Extension`. As written, a MIME type naming an Object.prototype member gives an extension that is the member's rendered text, such as `function toString() { [native code] }` or `[object Object]`. That key is `FileKeyAsWritten`; the two keys are proved equal for every other MIME type (`FileKeyAsWrittenAgrees`).
- ImageStorage.SavedNameIsListed: stated for the corrected extension, like `SaveImage`'s key.
- ImageStorage.GetImageFindsSavedImage: stated for the corrected extension, like `SaveImage`'s key.
- ImageStorage.ExtensionText: the source text of a built-in function is implementation-defined. The common `function <name>() { [native code] }` form is used; the proofs depend only on its last character.
- Gallery.SavedImageIsGalleryImage: stated for the corrected extension. With line 37 as written, such an image is hidden from the gallery exactly when its MIME type names an inherited member (`SavedImageAsWrittenIsGalleryImage`).
- ImageStorage.GetImage: an exception thrown by `getPublicUrl` itself, caught at line 125 and turned into `[]`, is not modelled.
- Strings are sequences of code points. `charCodeAt` and UTF-16 surrogate pairs are not distinguished; the decoded string of `atob` only holds code points below 256 anyway.
- Gallery: times are integers (milliseconds). `new Date(...).getTime()` and ISO strings are not modelled, so an unparsable time (NaN in the comparator) is not represented. One `now` is used for the whole call, where the source reads the clock once per file.
- Gallery.GetAllMedia: an exception thrown mid-walk, such as a list call or `getPublicUrl` throwing, is not modelled. The catch at lines 137-140, and its twin at lines 266-269 in `getAllVideos`, turns it into `[]` for the whole call, discarding the items already collected. The modelled listings either answer or report an error.
- Gallery: the access-denied branch is kept (it throws and is caught), but its warning and error message are not modelled, since the result is the same empty list.
- Gallery: the `limit` options of the list calls (1000, 100, 10) are not modelled. The listings are what the vendor returned.
- Portal: the orbit's trigonometry and all rendering (lines 44-45 and 82-140 apart from the lookups) are floating-point layout.
- StellarAnimator: timers and async interleaving are not modelled. Each handler, continuation or timer firing is one atomic event, so two polls in flight at once, or a continuation arriving after unmount, are not represented. The unmount cleanup (lines 75-78) is left out.
- StellarAnimator: `prompt`, `aspectRatio`, `sourcePreview` and the preload of the context star's image (lines 50-63) are not modelled, except that the fetched file arrives as a `FileChosen` event.
- StellarAnimator.OnAnimate: `window.aistudio` present without `hasSelectedApiKey` makes line 148 throw. That rejected handler, which changes nothing, is not modelled. An absent `aistudio` reads as a falsy answer, which is modelled.
- StellarAnimator: the `checking_key` status is declared at line 24 but never set, so it is unreachable in the model too.
- services/geminiService.ts, services/videoStorage.ts, hooks/useParticleBackground.ts, the checkout function and the other components are not part of this model.

## Findings

| source | as written | input that shows it | evidently intended | confidence | as-written member | corrected member |
|---|---|---|---|---|---|---|
| services/imageStorage.ts:37 | `mimeToExt[mime] \|\| 'jpg'` reads the table as a plain object, so a MIME type naming an Object.prototype member returns that inherited function; the file key then embeds the function's source text as its extension | `data:toString;base64,AAAA` | only the table's own entries, `jpg` for anything else | not executed | ImageStorage.ToStringMimeGetsNoExtension | ImageStorage.Extension |
