# YouTube video import command, modelled in Dafny

This project models the `youtube:import:video` console command of the Pumukit
YouTube bundle (`Command/YoutubeImportVideoCommand.php`). Given a YouTube video
id, the command:

- finds out whether a multimedia object already exists for the video;
- resolves the target series, or creates it from a YouTube tag;
- fetches the video metadata and creates the multimedia object from it;
- attaches the requested YouTube tags to that object.

The MongoDB collections the command reads and writes are the fields of the
class `YoutubeImportVideoCommand.Command`:

- `series`, `tags` and `mmobjs`: the documents by id;
- `youtubeDocs`: the legacy `Youtube` documents, from `youtubeId` to multimedia object id;
- `videos`: what `getVideoMeta` can fetch;
- `attached`: the log of `addTag` calls.

The methods `GetMmObjFromYid`, `GetSeries`, `CreateMultimediaObject`,
`TagMultimediaObject` and `Execute` of `Command` model the command's methods
of those names. They return an abstract outcome or error kind where the
source writes a message or throws. `getStatus` reads no state, so it is the
module-level function `GetStatus`. The constructor stands for
`initParameters`. `AddTags` is the `foreach` loop of `tagMultimediaObject`,
kept as a method of its own. The module-level methods `ImportTwice`,
`GetSeriesTwice` and `SeriesFromTagScenario` model no source method. They are
clients of a `Command` that run an operation twice to state its idempotency,
or run one concrete import.

Files:

- `wrappers.dfy`: `Option` and `Result`.
- `documents.dfy` (module `Documents`): the document shapes, which are series,
  tags, multimedia objects, the free-form `properties` maps and the YouTube
  metadata record. It also holds the property filters the command's queries
  use.
- `import_video_command.dfy` (module `YoutubeImportVideoCommand`): the status
  vocabulary, the tag count check, the three series tiers, the lookup by
  YouTube id, the class `Command` with its methods, and the lemmas relating
  them.

Points where the model settles something the code leaves open, or where the
code differs from a plain reading of its intent:

- The series argument counts as missing when PHP's `!$seriesId` holds: when it
  is absent, `""` or `"0"` (`Falsy`).
- A series found through the tag tier is stamped `origin=youtube` and
  `fromyoutubetag=<ref>`. It is not stamped `youtube=<ref>`.
- The tag check compares two counts. It does not check each id. When two
  YouTube tags carry the same `youtube` value, a missing id can go unnoticed
  (`DuplicateRefsHideMissingId`). A repeated id is rejected even though it
  resolves (`RepeatedIdRejected`). The check means "every id resolves" only
  when the tags' values are unique and the ids are distinct
  (`CheckTags`, `FoundCountMeansAllResolve`).
- Step 4 with an empty tag list passes the count check and attaches nothing.
- The help text's example `--status=bloq` is not in the status vocabulary, so
  `getStatus` rejects it (`HelpStatusBloqRejected`).
- When the metadata fetch fails after the tag tier has created a series, that
  series stays persisted. If tags were also given, PHP then passes `false` to
  the typed parameter of `tagMultimediaObject`. The model ends that run with
  `Raised(NoVideo(yid))`.
- A multimedia object created in step 1 stays persisted, untagged, when the
  tag count check then throws.
- When a query could return several documents, the model returns any one of
  them. This covers `findOneBy` for tier 2, for the tag tier, and for
  `youtubemeta.id`.

## Model

| member | source | states |
|---|---|---|
| `YoutubeImportVideoCommand.ToLower` | Command/YoutubeImportVideoCommand.php:221 | `strtolower` keeps the length and lower-cases each ASCII letter, position by position |
| `YoutubeImportVideoCommand.GetStatus` | Command/YoutubeImportVideoCommand.php:219-239 | a status is returned exactly when the lower-cased name is in the six-word vocabulary; the name is then one of that status's words; otherwise the error carries the lower-cased name |
| `YoutubeImportVideoCommand.StatusVocabularyPartition` | Command/YoutubeImportVideoCommand.php:222-237 | the vocabulary is exactly published/pub, block/blocked and hide/hidden, and no word names two statuses |
| `YoutubeImportVideoCommand.GetStatusExact` | Command/YoutubeImportVideoCommand.php:227-237 | `getStatus` yields a status if and only if the lower-cased name is one of that status's words |
| `YoutubeImportVideoCommand.ToLowerIdempotent` | Command/YoutubeImportVideoCommand.php:221 | lower-casing twice is lower-casing once |
| `YoutubeImportVideoCommand.GetStatusIgnoresCase` | Command/YoutubeImportVideoCommand.php:221-223 | the result depends on the name only through its lower-case form |
| `YoutubeImportVideoCommand.HelpStatusBloqRejected` | Command/YoutubeImportVideoCommand.php:45 | the help example's `bloq` is rejected as an invalid status |
| `YoutubeImportVideoCommand.LowerCasePubAccepted` | Command/YoutubeImportVideoCommand.php:229-230 | `pub` maps to the published status |
| `YoutubeImportVideoCommand.MixedCaseHiddenAccepted` | Command/YoutubeImportVideoCommand.php:234-236 | `Hidden` in mixed case maps to the hidden status |
| `Documents.Prefix` | Command/YoutubeImportVideoCommand.php:144 | `substr(s, 0, n)` is a prefix of `s` of length n, or all of a shorter `s` |
| `YoutubeImportVideoCommand.PublishedAtPrefix` | Command/YoutubeImportVideoCommand.php:144 | the 19-character prefix of a YouTube timestamp drops its fraction and time zone |
| `YoutubeImportVideoCommand.FoundTagsFilter` | Command/YoutubeImportVideoCommand.php:107 | the `findBy` query selects a tag exactly when it is stamped `origin=youtube` and its `youtube` property equals one of the requested ids |
| `YoutubeImportVideoCommand.CheckTags` | Command/YoutubeImportVideoCommand.php:107-116 | when no two YouTube tags share a `youtube` value and the ids are distinct, the check passes exactly when every id resolves to a tag; when it passes, it yields as many tags as ids, namely exactly those the query's filter (`origin=youtube`, `youtube` among the ids) admits; when it fails, the error carries the requested and the found count |
| `YoutubeImportVideoCommand.FoundCountMeansAllResolve` | Command/YoutubeImportVideoCommand.php:107-108 | when the tags' YouTube references are unique and the ids are distinct, the query finds as many tags as there are ids exactly when every id resolves to a tag |
| `YoutubeImportVideoCommand.DuplicateRefsHideMissingId` | Command/YoutubeImportVideoCommand.php:107-108 | two tags for `A` let the check pass for `[A, B]` although `B` resolves to no tag |
| `YoutubeImportVideoCommand.RepeatedIdRejected` | Command/YoutubeImportVideoCommand.php:107-116 | `[A, A]` fails the check with counts 2 and 1 although `A` resolves |
| `YoutubeImportVideoCommand.EmptyTagListSelectsNothing` | Command/YoutubeImportVideoCommand.php:107-108 | an empty id list passes the check and selects no tag |
| `YoutubeImportVideoCommand.AttachOne` | Command/YoutubeImportVideoCommand.php:119-121 | one more `addTag` call keeps the loop's record of which found tags have been attached, each once |
| `YoutubeImportVideoCommand.Command.AddTags` | Command/YoutubeImportVideoCommand.php:119-121 | the loop makes exactly one `addTag` call per found tag, all for the given object, after the earlier calls, and changes no modelled collection |
| `YoutubeImportVideoCommand.Command.TagMultimediaObject` | Command/YoutubeImportVideoCommand.php:105-123 | on a count mismatch it throws with both counts and makes no `addTag` call; otherwise it makes exactly one `addTag` call per found tag, all for the given object, after the earlier calls; no modelled collection changes |
| `YoutubeImportVideoCommand.KnownVideoIffFinds` | Command/YoutubeImportVideoCommand.php:158-177 | a video is known exactly when some object is one `getMmObjFromYid` may return |
| `YoutubeImportVideoCommand.Command.GetMmObjFromYid` | Command/YoutubeImportVideoCommand.php:158-177 | it returns a stored object exactly when the video is known: one whose `youtubemeta.id` is `yid` if there is any; otherwise the object the legacy `Youtube` document for `yid` points to; `null` when neither exists or the legacy document dangles |
| `YoutubeImportVideoCommand.FalsySeriesArguments` | Command/YoutubeImportVideoCommand.php:182 | `!$seriesId` holds for a missing argument, `""` and `"0"`, and not for `"00"`, `"0.0"` or `" "` |
| `YoutubeImportVideoCommand.SeriesErrorMeans` | Command/YoutubeImportVideoCommand.php:180-215 | `getSeries` throws "No series id" exactly for a falsy argument; otherwise it throws "No series, or YouTube tag" exactly when no series has the id, no series is stamped `origin=youtube`, `fromyoutubetag=ref`, and no tag is stamped `origin=youtube`, `youtube=ref` |
| `YoutubeImportVideoCommand.Command.GetSeries` | Command/YoutubeImportVideoCommand.php:180-216 | a falsy id throws and changes nothing; otherwise the series with that id wins; else a series stamped `fromyoutubetag=ref`; else exactly one new series from a tag with `youtube=ref` (the tag's i18n title, `origin=youtube`, `fromyoutubetag=ref`, a new id); else it throws; only the last tier adds anything |
| `YoutubeImportVideoCommand.CreatedSeriesFoundByTag` | Command/YoutubeImportVideoCommand.php:193-211 | after the tag tier creates a series, that series is the only one the second tier finds for the same reference |
| `YoutubeImportVideoCommand.GetSeriesTwice` | Command/YoutubeImportVideoCommand.php:186-211 | a second resolution of the same reference succeeds whenever the first did and creates nothing; a series the first call created is what the second returns |
| `YoutubeImportVideoCommand.Command.CreateMultimediaObject` | Command/YoutubeImportVideoCommand.php:125-154 | a failed fetch persists nothing; otherwise exactly one new object of the series is persisted, holding the status, the title, the description and tags when present, both dates from the first 19 characters of `publishedAt`, and the properties `origin=youtube` and `youtubemeta=meta.out`; when no object held the video's metadata before, at most one object per video still holds |
| `YoutubeImportVideoCommand.AddKeepsOnePerVideo` | Command/YoutubeImportVideoCommand.php:70-77 | adding an object for a video that no object holds yet keeps at most one object per video |
| `YoutubeImportVideoCommand.CreatedObjectIsFound` | Command/YoutubeImportVideoCommand.php:147-160 | an object created from a video's metadata is found by that video's id, which makes the existence check the import's idempotency key |
| `YoutubeImportVideoCommand.NewId` | Command/YoutubeImportVideoCommand.php:150-151 | a newly persisted document gets an id no stored document has |
| `YoutubeImportVideoCommand.Command.constructor` | Command/YoutubeImportVideoCommand.php:241-254 | the command starts bound to the store's collections, with no `addTag` calls made |
| `YoutubeImportVideoCommand.Command.Execute` | Command/YoutubeImportVideoCommand.php:59-102 | steps 2, 3 and unknown steps change nothing. Step 1 checks in order: an invalid status throws; a known video returns false; a series error throws; each of these changes nothing. Past them, a failed fetch creates no object and ends `Reported` without tags or `Raised` with them. A successful fetch creates exactly one object, in the series `getSeries` resolved (perhaps created), makes the video known, and either tags it or throws with the object kept untagged. Step 4 on an unknown video returns false and changes nothing; otherwise it tags the found object or throws. Every step keeps at most one object per video, which the lookup before the creation guarantees |
| `YoutubeImportVideoCommand.ImportTwice` | Command/YoutubeImportVideoCommand.php:66-83 | after a step-1 run that completes, or whose tag count check throws once the object is flushed, a second run for the same video returns false with `AlreadyExists` and changes nothing, so exactly one new object exists |
| `YoutubeImportVideoCommand.SeriesFromTagScenario` | Command/YoutubeImportVideoCommand.php:75-77 | step 1 with the series argument `PLxxxx`, which names no series but a YouTube tag, creates a series with the tag's title, `origin=youtube` and `fromyoutubetag=PLxxxx`, and an object of that series with the video's status, title, description, no keywords and the date `2016-10-18T14:44:49` |

## Left out

- `configure`, the help text and console argument parsing are not modelled. The step is an integer and the tags are a list of strings. PHP's loose comparison of the step option with the `case` labels is not modelled.
- `initParameters` is not modelled: its container lookups and the logger are left out. The constructor takes the collections' contents directly.
- Output messages (`writeln`) and log lines are left out. `Execute` returns an abstract `Outcome` instead: `Done`, `ReturnedFalse`, `Reported` for an error line after which the step still ends normally, or `Raised`, each with an `Error` kind.
- Steps 2 and 3 only print a placeholder. They are modelled as changing nothing.
- `DateTime::createFromFormat` is opaque. A date is the text the parse was applied to (`FromFormat`). A malformed timestamp, for which PHP gets `false`, is not distinguished.
- `tagService->addTag` internals are not shown. The model records each call in the log `attached`. It assumes the call changes none of the modelled collections: `TagMultimediaObject` and `AddTags` keep `mmobjs` and `tags` as they were. The `MultimediaObject` datatype has no tags field, so an object's tags exist only in the `attached` log. The model claims neither set semantics nor idempotence of tagging.
- The factory's internals are not modelled. `createSeries` and `createMultimediaObject` are taken to start from empty titles, descriptions, keywords and properties. What the factory itself adds, such as default tags and the object's link in its series, is left out.
- Doctrine query semantics are modelled only as equality and `$in` filters over property maps. A query with several matches returns any one of them. The legacy `Youtube` documents are a map, so there is at most one per `youtubeId`.
- The store is assumed to answer `getVideoMeta(y)` with the resource of video `y`, whose `id` is `y` (`Consistent`). The source stores `$meta['out']` and later looks objects up by `youtubemeta.id`. So the proofs that an import makes its video known, and that a second import is refused (`Execute`, `ImportTwice`), depend on this assumption.
- New document ids come from `NewId`, which gives one particular unused id. The real ObjectId generator is not modelled.
- Title, description and keywords of an object are for one locale. A series title is copied as the whole per-locale map.
- The metadata's `title` is assumed present. PHP would store `null` if it were absent.
- Store and network failures other than a failed `getVideoMeta` are not modelled: persistence errors, flush failures and provider outages.
- The race between two concurrent imports of the same video is not modelled, because runs are sequential here.
- `strtolower` is modelled for ASCII only. Locale-dependent lower-casing of other characters is not modelled.
- `DependencyInjection/PumukitYoutubeExtension.php` is framework configuration with no logic.
- `Resources/data/pyPumukit/upload.py` is OAuth, HTTP upload and randomised retry sleeps, which are network I/O.
- YoutubeImportVideoCommand.Command.TagMultimediaObject: it states which `addTag` calls are made, in some order. It does not state the tags the object ends up with, because `addTag` is not shown.
- YoutubeImportVideoCommand.Command.AddTags: like `TagMultimediaObject`, it states which `addTag` calls are made, in some order, and not the tags the object ends up with.
