/**
 * The `youtube:import:video` console command: validate a status name, find a
 * multimedia object by its YouTube id, resolve (or lazily create) the target
 * series, create the multimedia object from the fetched video metadata and
 * attach the requested YouTube tags.  The MongoDB collections the command
 * reads and writes are the fields of class `Command`.
 */
module YoutubeImportVideoCommand {
  import opened Wrappers
  import opened Documents

  /** The conditions under which the command writes an error line or throws. */
  datatype Error =
    | InvalidStatus(status: string)        // getStatus: not in the vocabulary
    | AlreadyExists(yid: string)           // step 1: a multimedia object already has this video
    | NoSeriesId                           // getSeries: falsy series argument
    | NoSeriesOrTag(ref: string)           // getSeries: no tier matched
    | NoVideo(yid: string)                 // getVideoMeta failed
    | TagsNotFound(requested: nat, found: nat) // tagMultimediaObject: counts differ
    | NoMmObj(yid: string)                 // step 4: nothing to tag
    | InvalidStep(step: int)               // default branch of the step switch

  /** How `execute` ends. */
  datatype Outcome =
    | Done                           // the step ran to its end
    | ReturnedFalse(reason: Error)   // an error line was written and `false` returned
    | Reported(notice: Error)        // an error line was written, yet the step ran to its end
    | Raised(error: Error)           // an exception (or PHP error) left `execute`

  // ---------------------------------------------------------------------------
  // getStatus
  // ---------------------------------------------------------------------------

  /** PHP `strtolower` on one character (ASCII letters only). */
  function LowerChar(c: char): char
  {
    if 'A' <= c <= 'Z' then (c as int + 32) as char else c
  }

  /** PHP `strtolower`: every ASCII upper-case letter replaced by its lower case. */
  function ToLower(s: string): (r: string)
    ensures |r| == |s|
    ensures forall i :: 0 <= i < |s| ==> r[i] == LowerChar(s[i])
  {
    if s == [] then [] else [LowerChar(s[0])] + ToLower(s[1..])
  }

  /** `$validStatus`, in the order the source lists it. */
  const ValidStatus: seq<string> := ["published", "pub", "block", "blocked", "hide", "hidden"]

  /** The documented names of each status. */
  function StatusWords(st: Status): set<string>
  {
    match st
    case Published => {"published", "pub"}
    case Blocked => {"block", "blocked"}
    case Hidden => {"hide", "hidden"}
  }

  /**
   * `getStatus`: lower-case the name, reject it unless it is in the closed
   * vocabulary, then map it to its status constant.
   */
  function GetStatus(status: string): (r: Result<Status, Error>)
    ensures r.Ok? <==> ToLower(status) in ValidStatus
    ensures r.Ok? ==> ToLower(status) in StatusWords(r.value)
    ensures r.Err? ==> r.error == InvalidStatus(ToLower(status))
  {
    var s := ToLower(status);
    if s !in ValidStatus then Err(InvalidStatus(s))
    else if s == "published" || s == "pub" then Ok(Published)
    else if s == "block" || s == "blocked" then Ok(Blocked)
    else if s == "hide" || s == "hidden" then Ok(Hidden)
    else assert false; Ok(Published)
  }

  /** Every entry of the vocabulary names exactly one status. */
  lemma StatusVocabularyPartition()
    ensures (set w | w in ValidStatus) == StatusWords(Published) + StatusWords(Blocked) + StatusWords(Hidden)
    ensures StatusWords(Published) !! StatusWords(Blocked)
    ensures StatusWords(Published) !! StatusWords(Hidden)
    ensures StatusWords(Blocked) !! StatusWords(Hidden)
  {
  }

  /** `getStatus` returns a status exactly for the names of that status. */
  lemma GetStatusExact(status: string, st: Status)
    ensures GetStatus(status) == Ok(st) <==> ToLower(status) in StatusWords(st)
  {
  }

  /** Lower-casing an already lower-cased name changes nothing. */
  lemma ToLowerIdempotent(s: string)
    ensures ToLower(ToLower(s)) == ToLower(s)
  {
  }

  /** The status name is case-insensitive: only its lower-case form matters. */
  lemma GetStatusIgnoresCase(status: string)
    ensures GetStatus(status) == GetStatus(ToLower(status))
  {
    ToLowerIdempotent(status);
  }

  /** The help text's `--status=bloq` is not a valid status name. */
  lemma HelpStatusBloqRejected()
    ensures GetStatus("bloq") == Err(InvalidStatus("bloq"))
  {
    assert ToLower("bloq") == "bloq";
  }

  /** The short name "pub" is accepted as the published status. */
  lemma LowerCasePubAccepted()
    ensures GetStatus("pub") == Ok(Published)
  {
    var l := ToLower("pub");
    assert l[0] == 'p' && l[1] == 'u' && l[2] == 'b';
    assert l == "pub";
  }

  /** The mixed-case name "Hidden" is lower-cased and accepted as the hidden status. */
  lemma MixedCaseHiddenAccepted()
    ensures GetStatus("Hidden") == Ok(Hidden)
  {
    var l := ToLower("Hidden");
    assert l[0] == 'h' && l[1] == 'i' && l[2] == 'd' && l[3] == 'd' && l[4] == 'e' && l[5] == 'n';
    assert l == "hidden";
  }

  // ---------------------------------------------------------------------------
  // tagMultimediaObject: the tag query and the count check
  // ---------------------------------------------------------------------------

  /** Ids of the tags `findBy(origin=youtube, youtube $in tagIds)` returns. */
  function FoundTags(tags: map<string, Tag>, tagIds: seq<string>): set<string>
  {
    set k | k in tags && YoutubeTagRef(tags[k]).Some? && YoutubeTagRef(tags[k]).value in tagIds
  }

  /**
   * The filter `origin == 'youtube' && youtube $in tagIds` on tag `k`, as the
   * query states it.
   */
  ghost predicate Selects(tags: map<string, Tag>, tagIds: seq<string>, k: string)
  {
    k in tags && FromYoutube(tags[k].properties)
    && exists i :: 0 <= i < |tagIds| && HasText(tags[k].properties, YoutubeKey, tagIds[i])
  }

  /** `findBy` selects exactly the tags the query's filter admits. */
  lemma FoundTagsFilter(tags: map<string, Tag>, tagIds: seq<string>, k: string)
    ensures k in FoundTags(tags, tagIds) <==> Selects(tags, tagIds, k)
  {
  }

  /**
   * The count check.  It passes with the YouTube tags whose `youtube`
   * property is one of the requested ids, as many as there are ids, or fails
   * with both counts.  When no two YouTube tags share a `youtube` property
   * and the ids are distinct, it passes exactly when every id resolves.
   */
  function CheckTags(tags: map<string, Tag>, tagIds: seq<string>): (r: Result<set<string>, Error>)
    ensures UniqueYoutubeRefs(tags) && Distinct(tagIds) ==> (r.Ok? <==> AllResolve(tags, tagIds))
    ensures r.Ok? ==> |r.value| == |tagIds|
    ensures r.Ok? ==> forall k :: k in r.value <==> Selects(tags, tagIds, k)
    ensures r.Ok? ==> r.value == FoundTags(tags, tagIds)
    ensures r.Err? ==> r.error == TagsNotFound(|tagIds|, |FoundTags(tags, tagIds)|)
                       && |FoundTags(tags, tagIds)| != |tagIds|
  {
    FoundCountMeansAllResolve(tags, tagIds);
    var found := FoundTags(tags, tagIds);
    if |tagIds| != |found| then Err(TagsNotFound(|tagIds|, |found|)) else Ok(found)
  }

  /** Some YouTube tag carries `ref` in its `youtube` property. */
  ghost predicate Resolves(tags: map<string, Tag>, ref: string)
  {
    exists k :: k in tags && YoutubeTagRef(tags[k]) == Some(ref)
  }

  ghost predicate AllResolve(tags: map<string, Tag>, tagIds: seq<string>)
  {
    forall i :: 0 <= i < |tagIds| ==> Resolves(tags, tagIds[i])
  }

  /** No two YouTube tags carry the same `youtube` property. */
  ghost predicate UniqueYoutubeRefs(tags: map<string, Tag>)
  {
    forall a, b :: a in tags && b in tags && YoutubeTagRef(tags[a]).Some? && YoutubeTagRef(tags[a]) == YoutubeTagRef(tags[b]) ==> a == b
  }

  predicate Distinct(ids: seq<string>)
  {
    forall i, j :: 0 <= i < j < |ids| ==> ids[i] != ids[j]
  }

  /** The `youtube` properties of the tags `ks`. */
  function RefsOf(tags: map<string, Tag>, ks: set<string>): set<string>
  {
    set k | k in ks && k in tags && YoutubeTagRef(tags[k]).Some? :: YoutubeTagRef(tags[k]).value
  }

  lemma {:induction false} RefsOfCard(tags: map<string, Tag>, ks: set<string>)
    requires ks <= tags.Keys
    requires forall k :: k in ks ==> YoutubeTagRef(tags[k]).Some?
    requires UniqueYoutubeRefs(tags)
    ensures |RefsOf(tags, ks)| == |ks|
    decreases ks
  {
    if ks != {} {
      var k :| k in ks;
      var rest := ks - {k};
      RefsOfCard(tags, rest);
      var v := YoutubeTagRef(tags[k]).value;
      assert RefsOf(tags, ks) == RefsOf(tags, rest) + {v};
      assert v !in RefsOf(tags, rest);
    }
  }

  lemma {:induction false} DistinctCard(ids: seq<string>)
    requires Distinct(ids)
    ensures |(set x | x in ids)| == |ids|
  {
    if ids != [] {
      DistinctCard(ids[1..]);
      assert (set x | x in ids) == (set x | x in ids[1..]) + {ids[0]};
      assert ids[0] !in ids[1..];
    }
  }

  lemma SubsetSameCard(a: set<string>, b: set<string>)
    requires a <= b && |a| == |b|
    ensures a == b
  {
    if x :| x in b && x !in a {
      assert |b - {x}| == |b| - 1;
      SubsetCard(a, b - {x});
      assert false;
    }
  }

  lemma {:induction false} SubsetCard(a: set<string>, b: set<string>)
    requires a <= b
    ensures |a| <= |b|
    decreases b
  {
    if a != {} {
      var x :| x in a;
      SubsetCard(a - {x}, b - {x});
    }
  }

  /**
   * When no two YouTube tags share a `youtube` property and the requested ids
   * are distinct, `findBy` finds as many tags as there are ids exactly when
   * every requested id resolves to a tag.
   */
  lemma FoundCountMeansAllResolve(tags: map<string, Tag>, tagIds: seq<string>)
    ensures UniqueYoutubeRefs(tags) && Distinct(tagIds) ==> (|FoundTags(tags, tagIds)| == |tagIds| <==> AllResolve(tags, tagIds))
  {
    if UniqueYoutubeRefs(tags) && Distinct(tagIds) {
      var found := FoundTags(tags, tagIds);
      var refs := RefsOf(tags, found);
      var requested := set x | x in tagIds;
      RefsOfCard(tags, found);
      DistinctCard(tagIds);
      assert refs <= requested;
      if AllResolve(tags, tagIds) {
        forall x | x in requested ensures x in refs {
          var i :| 0 <= i < |tagIds| && tagIds[i] == x;
          assert Resolves(tags, tagIds[i]);
          var k :| k in tags && YoutubeTagRef(tags[k]) == Some(x);
          assert k in found;
        }
        assert refs == requested;
      }
      if |found| == |tagIds| {
        SubsetSameCard(refs, requested);
        forall i | 0 <= i < |tagIds| ensures Resolves(tags, tagIds[i]) {
          assert tagIds[i] in refs;
          var k :| k in found && YoutubeTagRef(tags[k]).value == tagIds[i];
        }
      }
    }
  }

  /** A tag stamped as imported from YouTube with `youtube=ref`. */
  function YoutubeTag(id: string, ref: string): Tag
  {
    Tag(id, map[], map[OriginKey := Text(YoutubeOrigin), YoutubeKey := Text(ref)])
  }

  /**
   * Without unique `youtube` properties the count check can pass although an
   * id is missing: two tags for "A" make up for the unresolved "B".
   */
  lemma DuplicateRefsHideMissingId()
    ensures var tags := map["t1" := YoutubeTag("t1", "A"), "t2" := YoutubeTag("t2", "A")];
            CheckTags(tags, ["A", "B"]) == Ok({"t1", "t2"}) && !Resolves(tags, "B")
  {
    var tags := map["t1" := YoutubeTag("t1", "A"), "t2" := YoutubeTag("t2", "A")];
    assert YoutubeTagRef(tags["t1"]) == Some("A");
    assert YoutubeTagRef(tags["t2"]) == Some("A");
    assert FoundTags(tags, ["A", "B"]) == {"t1", "t2"};
  }

  /** A repeated id is rejected although it resolves. */
  lemma RepeatedIdRejected()
    ensures var tags := map["t1" := YoutubeTag("t1", "A")];
            CheckTags(tags, ["A", "A"]) == Err(TagsNotFound(2, 1)) && AllResolve(tags, ["A", "A"])
  {
    var tags := map["t1" := YoutubeTag("t1", "A")];
    assert YoutubeTagRef(tags["t1"]) == Some("A");
    assert FoundTags(tags, ["A", "A"]) == {"t1"};
  }

  /** An empty tag list passes the check and selects nothing. */
  lemma EmptyTagListSelectsNothing(tags: map<string, Tag>)
    ensures CheckTags(tags, []) == Ok({})
  {
  }

  // ---------------------------------------------------------------------------
  // getSeries: the three tiers
  // ---------------------------------------------------------------------------

  /** PHP's `!$seriesId`: an absent argument, the empty string or "0". */
  predicate Falsy(ref: Option<string>)
  {
    ref.None? || ref.value == "" || ref.value == "0"
  }

  /**
   * `!$seriesId` holds for a missing argument, "" and "0", and for no other
   * string: "00", "0.0" and " " name a series.
   */
  lemma FalsySeriesArguments()
    ensures Falsy(None) && Falsy(Some("")) && Falsy(Some("0"))
    ensures !Falsy(Some("00")) && !Falsy(Some("0.0")) && !Falsy(Some(" "))
  {
  }

  /** Ids of the series `findOneBy(origin=youtube, fromyoutubetag=ref)` may return. */
  function SeriesWithTagRef(series: map<string, Series>, ref: string): set<string>
  {
    set k | k in series && FromYoutube(series[k].properties) && HasText(series[k].properties, FromYoutubeTagKey, ref)
  }

  /** Ids of the tags `findOneBy(origin=youtube, youtube=ref)` may return. */
  function TagsWithRef(tags: map<string, Tag>, ref: string): set<string>
  {
    set k | k in tags && YoutubeTagRef(tags[k]) == Some(ref)
  }

  /** The series the last tier builds from a YouTube tag. */
  function SeriesFromTag(id: string, tag: Tag, ref: string): Series
  {
    Series(id, tag.i18nTitle, map[OriginKey := Text(YoutubeOrigin), FromYoutubeTagKey := Text(ref)])
  }

  /** The exception `getSeries` throws, or `None` when one of its tiers applies. */
  function SeriesError(series: map<string, Series>, tags: map<string, Tag>, ref: Option<string>): Option<Error>
  {
    if Falsy(ref) then Some(NoSeriesId)
    else if ref.value in series || SeriesWithTagRef(series, ref.value) != {} || TagsWithRef(tags, ref.value) != {} then None
    else Some(NoSeriesOrTag(ref.value))
  }

  /**
   * `getSeries` throws "No series id" exactly for a falsy argument, and
   * otherwise throws exactly when no series has the id, no series is stamped
   * `fromyoutubetag=ref` and no tag is stamped `youtube=ref`.
   */
  lemma SeriesErrorMeans(series: map<string, Series>, tags: map<string, Tag>, ref: Option<string>)
    ensures SeriesError(series, tags, ref) == Some(NoSeriesId) <==> Falsy(ref)
    ensures !Falsy(ref) ==>
              (SeriesError(series, tags, ref).None? <==>
                 ref.value in series
                 || (exists k :: k in series && FromYoutube(series[k].properties)
                                 && HasText(series[k].properties, FromYoutubeTagKey, ref.value))
                 || (exists t :: t in tags && YoutubeTagRef(tags[t]) == Some(ref.value)))
    ensures !Falsy(ref) && SeriesError(series, tags, ref).Some? ==>
              SeriesError(series, tags, ref) == Some(NoSeriesOrTag(ref.value))
  {
    if !Falsy(ref) {
      if SeriesWithTagRef(series, ref.value) != {} {
        var k :| k in SeriesWithTagRef(series, ref.value);
      }
      if TagsWithRef(tags, ref.value) != {} {
        var t :| t in TagsWithRef(tags, ref.value);
      }
      if exists k :: k in series && FromYoutube(series[k].properties)
                     && HasText(series[k].properties, FromYoutubeTagKey, ref.value) {
        var k :| k in series && FromYoutube(series[k].properties)
                 && HasText(series[k].properties, FromYoutubeTagKey, ref.value);
        assert k in SeriesWithTagRef(series, ref.value);
      }
      if exists t :: t in tags && YoutubeTagRef(tags[t]) == Some(ref.value) {
        var t :| t in tags && YoutubeTagRef(tags[t]) == Some(ref.value);
        assert t in TagsWithRef(tags, ref.value);
      }
    }
  }

  /**
   * The series created from a tag is the only one the second tier finds for
   * the same reference afterwards, so a repeated resolution creates nothing.
   */
  lemma CreatedSeriesFoundByTag(series: map<string, Series>, id: string, tag: Tag, ref: string)
    requires SeriesWithTagRef(series, ref) == {} && id !in series
    ensures SeriesWithTagRef(series[id := SeriesFromTag(id, tag, ref)], ref) == {id}
  {
  }

  /**
   * The series a successful `getSeries` returns, tier by tier: the one with
   * id `ref`; else one stamped `fromyoutubetag=ref`; else a new one built
   * from a tag stamped `youtube=ref`.
   */
  ghost predicate ResolvedBy(before: map<string, Series>, after: map<string, Series>, tags: map<string, Tag>, ref: string, s: Series)
  {
    if ref in before then
      s == before[ref] && after == before
    else if SeriesWithTagRef(before, ref) != {} then
      s.id in SeriesWithTagRef(before, ref) && s == before[s.id] && after == before
    else
      s.id !in before && after == before[s.id := s]
      && exists t :: t in TagsWithRef(tags, ref) && s == SeriesFromTag(s.id, tags[t], ref)
  }

  // ---------------------------------------------------------------------------
  // getMmObjFromYid and createMultimediaObject
  // ---------------------------------------------------------------------------

  /** Ids of the objects `findOneBy(properties.youtubemeta.id == yid)` may return. */
  function ObjectsWithMeta(mmobjs: map<string, MultimediaObject>, yid: string): set<string>
  {
    set k | k in mmobjs && YoutubeMetaId(mmobjs[k]) == Some(yid)
  }

  /**
   * `id` is an object `getMmObjFromYid(yid)` may return: one whose stored
   * metadata has id `yid`, or, when there is none, the object the legacy
   * `Youtube` document for `yid` points to.
   */
  predicate FindsObject(mmobjs: map<string, MultimediaObject>, youtubeDocs: map<string, string>, yid: string, id: string)
  {
    id in mmobjs &&
    if ObjectsWithMeta(mmobjs, yid) != {} then id in ObjectsWithMeta(mmobjs, yid)
    else yid in youtubeDocs && youtubeDocs[yid] == id
  }

  /** `getMmObjFromYid(yid)` returns an object rather than `null`. */
  predicate KnownVideo(mmobjs: map<string, MultimediaObject>, youtubeDocs: map<string, string>, yid: string)
  {
    ObjectsWithMeta(mmobjs, yid) != {} || (yid in youtubeDocs && youtubeDocs[yid] in mmobjs)
  }

  lemma KnownVideoIffFinds(mmobjs: map<string, MultimediaObject>, youtubeDocs: map<string, string>, yid: string)
    ensures KnownVideo(mmobjs, youtubeDocs, yid) <==> exists id :: FindsObject(mmobjs, youtubeDocs, yid, id)
  {
    if KnownVideo(mmobjs, youtubeDocs, yid) {
      if ObjectsWithMeta(mmobjs, yid) != {} {
        var id :| id in ObjectsWithMeta(mmobjs, yid);
        assert FindsObject(mmobjs, youtubeDocs, yid, id);
      } else {
        assert FindsObject(mmobjs, youtubeDocs, yid, youtubeDocs[yid]);
      }
    }
  }

  /**
   * Step 1 resolved (perhaps created) series `s` for `ref` and persisted
   * exactly one new object, `id`, in it.
   */
  ghost predicate Created(seriesBefore: map<string, Series>, series: map<string, Series>, tags: map<string, Tag>,
                          ref: string, s: Series, mmobjsBefore: map<string, MultimediaObject>,
                          mmobjs: map<string, MultimediaObject>, id: string)
  {
    && ResolvedBy(seriesBefore, series, tags, ref, s)
    && id in mmobjs && id !in mmobjsBefore && mmobjs == mmobjsBefore[id := mmobjs[id]]
    && mmobjs[id].seriesId == s.id
  }

  /**
   * What `createMultimediaObject` writes into the new object: the status, the
   * metadata's title, its description and tags when present (the factory's
   * empty defaults otherwise), both dates parsed from the first 19 characters
   * of `publishedAt`, and the properties `origin=youtube` and
   * `youtubemeta=$meta['out']`.
   */
  ghost predicate CopiedFrom(m: MultimediaObject, status: Status, out: VideoOut)
  {
    var sn := out.snippet;
    && m.status == status
    && m.title == sn.title
    && m.description == (if sn.description.Some? then sn.description.value else "")
    && m.keywords == (if sn.tags.Some? then sn.tags.value else [])
    && m.recordDate == FromFormat(Prefix(sn.publishedAt, 19))
    && m.publicDate == m.recordDate
    && m.properties == map[OriginKey := Text(YoutubeOrigin), YoutubeMetaKey := VideoMeta(out)]
  }

  /** Once an object is created from a video's metadata, the video is known. */
  lemma CreatedObjectIsFound(mmobjs: map<string, MultimediaObject>, youtubeDocs: map<string, string>,
                             m: MultimediaObject, status: Status, out: VideoOut)
    requires CopiedFrom(m, status, out)
    ensures KnownVideo(mmobjs[m.id := m], youtubeDocs, out.id)
  {
    assert m.id in ObjectsWithMeta(mmobjs[m.id := m], out.id);
  }

  /** At most one multimedia object holds the metadata of any one video. */
  ghost predicate OnePerVideo(mmobjs: map<string, MultimediaObject>)
  {
    forall y, a, b :: a in ObjectsWithMeta(mmobjs, y) && b in ObjectsWithMeta(mmobjs, y) ==> a == b
  }

  /**
   * Adding an object for a video no object holds yet keeps at most one
   * object per video.
   */
  lemma AddKeepsOnePerVideo(before: map<string, MultimediaObject>, id: string, m: MultimediaObject, yid: string)
    requires OnePerVideo(before) && id !in before
    requires YoutubeMetaId(m) == Some(yid) && ObjectsWithMeta(before, yid) == {}
    ensures OnePerVideo(before[id := m])
  {
    var after := before[id := m];
    forall y, a, b | a in ObjectsWithMeta(after, y) && b in ObjectsWithMeta(after, y) ensures a == b {
      if y == yid {
        assert ObjectsWithMeta(after, y) <= {id};
      } else {
        assert ObjectsWithMeta(after, y) <= ObjectsWithMeta(before, y);
      }
    }
  }

  /** The 19-character prefix drops the fraction and time zone of a YouTube timestamp. */
  lemma PublishedAtPrefix()
    ensures Prefix("2016-10-18T14:44:49.000Z", 19) == "2016-10-18T14:44:49"
  {
  }

  /** The document store gives a newly persisted document an id not in use. */
  method NewId(used: set<string>) returns (id: string)
    ensures id !in used
  {
    var longest: nat := 0;
    var rest := used;
    while rest != {}
      invariant rest <= used
      invariant forall u :: u in used - rest ==> |u| <= longest
      decreases rest
    {
      var u :| u in rest;
      if |u| > longest {
        longest := |u|;
      }
      rest := rest - {u};
    }
    id := seq(longest + 1, _ => '0');
    assert |id| > longest;
  }

  // ---------------------------------------------------------------------------
  // The command over the document store
  // ---------------------------------------------------------------------------

  /**
   * Every document is stored under its own id, and `getVideoMeta(y)` returns
   * the resource of video `y`.
   */
  ghost predicate Consistent(series: map<string, Series>, tags: map<string, Tag>,
                             mmobjs: map<string, MultimediaObject>, videos: map<string, VideoOut>)
  {
    && (forall k :: k in series ==> series[k].id == k)
    && (forall k :: k in tags ==> tags[k].id == k)
    && (forall k :: k in mmobjs ==> mmobjs[k].id == k)
    && (forall y :: y in videos ==> videos[y].id == y)
  }

  /** The calls attach each tag of `ids` to object `mmObjId` exactly once. */
  ghost predicate AttachesEach(calls: seq<Attachment>, mmObjId: string, ids: set<string>)
  {
    && |calls| == |ids|
    && (forall i :: 0 <= i < |calls| ==> calls[i].mmObjId == mmObjId && calls[i].tagId in ids)
    && (forall k :: k in ids ==> exists i :: 0 <= i < |calls| && calls[i].tagId == k)
  }

  /** Loop state of the `addTag` loop: the calls so far cover the tags not left in `todo`. */
  ghost predicate AttachedSoFar(added: seq<Attachment>, mmObjId: string, ids: set<string>, todo: set<string>)
  {
    && todo <= ids
    && |added| + |todo| == |ids|
    && (forall i :: 0 <= i < |added| ==> added[i].mmObjId == mmObjId && added[i].tagId in ids && added[i].tagId !in todo)
    && (forall k :: k in ids && k !in todo ==> exists i :: 0 <= i < |added| && added[i].tagId == k)
  }

  lemma AttachOne(added: seq<Attachment>, mmObjId: string, ids: set<string>, todo: set<string>, k: string)
    requires AttachedSoFar(added, mmObjId, ids, todo) && k in todo
    ensures AttachedSoFar(added + [Attachment(mmObjId, k)], mmObjId, ids, todo - {k})
  {
    var next := added + [Attachment(mmObjId, k)];
    forall t | t in ids && t !in todo - {k} ensures exists i :: 0 <= i < |next| && next[i].tagId == t {
      if t == k {
        assert next[|added|].tagId == t;
      } else {
        var i :| 0 <= i < |added| && added[i].tagId == t;
        assert next[i] == added[i];
      }
    }
  }

  /** Everything the command can read or change, as one value. */
  datatype StoreState = StoreState(
    series: map<string, Series>,
    tags: map<string, Tag>,
    mmobjs: map<string, MultimediaObject>,
    youtubeDocs: map<string, string>,
    videos: map<string, VideoOut>,
    attached: seq<Attachment>)

  class Command {
    /** The `Series` collection, by id. */
    var series: map<string, Series>
    /** The `Tag` collection, by id. */
    var tags: map<string, Tag>
    /** The `MultimediaObject` collection, by id. */
    var mmobjs: map<string, MultimediaObject>
    /** The legacy `Youtube` documents: `youtubeId` to multimedia object id. */
    var youtubeDocs: map<string, string>
    /** The videos `youtubeService->getVideoMeta` returns, by YouTube id. */
    var videos: map<string, VideoOut>
    /** The `tagService->addTag` calls made, in order. */
    var attached: seq<Attachment>

    ghost function State(): StoreState
      reads this
    {
      StoreState(series, tags, mmobjs, youtubeDocs, videos, attached)
    }

    ghost predicate Valid()
      reads this
    {
      Consistent(series, tags, mmobjs, videos)
    }

    /** `initParameters`: bind the command to the store's collections. */
    constructor (series: map<string, Series>, tags: map<string, Tag>, mmobjs: map<string, MultimediaObject>,
                 youtubeDocs: map<string, string>, videos: map<string, VideoOut>)
      requires Consistent(series, tags, mmobjs, videos)
      ensures Valid()
      ensures this.series == series && this.tags == tags && this.mmobjs == mmobjs
      ensures this.youtubeDocs == youtubeDocs && this.videos == videos && attached == []
    {
      this.series := series;
      this.tags := tags;
      this.mmobjs := mmobjs;
      this.youtubeDocs := youtubeDocs;
      this.videos := videos;
      attached := [];
    }

    /** Step 1 goes past its guards: valid status, new video, resolvable series. */
    ghost predicate Step1Proceeds(yid: string, seriesArg: Option<string>, status: string)
      reads this
    {
      GetStatus(status).Ok? && !KnownVideo(mmobjs, youtubeDocs, yid) && SeriesError(series, tags, seriesArg).None?
    }

    /** `getMmObjFromYid`: by stored metadata id first, then through the legacy documents. */
    method GetMmObjFromYid(yid: string) returns (r: Option<MultimediaObject>)
      requires Valid()
      ensures r.Some? <==> KnownVideo(mmobjs, youtubeDocs, yid)
      ensures r.Some? ==> FindsObject(mmobjs, youtubeDocs, yid, r.value.id) && mmobjs[r.value.id] == r.value
    {
      var byMeta := ObjectsWithMeta(mmobjs, yid);
      if byMeta != {} {
        var k :| k in byMeta;
        return Some(mmobjs[k]);
      }
      if yid !in youtubeDocs {
        return None;
      }
      var id := youtubeDocs[yid];
      if id in mmobjs {
        return Some(mmobjs[id]);
      }
      return None;
    }

    /** `getSeries`: three tiers, the last of which creates and persists a series. */
    method GetSeries(ref: Option<string>) returns (r: Result<Series, Error>)
      requires Valid()
      modifies this
      ensures Valid()
      ensures tags == old(tags) && mmobjs == old(mmobjs) && youtubeDocs == old(youtubeDocs)
      ensures videos == old(videos) && attached == old(attached)
      ensures r.Err? <==> SeriesError(old(series), tags, ref).Some?
      ensures r.Err? ==> r.error == SeriesError(old(series), tags, ref).value && series == old(series)
      ensures r.Ok? ==> ResolvedBy(old(series), series, tags, ref.value, r.value)
      ensures r.Ok? ==> r.value.id in series && series[r.value.id] == r.value
    {
      if Falsy(ref) {
        return Err(NoSeriesId);
      }
      var id := ref.value;
      if id in series {
        return Ok(series[id]);
      }
      var byTag := SeriesWithTagRef(series, id);
      if byTag != {} {
        var k :| k in byTag;
        return Ok(series[k]);
      }
      var matching := TagsWithRef(tags, id);
      if matching != {} {
        var t :| t in matching;
        var newId := NewId(series.Keys);
        var s := SeriesFromTag(newId, tags[t], id);
        series := series[newId := s];
        return Ok(s);
      }
      return Err(NoSeriesOrTag(id));
    }

    /**
     * `createMultimediaObject`: fetch the metadata, fill a new object of the
     * series from it and persist it; nothing is persisted when the fetch fails.
     */
    method CreateMultimediaObject(s: Series, yid: string, status: Status) returns (r: Option<MultimediaObject>)
      requires Valid()
      modifies this
      ensures Valid()
      ensures series == old(series) && tags == old(tags) && youtubeDocs == old(youtubeDocs)
      ensures videos == old(videos) && attached == old(attached)
      ensures r.None? <==> yid !in videos
      ensures r.None? ==> mmobjs == old(mmobjs)
      ensures r.Some? ==> r.value.id !in old(mmobjs) && mmobjs == old(mmobjs)[r.value.id := r.value]
      ensures r.Some? ==> r.value.seriesId == s.id && CopiedFrom(r.value, status, videos[yid])
      ensures old(OnePerVideo(mmobjs)) && ObjectsWithMeta(old(mmobjs), yid) == {} ==> OnePerVideo(mmobjs)
    {
      if yid !in videos {
        return None;
      }
      var meta := videos[yid];
      var sn := meta.snippet;
      var id := NewId(mmobjs.Keys);
      // The factory's new object, then the setters in the order the command calls them.
      var m := MultimediaObject(id, s.id, status, "", "", [], FromFormat(""), FromFormat(""), map[]);
      m := m.(title := sn.title);
      if sn.description.Some? {
        m := m.(description := sn.description.value);
      }
      if sn.tags.Some? {
        m := m.(keywords := sn.tags.value);
      }
      var date := FromFormat(Prefix(sn.publishedAt, 19));
      m := m.(recordDate := date, publicDate := date);
      m := m.(properties := m.properties[OriginKey := Text(YoutubeOrigin)]);
      m := m.(properties := m.properties[YoutubeMetaKey := VideoMeta(meta)]);
      if OnePerVideo(mmobjs) && ObjectsWithMeta(mmobjs, yid) == {} {
        AddKeepsOnePerVideo(mmobjs, id, m, yid);
      }
      mmobjs := mmobjs[id := m];
      return Some(m);
    }

    /**
     * `tagMultimediaObject`: query the YouTube tags for the ids, throw unless
     * as many were found as ids were given, else call `addTag` once per tag.
     */
    method TagMultimediaObject(mm: MultimediaObject, tagIds: seq<string>) returns (err: Option<Error>)
      requires Valid()
      modifies this
      ensures Valid()
      ensures series == old(series) && tags == old(tags) && mmobjs == old(mmobjs)
      ensures youtubeDocs == old(youtubeDocs) && videos == old(videos)
      ensures CheckTags(tags, tagIds).Err? ==> err == Some(CheckTags(tags, tagIds).error) && attached == old(attached)
      ensures CheckTags(tags, tagIds).Ok? ==>
                err.None? && |old(attached)| <= |attached| && attached[..|old(attached)|] == old(attached)
                && AttachesEach(attached[|old(attached)|..], mm.id, FoundTags(tags, tagIds))
    {
      var found := CheckTags(tags, tagIds);
      if found.Err? {
        return Some(found.error);
      }
      AddTags(mm, found.value);
      return None;
    }

    /** The `foreach` of `tagMultimediaObject`: one `addTag` call per tag of `found`. */
    method AddTags(mm: MultimediaObject, found: set<string>)
      requires Valid()
      modifies this
      ensures Valid()
      ensures series == old(series) && tags == old(tags) && mmobjs == old(mmobjs)
      ensures youtubeDocs == old(youtubeDocs) && videos == old(videos)
      ensures |old(attached)| <= |attached| && attached[..|old(attached)|] == old(attached)
      ensures AttachesEach(attached[|old(attached)|..], mm.id, found)
    {
      var todo := found;
      ghost var added: seq<Attachment> := [];
      while todo != {}
        invariant series == old(series) && tags == old(tags) && mmobjs == old(mmobjs)
        invariant youtubeDocs == old(youtubeDocs) && videos == old(videos)
        invariant attached == old(attached) + added
        invariant AttachedSoFar(added, mm.id, found, todo)
        decreases todo
      {
        var k :| k in todo;
        AttachOne(added, mm.id, found, todo, k);
        attached := attached + [Attachment(mm.id, k)];
        added := added + [Attachment(mm.id, k)];
        todo := todo - {k};
      }
      assert attached[|old(attached)|..] == added;
    }

    /**
     * `execute`: dispatch on the step.  Step 1 validates the status, refuses a
     * video that is already imported, resolves the series, creates the object
     * and tags it when tags were given; step 4 tags an existing object; steps
     * 2 and 3 only print a placeholder.
     */
    method Execute(yid: string, seriesArg: Option<string>, status: string, step: int, tagIds: seq<string>)
      returns (r: Outcome)
      requires Valid()
      modifies this
      ensures Valid()
      ensures tags == old(tags) && youtubeDocs == old(youtubeDocs) && videos == old(videos)
      // Steps 2, 3 and any other number.
      ensures step != 1 && step != 4 ==>
                State() == old(State()) && r == (if step == 2 || step == 3 then Done else Reported(InvalidStep(step)))
      // Step 1, its guards in order.
      ensures step == 1 && GetStatus(status).Err? ==> r == Raised(GetStatus(status).error) && State() == old(State())
      ensures step == 1 && GetStatus(status).Ok? && old(KnownVideo(mmobjs, youtubeDocs, yid)) ==>
                r == ReturnedFalse(AlreadyExists(yid)) && State() == old(State())
      ensures step == 1 && GetStatus(status).Ok? && !old(KnownVideo(mmobjs, youtubeDocs, yid))
              && SeriesError(old(series), tags, seriesArg).Some? ==>
                r == Raised(SeriesError(old(series), tags, seriesArg).value) && State() == old(State())
      // Step 1 past its guards: the series is resolved (perhaps created) whatever follows.
      ensures step == 1 && old(Step1Proceeds(yid, seriesArg, status)) ==>
                exists s :: ResolvedBy(old(series), series, tags, seriesArg.value, s)
      ensures step == 1 && old(Step1Proceeds(yid, seriesArg, status)) && yid !in videos ==>
                mmobjs == old(mmobjs) && attached == old(attached)
                && r == (if tagIds == [] then Reported(NoVideo(yid)) else Raised(NoVideo(yid)))
      ensures step == 1 && old(Step1Proceeds(yid, seriesArg, status)) && yid in videos ==>
                KnownVideo(mmobjs, youtubeDocs, yid)
                && (tagIds == [] || CheckTags(tags, tagIds).Err? ==> attached == old(attached))
                && (tagIds != [] ==> |old(attached)| <= |attached| && attached[..|old(attached)|] == old(attached))
                && (exists s, id :: Created(old(series), series, tags, seriesArg.value, s, old(mmobjs), mmobjs, id)
                                    && CopiedFrom(mmobjs[id], GetStatus(status).value, videos[yid])
                                    && (tagIds != [] && CheckTags(tags, tagIds).Ok? ==>
                                          |old(attached)| <= |attached|
                                          && AttachesEach(attached[|old(attached)|..], id, FoundTags(tags, tagIds))))
                && r == (if tagIds != [] && CheckTags(tags, tagIds).Err? then Raised(CheckTags(tags, tagIds).error) else Done)
      // Step 4.
      ensures step == 4 && !old(KnownVideo(mmobjs, youtubeDocs, yid)) ==> r == ReturnedFalse(NoMmObj(yid)) && State() == old(State())
      ensures step == 4 && old(KnownVideo(mmobjs, youtubeDocs, yid)) ==>
                series == old(series) && mmobjs == old(mmobjs)
                && (CheckTags(tags, tagIds).Err? ==> r == Raised(CheckTags(tags, tagIds).error) && attached == old(attached))
                && (CheckTags(tags, tagIds).Ok? ==>
                      r == Done && |old(attached)| <= |attached| && attached[..|old(attached)|] == old(attached)
                      && exists id :: FindsObject(mmobjs, youtubeDocs, yid, id)
                                      && AttachesEach(attached[|old(attached)|..], id, FoundTags(tags, tagIds)))
      // The lookup before the creation keeps at most one object per video.
      ensures old(OnePerVideo(mmobjs)) ==> OnePerVideo(mmobjs)
    {
      if step == 1 {
        var st := GetStatus(status);
        if st.Err? {
          return Raised(st.error);
        }
        var existing := GetMmObjFromYid(yid);
        if existing.Some? {
          return ReturnedFalse(AlreadyExists(yid));
        }
        var s := GetSeries(seriesArg);
        if s.Err? {
          return Raised(s.error);
        }
        var mm := CreateMultimediaObject(s.value, yid, st.value);
        if mm.Some? {
          CreatedObjectIsFound(old(mmobjs), youtubeDocs, mm.value, st.value, videos[yid]);
          assert mmobjs[mm.value.id] == mm.value && mm.value.seriesId == s.value.id;
        }
        assert ResolvedBy(old(series), series, tags, seriesArg.value, s.value);
        if tagIds != [] {
          if mm.None? {
            // PHP passes `false` to the typed parameter of tagMultimediaObject.
            return Raised(NoVideo(yid));
          }
          var e := TagMultimediaObject(mm.value, tagIds);
          assert Created(old(series), series, tags, seriesArg.value, s.value, old(mmobjs), mmobjs, mm.value.id);
          if e.Some? {
            return Raised(e.value);
          }
        } else if mm.None? {
          return Reported(NoVideo(yid));
        } else {
          assert Created(old(series), series, tags, seriesArg.value, s.value, old(mmobjs), mmobjs, mm.value.id);
        }
        return Done;
      } else if step == 2 || step == 3 {
        return Done;
      } else if step == 4 {
        var mm := GetMmObjFromYid(yid);
        if mm.None? {
          return ReturnedFalse(NoMmObj(yid));
        }
        var e := TagMultimediaObject(mm.value, tagIds);
        if e.Some? {
          return Raised(e.value);
        }
        return Done;
      } else {
        return Reported(InvalidStep(step));
      }
    }
  }

  /**
   * Importing the same video twice: once the first run has created the
   * object, whether it then tagged it or its tag check threw, the second run
   * refuses with `AlreadyExists` and changes nothing, so a single object
   * exists for the video.
   */
  method ImportTwice(c: Command, yid: string, seriesArg: Option<string>, status: string, tagIds: seq<string>)
    returns (first: Outcome, second: Outcome, ghost afterFirst: StoreState)
    requires c.Valid()
    modifies c
    ensures c.Valid()
    ensures first.Done? || (first.Raised? && first.error.TagsNotFound?) ==>
              second == ReturnedFalse(AlreadyExists(yid)) && c.State() == afterFirst
    ensures first.Done? || (first.Raised? && first.error.TagsNotFound?) ==>
              exists id :: id in c.mmobjs && id !in old(c.mmobjs) && c.mmobjs == old(c.mmobjs)[id := c.mmobjs[id]]
  {
    first := c.Execute(yid, seriesArg, status, 1, tagIds);
    afterFirst := c.State();
    second := c.Execute(yid, seriesArg, status, 1, tagIds);
    assert first.Done? || (first.Raised? && first.error.TagsNotFound?) ==> c.State() == afterFirst;
  }

  /**
   * Resolving the same series reference twice: the second call always
   * succeeds when the first did and never creates a series, and a series
   * the first call created is the one the second call returns.
   */
  method GetSeriesTwice(c: Command, ref: Option<string>) returns (first: Result<Series, Error>, second: Result<Series, Error>)
    requires c.Valid()
    modifies c
    ensures c.Valid()
    ensures first.Ok? ==> second.Ok? && c.series == old(c.series)[first.value.id := first.value]
    ensures first.Ok? && first.value.id !in old(c.series) ==> second == first
  {
    first := c.GetSeries(ref);
    if first.Ok? && first.value.id !in old(c.series) {
      var id := first.value.id;
      var t :| t in TagsWithRef(c.tags, ref.value) && first.value == SeriesFromTag(id, c.tags[t], ref.value);
      CreatedSeriesFoundByTag(old(c.series), id, c.tags[t], ref.value);
    }
    second := c.GetSeries(ref);
  }

  /**
   * The series reference "PLxxxx" names no series but a YouTube tag: step 1
   * creates one series from the tag, stamped as coming from it, and one
   * object of that series filled from the video, with no tags attached.
   */
  method SeriesFromTagScenario() returns (r: Outcome, s: Series, m: MultimediaObject)
    ensures r == Done
    ensures s.i18nTitle == map["en" := "Playlist"]
    ensures s.properties == map[OriginKey := Text(YoutubeOrigin), FromYoutubeTagKey := Text("PLxxxx")]
    ensures m.seriesId == s.id && m.status == Published
    ensures m.title == "Title" && m.description == "Text" && m.keywords == []
    ensures m.recordDate == FromFormat("2016-10-18T14:44:49") && m.publicDate == m.recordDate
  {
    var tag := Tag("t1", map["en" := "Playlist"], map[OriginKey := Text(YoutubeOrigin), YoutubeKey := Text("PLxxxx")]);
    var out := VideoOut("6aeJ7kOVfH8", Snippet("Title", Some("Text"), None, "2016-10-18T14:44:49.000Z"));
    var c := new Command(map[], map["t1" := tag], map[], map[], map["6aeJ7kOVfH8" := out]);
    LowerCasePubAccepted();
    PublishedAtPrefix();
    assert YoutubeTagRef(tag) == Some("PLxxxx");
    assert TagsWithRef(c.tags, "PLxxxx") == {"t1"};
    assert !Falsy(Some("PLxxxx"));
    assert ObjectsWithMeta(c.mmobjs, "6aeJ7kOVfH8") == {};
    assert SeriesError(c.series, c.tags, Some("PLxxxx")).None?;
    assert c.Step1Proceeds("6aeJ7kOVfH8", Some("PLxxxx"), "pub");
    r := c.Execute("6aeJ7kOVfH8", Some("PLxxxx"), "pub", 1, []);
    var sid :| sid in c.series;
    var mid :| mid in c.mmobjs;
    ScenarioStore(c.series, c.tags, c.mmobjs, out, sid, mid);
    s := c.series[sid];
    m := c.mmobjs[mid];
  }

  /** After the scenario's step 1, the only series and the only object are the new ones. */
  lemma ScenarioStore(series: map<string, Series>, tags: map<string, Tag>, mmobjs: map<string, MultimediaObject>,
                      out: VideoOut, sid: string, mid: string)
    requires exists s, id :: Created(map[], series, tags, "PLxxxx", s, map[], mmobjs, id)
                             && CopiedFrom(mmobjs[id], Published, out)
    requires sid in series && mid in mmobjs
    ensures exists t :: t in TagsWithRef(tags, "PLxxxx") && series[sid] == SeriesFromTag(sid, tags[t], "PLxxxx")
    ensures mmobjs[mid].seriesId == sid && CopiedFrom(mmobjs[mid], Published, out)
  {
  }
}
