/**
 * The shapes of the MongoDB documents the YouTube import command reads and
 * writes: series, tags, multimedia objects and their free-form `properties`
 * maps, plus the video metadata record returned by the YouTube service.
 */
module Documents {
  import opened Wrappers

  // Property keys and values the command recognises.
  const OriginKey: string := "origin"
  const YoutubeKey: string := "youtube"
  const FromYoutubeTagKey: string := "fromyoutubetag"
  const YoutubeMetaKey: string := "youtubemeta"
  const YoutubeOrigin: string := "youtube"

  /** `$meta['out']['snippet']` of a YouTube video resource. */
  datatype Snippet = Snippet(
    title: string,
    description: Option<string>,
    tags: Option<seq<string>>,
    publishedAt: string)

  /** `$meta['out']`: the video resource, whose `id` is the YouTube id. */
  datatype VideoOut = VideoOut(id: string, snippet: Snippet)

  /** A value stored under one key of a `properties` map. */
  datatype PropValue = Text(text: string) | VideoMeta(out: VideoOut)

  type Properties = map<string, PropValue>

  /** A title per locale. */
  type I18n = map<string, string>

  datatype Status = Published | Blocked | Hidden

  /**
   * The value `DateTime::createFromFormat('Y-m-d\TH:i:s', text)` yields; the
   * parse itself is not modelled, only which text it was applied to.
   */
  datatype DateTime = FromFormat(text: string)

  datatype Series = Series(id: string, i18nTitle: I18n, properties: Properties)

  datatype Tag = Tag(id: string, i18nTitle: I18n, properties: Properties)

  datatype MultimediaObject = MultimediaObject(
    id: string,
    seriesId: string,
    status: Status,
    title: string,
    description: string,
    keywords: seq<string>,
    recordDate: DateTime,
    publicDate: DateTime,
    properties: Properties)

  /** One `addTag($mmobj, $tag)` call made by the command. */
  datatype Attachment = Attachment(mmObjId: string, tagId: string)

  /** The query filter `properties.<key> == value` on a string value. */
  predicate HasText(p: Properties, key: string, value: string)
  {
    key in p && p[key] == Text(value)
  }

  /** The query filter `properties.origin == 'youtube'`. */
  predicate FromYoutube(p: Properties)
  {
    HasText(p, OriginKey, YoutubeOrigin)
  }

  /** `properties.youtube` of a tag stamped with `origin=youtube`, if it is a string. */
  function YoutubeTagRef(t: Tag): (r: Option<string>)
  {
    var p := t.properties;
    if FromYoutube(p) && YoutubeKey in p && p[YoutubeKey].Text? then Some(p[YoutubeKey].text) else None
  }

  /** The filter `properties.youtubemeta.id == yid` of a multimedia object query. */
  function YoutubeMetaId(m: MultimediaObject): (r: Option<string>)
  {
    var p := m.properties;
    if YoutubeMetaKey in p && p[YoutubeMetaKey].VideoMeta? then Some(p[YoutubeMetaKey].out.id) else None
  }

  /** PHP `substr(s, 0, n)`: the first `n` characters, or all of a shorter `s`. */
  function Prefix(s: string, n: nat): (r: string)
    ensures |r| == if |s| < n then |s| else n
    ensures r <= s
  {
    if |s| <= n then s else s[..n]
  }
}
