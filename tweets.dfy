/** The archive records the core reads. Absent or falsy fields are already
  * normalised the way the JavaScript reads them: a missing string is "",
  * an unparseable date is 0, and a `media` field that is not an array is
  * `None`. */
module Tweets {
  import opened Common

  /** One `video_info.variants` entry; a missing bitrate reads as 0. */
  datatype Variant = Variant(contentType: string, bitrate: int, url: string)

  /** One media entity: `url` is the short t.co link, `mediaUrlHttps` and
    * `mediaUrl` the two file URLs, `mediaType` "photo", "video" or
    * "animated_gif". */
  datatype Media = Media(shortUrl: string, mediaUrlHttps: string, mediaUrl: string,
                         mediaType: string, variants: seq<Variant>)

  /** One `entities.urls` entry: the short link and its expansion. */
  datatype UrlEntity = UrlEntity(url: string, expandedUrl: string)

  /** A tweet. `id` is `String(t.id || t.id_str || "")`, `replyToStatusId`
    * is `in_reply_to_status_id_str`, `createdAt` is `Date.parse(created_at) || 0`
    * and the counts are `normalizeCount` of the archive fields. */
  datatype Tweet = Tweet(
    id: string,
    replyToStatusId: string,
    replyToScreenName: string,
    createdAt: int,
    fullText: string,
    retweetCount: int,
    favoriteCount: int,
    extendedMedia: Option<seq<Media>>,
    entityMedia: Option<seq<Media>>,
    urls: seq<UrlEntity>)

  /** `state.tweetById` */
  type TweetIndex = map<string, Tweet>

  function IdOf(t: Tweet): string
  {
    t.id
  }

  function Ids(ts: seq<Tweet>): (r: seq<string>)
    ensures |r| == |ts|
    ensures forall i :: 0 <= i < |ts| ==> r[i] == ts[i].id
  {
    if ts == [] then [] else [ts[0].id] + Ids(ts[1..])
  }

  /** `tweetById.get(id)`, with a missing key as `None`. */
  function Lookup(index: TweetIndex, id: string): Option<Tweet>
  {
    if id in index then Some(index[id]) else None
  }

  /** `ids.map(lookup).filter(Boolean)`: the tweets of the known ids, in order. */
  function ResolveAll(index: TweetIndex, ids: seq<string>): (r: seq<Tweet>)
    ensures |r| <= |ids|
    ensures forall t :: t in r ==> exists id :: id in ids && id in index && index[id] == t
  {
    if ids == [] then []
    else (if ids[0] in index then [index[ids[0]]] else []) + ResolveAll(index, ids[1..])
  }
}
