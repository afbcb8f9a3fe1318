/** The video record the trend listing produces and every later stage
    (keywords, filters, export, AI prompts) consumes. */
module Videos {
  import opened Wrappers

  /** `stats`: whole counts, and the engagement rate as the two-decimal text
      `toFixed(2)` produced. */
  datatype Stats = Stats(views: int, likes: int, comments: int, engagementRate: string)

  /** One analysed video. `published` is the instant `new Date(publishedAt)`
      denotes; an empty `id` is the falsy id of a hand-built descriptor. */
  datatype Video = Video(
    id: string,
    title: string,
    description: string,
    thumbnail: Option<string>,
    channelTitle: string,
    publishedAt: string,
    published: int,
    tags: seq<string>,
    categoryId: string,
    isShort: bool,
    durationSec: int,
    stats: Stats,
    viewCountFmt: string,
    likeCountFmt: string)
}
