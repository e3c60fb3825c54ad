/**
 * The crate's single error type. The CLI variants are those of src/errors.rs; the feed,
 * request, RSS, Megalodon and I/O variants are the ones src/bot/rss.rs and src/bot/mod.rs
 * construct or match on. Feed errors carry the feed URL, as the source's do.
 */
module Errors {

  type Url = string

  datatype Error =
    | UnknownArgument(arg: string)
    | MissingArgument(flag: string)
    | UncompletedArgument(flag: string)
    | Parsing(flag: string, message: string)
    | NoPublishDate(url: Url)
    | InvalidPublishDate(url: Url)
    | NoTitle(url: Url)
    | NoLink(url: Url)
    | NoDescription(url: Url)
    /** reqwest failure while downloading a feed. */
    | RequestError(message: string)
    /** rss crate failure while parsing a feed body. */
    | RssError(message: string)
    /** Megalodon failure while posting a status or uploading media. */
    | MegalodonError(message: string)
    /** File-system or process failure while building a preview image. */
    | IoError(message: string)
}
