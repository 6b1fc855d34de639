/**
 * The JSON the server's `/api/images` endpoint sends and the browser reads:
 * `{images: [{name, url, thumbnail}], pagination: {...}}`.
 */
module Api {
  import opened Wrappers

  /** One image of a page; `thumbnail` is a data URL, or null when it could not be made. */
  datatype ImageRecord = ImageRecord(name: string, url: string, thumbnail: Option<string>)

  /** The pagination summary of one page. */
  datatype Pagination = Pagination(
    currentPage: int,
    perPage: int,
    totalImages: int,
    totalPages: int,
    hasPrev: bool,
    hasNext: bool)

  datatype PageResponse = PageResponse(images: seq<ImageRecord>, pagination: Pagination)
}
