// What several parts of the model share.

module Wrappers {
  datatype Option<+T> = None | Some(value: T)
  datatype Result<+T, +E> = Success(value: T) | Failure(error: E)
}

/** Limits of the domain, and of the machine. */
module Limits {
  const MAX_OPEN_TABS := 16
  const MAX_DOCUMENT_PAGES := 10000
  /** A page of a print job has at most 256 MiB of pixels. */
  const MAX_PRINT_BITMAP_BYTES := 256 * 1024 * 1024
  const U32_MAX := 0xFFFF_FFFF
}
