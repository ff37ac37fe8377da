/** What a storage-bucket listing returns to the application, as values: the vendor's list
    call is not modelled, its answers are the inputs of the operations that use them. */
module Bucket {
  import opened Wrappers

  /** The status code of a storage error, which the vendor reports either as text or as a number. */
  datatype StatusCode = StatusText(text: string) | StatusNumber(number: int)

  /** A storage error: its optional message and status code. */
  datatype StorageError = StorageError(message: Option<string>, statusCode: Option<StatusCode>)

  /** One listed object or folder: its name and its optional creation and update times, as
      milliseconds since the epoch. */
  datatype StorageObject = StorageObject(name: string, createdAt: Option<int>, updatedAt: Option<int>)

  /** The answer to a list call: an error, or the entries (a missing `data` is an empty list). */
  datatype Listing<T> = ListFailed(error: StorageError) | Listed(entries: seq<T>)

  /** The entries of a listing, or none when it failed (the `data` of a failed call is empty). */
  function EntriesOf<T>(listing: Listing<T>): (r: seq<T>)
    ensures listing.ListFailed? ==> r == []
  {
    match listing
    case ListFailed(_) => []
    case Listed(entries) => entries
  }
}
