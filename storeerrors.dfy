/** The outcomes of the storage layer: the two sentinel errors the film and
    watchlist models compare against, the duplicate-entry error of the
    watchlist, and any other database error. */
module StoreErrors {

  datatype StoreError =
    | RecordNotFound
    | EditConflict
    | DuplicateWatchlistEntry
    | StorageFailure
}
