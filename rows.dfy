/**
 * The shapes of the document-store answers the services pass on: the rows
 * of an `allDocs` read with `include_docs`, the per-document results of a
 * `bulkDocs` write, and the per-title entries `setRatings` assembles.
 */
module Rows {
  import opened Js

  /** A stored document's fields. */
  type Fields = map<string, Value>

  /** `doc[name]`: `undefined` when the document has no such field. */
  function Field(doc: Fields, name: string): Value {
    Lookup(doc, name, Undefined)
  }

  /** A row's error code; never empty, so `row.error` is always truthy. */
  type ErrorText = s: string | s != "" witness "not_found"

  const NotFound: ErrorText := "not_found"

  /** A row of an `allDocs` answer: the document found under `key` with its
      revision, or the error code the store gave for that key. */
  datatype Row =
    | Doc(key: string, rev: string, doc: Fields)
    | Fault(key: string, error: ErrorText)

  /** One result of a `bulkDocs` write: `ok` with the new revision, or a
      refusal (`error: true`) with its message. */
  datatype WriteResult =
    | Written(id: string, rev: string)
    | Refused(id: string, message: string)

  /** What `setRatings` reports for one title: a row, or a refused write. */
  datatype Entry =
    | Read(row: Row)
    | Failed(id: string, message: string)

  /** `entry.error` is truthy. */
  predicate EntryError(e: Entry) {
    e.Failed? || e.row.Fault?
  }
}
