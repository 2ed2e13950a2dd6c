/** The record shapes of internal/models/models.go. */
module Models {
  import opened Wrappers

  /** `models.AddNewURLRecord`: a log record of the file backend and an entry of a batch request
      (where `id` holds the request's correlation id). */
  datatype AddNewURLRecord = AddNewURLRecord(
    id: string, shortURL: string, originalURL: string, userID: string, deletedFlag: bool)

  /** `models.BatchResponse`. */
  datatype BatchResponse = BatchResponse(correlationID: string, shortURL: string)

  /** `models.BasePairsOfURLsResponse`. */
  datatype BasePairsOfURLsResponse = BasePairsOfURLsResponse(shortURL: string, originalURL: string)

  /** `models.OriginalURLSelectionResult`, the lookup answer of the file and relational backends. */
  datatype OriginalURLSelectionResult = OriginalURLSelectionResult(
    originalURL: string, isDeleted: bool, error: Error, userID: string)

  /** The two-element `[]string` value the map backends keep per short code: slot 0 (`url`) and
      slot 1 (`userID`). */
  datatype Attributes = Attributes(url: string, userID: string)

  /** Index of the last record carrying `code`, or -1 when none does. */
  function LastIndexOfCode(records: seq<AddNewURLRecord>, code: string): (j: int)
    ensures -1 <= j < |records|
    ensures j >= 0 ==> records[j].shortURL == code
    ensures forall i | j < i < |records| :: records[i].shortURL != code
    decreases |records|
  {
    if records == [] then -1
    else if records[|records| - 1].shortURL == code then |records| - 1
    else LastIndexOfCode(records[..|records| - 1], code)
  }
}
