/** Error kinds of the import pipeline and the failure-compatible wrappers
    that carry them. Every error aborts the whole import. */
module Errs {

  datatype ImportError =
    | ErrNotFoundTransactionDataInFile
    | ErrMissingRequiredFieldInHeaderRow
    | ErrFewerFieldsInDataRowThanInHeaderRow
    | ErrTransactionTypeInvalid
    | ErrFoundRecordNotHasRelatedRecord

  datatype Option<+T> = None | Some(value: T)

  datatype Result<+T> = Success(value: T) | Failure(error: ImportError)
}
