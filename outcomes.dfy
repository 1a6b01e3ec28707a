/** The error-or-value type shared by the pipeline stages: a stage either
    produces its value or stops with one of its own error kinds. */
module Outcomes {

  datatype Result<+T, +E> = Success(value: T) | Failure(error: E)
}
