/** The exceptions the KidTask copies throw, as values. Each carries the
    message the source builds. */
module Failures {

  datatype Failure =
    | IllegalArgument(message: string)   // java.lang.IllegalArgumentException
    | IllegalState(message: string)      // java.lang.IllegalStateException
    | NullPointer(message: string)       // Objects.requireNonNull
    | Validation(message: string)        // kidtask.service.ValidationException
    | NotFound(message: string)          // kidtask.service.NotFoundException
    | Storage(message: string)           // kidtask.persistence.StorageException
    | TaskNotFound(message: string)      // exceptions.TaskNotFoundException
    | DataPersistence(message: string)   // exceptions.DataPersistenceException
}
