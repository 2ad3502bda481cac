/** The exceptions the core raises, as values. */
module Errors {

  datatype Error =
    /** `get_object_by_name` found more than one object of the requested kind. */
    | AmbiguousName(name: string)
    /** A refactoring was handed a smell it does not handle (`RefactoringNotSupportedError`). */
    | RefactoringNotSupported(refactoring: string)
    /** An attribute was read from `None` or from an object without it (`AttributeError`). */
    | NoneDereference(what: string)
    /** A container was found where the code goes on to read the attributes of
        a Kubernetes object; those container attributes are not part of this model. */
    | ContainerTarget(name: string)
}
