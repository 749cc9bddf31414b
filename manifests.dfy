/** The collector that definition validators report problems to
    (`errors.add object, code, message`). */
module Manifests {
  datatype ManifestError = ManifestError(objectId: string, code: string, message: string)

  class ManifestErrors {
    var errors: seq<ManifestError>

    constructor()
      ensures errors == []
    {
      errors := [];
    }

    /** `add(object, code, message)` */
    method Add(objectId: string, code: string, message: string)
      modifies this
      ensures errors == old(errors) + [ManifestError(objectId, code, message)]
    {
      errors := errors + [ManifestError(objectId, code, message)];
    }
  }
}
