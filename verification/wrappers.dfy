/** Option and Result values used for the engine's "None" returns and raised errors. */
module Wrappers {

  datatype Option<+T> = None | Some(value: T) {
    function GetOr(default: T): T {
      match this
      case Some(v) => v
      case None => default
    }
  }

  /** The two ways the engine fails: no surfaces at all (`ValueError`), or a surface
      smaller than the reference grid read during blending (`IndexError`). */
  datatype EngineError = NoSurfaces | ShapeMismatch

  datatype Result<+T> = Success(value: T) | Failure(error: EngineError)
}
