/** Small value wrappers shared by every module of the model. */
module Wrappers {

  /** A value that may be absent: the model's stand-in for a null reference. */
  datatype Option<+T> = None | Some(value: T)

  /** The outcome of calling code the bridge cannot see (a plug-in override, a
      managed callback): it either returned a value or raised an exception. */
  datatype Attempt<+T> = Returned(value: T) | Threw
}

/** 128-bit identifiers: C# `Guid` and opennurbs `ON_UUID`. */
module Uuids {

  type Uuid = bv128

  /** `Guid.Empty` / `ON_nil_uuid`. */
  const NilUuid: Uuid := 0
}
