/** Java-level values the reactive layer passes around: nullable references,
    throwables and the exceptions a call can end with. */
module Java {

  /** `Long.MAX_VALUE`, the largest demand a subscription can be asked for. */
  const LONG_MAX: int := 0x7FFF_FFFF_FFFF_FFFF

  /** A reference that may be `null`. */
  datatype Nullable<+T> = Null | NonNull(value: T)

  /** Where a throwable's runtime class sits in the hierarchy, as far as the
      layer can tell: a `ClassCastException`, some other `Exception`, or a
      `Throwable` that is no `Exception` at all (an `Error`, say). */
  datatype ThrowableKind = ClassCastKind | OtherExceptionKind | NonExceptionKind

  /** A throwable object: its identity and the kind of its runtime class. */
  datatype Throwable = Throwable(id: nat, kind: ThrowableKind) {

    /** The object passes a cast to `Exception`. */
    predicate IsException() { kind != NonExceptionKind }

    /** A `catch (ClassCastException e)` clause catches the object. */
    predicate IsClassCast() { kind == ClassCastKind }
  }

  /** How a call to foreign code ends: it returns, or it throws. */
  datatype Outcome = Returned | Threw(thrown: Throwable) {

    predicate ThrewClassCast() { Threw? && thrown.IsClassCast() }
  }

  /** The exceptions the layer itself raises. */
  datatype Failure = NullPointer | IllegalState

  /** A value, or the exception that was raised instead of producing it. */
  datatype Result<+T> = Ok(value: T) | Err(failure: Failure)
}
