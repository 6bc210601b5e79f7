/** Failure-compatible results shared by all components. The source reports failures
    as C++ or Python exceptions; `Err` carries the kind that was raised. */
module Results {
  datatype Error =
    | DeviceError      // the device refused, or a device limit was reached
    | ProtocolError    // a reply that does not fit the protocol
    | LinkError        // the transport itself failed
    | LogicError       // std::logic_error and its Python counterparts
    | RangeError       // std::out_of_range / std::invalid_argument from the standard library
    | ConversionError  // a value that cannot be translated to or from the wire
    | NotRegistered    // a configuration key this handle has not written
    | MotorError       // ThorlabsMotorError

  datatype Option<+T> = None | Some(value: T)

  datatype Result<+T> = Ok(value: T) | Err(error: Error) {
    predicate IsFailure() {
      Err?
    }

    function PropagateFailure<U>(): Result<U>
      requires Err?
    {
      Err(error)
    }

    function Extract(): T
      requires Ok?
    {
      value
    }
  }
}
