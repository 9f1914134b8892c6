/** Failure-carrying results, used wherever the C++ code throws. */
module Results {

  datatype Option<+T> = None | Some(value: T)

  datatype Error =
    | OutOfRange       // std::out_of_range
    | RuntimeError     // std::runtime_error
    | LogicError       // std::logic_error
    | StorageError     // an exception of the HDF5 layer

  datatype Result<+T> = Ok(value: T) | Err(error: Error)
}
