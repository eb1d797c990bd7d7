/** Failure-carrying values shared by every module of the model. */
module Results {

  datatype Option<+T> = None | Some(value: T)

  /** The kinds of exception the modelled code can raise. */
  datatype Error =
    | EmptyInput           // a numpy reduction (argmax, amax) over an empty array: ValueError
    | NonPositiveSections  // numpy.array_split asked for zero or fewer sections: ValueError
    | ZeroDivision         // floor division of a length by a window count of zero
    | DecodeFailed         // the external audio decoder raised
    | AnalysisFailed       // a spectral or pitch routine raised on one section
    | IndexOutOfRange      // a list index out of range: IndexError
    | MissingKey           // a dictionary lookup of an absent key: KeyError

  datatype Result<+T> = Ok(value: T) | Err(error: Error)
}
