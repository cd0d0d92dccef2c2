/** Failure values shared by the manifest codec and the bundle build record.
    Every exception the modelled C# code throws becomes one of these. */
module Results {

  datatype Error =
    | BufferUnderflow                      // a read past the end of the buffer
    | MalformedData                        // the field under the cursor is not of the kind being read
    | InvalidFormat                        // the file signature is not the expected one
    | IncompatibleVersion                  // the file version is not the expected one
    | InvalidConfiguration                 // EnableAddressable and LocationToLower are both set
    | NegativeCount                        // a table count below zero (a negative List capacity)
    | DuplicateBundleName(name: string)    // Dictionary.Add on BundleDic with an existing key
    | DuplicateFileName(fileName: string)  // Dictionary.Add on BundleDic2 with an existing key
    | DuplicatePath(assetPath: string)     // an AssetPath already in AssetDic
    | UnsupportedNameStyle(style: int)     // an output name style other than 1 or 4
    | MissingExtensionDot(bundleName: string) // style 4 on a bundle name without '.'
    | DuplicateAsset(assetPath: string)    // PackAsset of a path the bundle already holds

  /** A value or the error that stopped its computation; usable with `:-`. */
  datatype Result<+T> = Success(value: T) | Failure(error: Error) {
    predicate IsFailure() {
      Failure?
    }

    function PropagateFailure<U>(): Result<U>
      requires Failure?
    {
      Failure(error)
    }

    function Extract(): T
      requires Success?
    {
      value
    }
  }

  /** The outcome of an operation that returns nothing but may throw. */
  datatype Outcome = Pass | Fail(error: Error) {
    predicate IsFailure() {
      Fail?
    }

    function PropagateFailure(): Outcome
      requires Fail?
    {
      this
    }
  }
}
