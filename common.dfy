/** Value types shared by every part of the navigation client. */
module Common {

  /** An octet; Go strings and []byte hold these. */
  type byte = x: int | 0 <= x < 256

  datatype Option<+T> = None | Some(value: T)

  /** Why an operation failed. A Go `panic` is modelled as the value `Panic`,
      and `fmt.Errorf("ctx: %w", err)` as `Wrapped("ctx", err)`. */
  datatype Error =
    | InvalidControlChar            // url.Parse: control character before the fragment
    | MissingScheme                 // url.Parse: the URL starts with ':'
    | UnsupportedScheme(scheme: string)  // the HTTP client only speaks http and https
    | Unreachable(url: string)      // transport failure: nothing answers at that URL
    | NoSuchFile(path: string)      // os.Open failed
    | ReadFailed                    // a read from an open stream failed
    | BadJSON                       // json.Unmarshal failed
    | Wrapped(context: string, cause: Error)
    | Panic(reason: string)

  datatype Result<+T> = Ok(value: T) | Err(error: Error)

  predicate HasPrefix(s: string, p: string)
  {
    |p| <= |s| && s[..|p|] == p
  }
}
