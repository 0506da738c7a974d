/** Values shared by every part of the repository model. */
module Models {

  datatype Option<+T> = None | Some(value: T)

  datatype Result<+T, +E> = Success(value: T) | Failure(error: E)

  type Bytes = seq<int>
  type SourceId = string
  type RunId = string
  type OperationId = string
  type Time = int

  /** A content id stands for its bytes: SHA-256 is taken to be injective. */
  datatype ContentId = Sha256(data: Bytes)

  /** What a tree entry or an inventory entry names. */
  datatype Kind = File | Directory | Symlink | Absent | Unresolved

  // ---- slash stripping and prefixes on text ---------------------------------------------------

  function StripLeft(s: string): (r: string)
    ensures r == [] || r[0] != '/'
  {
    if s != [] && s[0] == '/' then StripLeft(s[1..]) else s
  }

  function StripRight(s: string): (r: string)
    ensures r == [] || r[|r| - 1] != '/'
  {
    if s != [] && s[|s| - 1] == '/' then StripRight(s[..|s| - 1]) else s
  }

  function Strip(s: string): (r: string)
    ensures r == [] || r[0] != '/'
  {
    StripLeft(StripRight(s))
  }
}
