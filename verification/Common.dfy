/** Datatypes and sequence facts shared by every module. */
module Common {

  datatype Option<+T> = None | Some(value: T)

  datatype Result<+T, +E> = Ok(value: T) | Err(error: E)

  newtype byte = x: int | 0 <= x < 256

  type Bytes = seq<byte>

  /** Why a run, or one of its steps, returned an error. */
  datatype Error =
    | Cancelled
    | DockerFailed
    | StopFailed(id: string)
    | HelperFailed(volume: string)
    | HelperExit(volume: string, code: int)
    | NothingSelected
    | NotFound(names: set<string>, projects: set<string>)
    | InvalidName(name: string)
    | DiskFailed
    | AlreadyExists
    | BadArchive
    | BadManifest
    | ChecksumMismatch(volume: string)
    | Blocked

  ghost predicate Distinct<T>(s: seq<T>) {
    forall i, j :: 0 <= i < j < |s| ==> s[i] != s[j]
  }

  /** All chunks of a stream, one after the other. */
  function Concat(chunks: seq<Bytes>): Bytes {
    if chunks == [] then [] else chunks[0] + Concat(chunks[1..])
  }

  lemma {:induction false} ConcatSnoc(chunks: seq<Bytes>, last: Bytes)
    ensures Concat(chunks + [last]) == Concat(chunks) + last
  {
    if chunks == [] {
      assert [last][1..] == [];
    } else {
      assert (chunks + [last])[1..] == chunks[1..] + [last];
      ConcatSnoc(chunks[1..], last);
    }
  }
}
