/** Values shared by every part of the model: file contents, digests, record keys. */
module Types {

  type Byte = b: int | 0 <= b < 256

  /** The bytes of a regular file. */
  type Content = seq<Byte>

  /** A sha256 column. SHA-256 is a constructor, so equal digests mean equal bytes;
      NoDigest is the empty or NULL column. */
  datatype Digest = NoDigest | Sha256(of: Content)

  /** Primary key of download_records and archive_jobs, and the canonical task id chat:message. */
  datatype Key = Key(chat: string, message: int)

  datatype Option<+T> = None | Some(value: T)

  function Hash(c: Content): Digest {
    Sha256(c)
  }

  /** A file that exists with the recorded size and digest. */
  predicate Valid(file: Option<Content>, size: int, sha: Digest) {
    file.Some? && |file.value| == size && Hash(file.value) == sha
  }
}
