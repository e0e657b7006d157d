/** The body of a forum post: its canonical bytes, what the author publishes, and what a reader accepts.
    Texts are UTF-8 byte strings; well-formedness, blankness and SHA-256 are parameters. */
module Forum {
  import opened Bytes
  import opened ContentId

  const FORMAT_VERSION: Byte := 1
  const MAX_BODY_LEN := 16 * 1024

  datatype Error = Empty | TooLong | Malformed | DigestMismatch

  datatype Result<T> = Ok(value: T) | Err(error: Error)

  datatype Submission = Submission(digest: Digest, cid: ByteString, ipfsBytes: ByteString)

  function Serialize(text: ByteString): ByteString { [FORMAT_VERSION] + text }

  function Parse(utf8: ByteString -> bool, bytes: ByteString): Result<ByteString> {
    if bytes == [] || bytes[0] != FORMAT_VERSION then Err(Malformed)
    else if bytes[1..] == [] then Err(Empty)
    else if |bytes[1..]| > MAX_BODY_LEN then Err(TooLong)
    else if !utf8(bytes[1..]) then Err(Malformed)
    else Ok(bytes[1..])
  }

  function Prepare(sha: Hasher, blank: ByteString -> bool, text: ByteString): Result<Submission> {
    if blank(text) then Err(Empty)
    else if |text| > MAX_BODY_LEN then Err(TooLong)
    else
      var bytes := Serialize(text);
      Ok(Submission(sha(bytes), CidOf(sha(bytes)), bytes))
  }

  function VerifyFetched(sha: Hasher, utf8: ByteString -> bool, onchain: Digest, bytes: ByteString): Result<ByteString> {
    if sha(bytes) != onchain then Err(DigestMismatch) else Parse(utf8, bytes)
  }

  /** What the author could prepare the reader accepts, and reads as the same text. */
  lemma PreparedIsReadable(sha: Hasher, utf8: ByteString -> bool, blank: ByteString -> bool, text: ByteString)
    requires utf8(text) && blank([])
    requires Prepare(sha, blank, text).Ok?
    ensures var s := Prepare(sha, blank, text).value;
            VerifyFetched(sha, utf8, s.digest, s.ipfsBytes) == Ok(text) && s.cid == CidOf(s.digest)
  {
    assert Serialize(text)[1..] == text;
  }

  /** A reader accepts bytes exactly when they hash to the digest on chain and are the canonical bytes
      of a well-formed text of an allowed length; a digest pins the text unless the hash collides. */
  lemma AcceptedExactly(sha: Hasher, utf8: ByteString -> bool, onchain: Digest, bytes: ByteString, text: ByteString)
    ensures VerifyFetched(sha, utf8, onchain, bytes) == Ok(text) <==>
            sha(bytes) == onchain && bytes == [1] + text && 0 < |text| <= 16384 && utf8(text)
  {
    assert Serialize(text)[1..] == text;
    if bytes != [] { assert bytes == [bytes[0]] + bytes[1..]; }
  }

  /** What is refused, and why: by a reader, in this order, a wrong digest, a wrong or missing version, an empty body, a
      long one, an ill-formed one; by an author a blank text, then a long one. */
  lemma RefusedBecause(
    sha: Hasher, utf8: ByteString -> bool, blank: ByteString -> bool, onchain: Digest, bytes: ByteString, text: ByteString
  )
    ensures var v := VerifyFetched(sha, utf8, onchain, bytes);
      && (v == Err(DigestMismatch) <==> sha(bytes) != onchain)
      && (v == Err(Empty) <==> sha(bytes) == onchain && bytes == [1])
      && (v == Err(TooLong) <==> sha(bytes) == onchain && |bytes| > 16385 && bytes[0] == 1)
      && (v == Err(Malformed) <==>
            && sha(bytes) == onchain
            && (bytes == [] || bytes[0] != 1 || (1 < |bytes| <= 16385 && !utf8(bytes[1..]))))
    ensures Prepare(sha, blank, text).Ok? <==> !blank(text) && |text| <= 16384
    ensures Prepare(sha, blank, text) == Err(Empty) <==> blank(text)
  {
    if bytes != [] { assert bytes == [bytes[0]] + bytes[1..]; }
  }

  /** The string under which an author publishes leads back to the digest on chain, and only that. */
  lemma CidNamesDigest(sha: Hasher, blank: ByteString -> bool, text: ByteString, d: Digest)
    requires Prepare(sha, blank, text).Ok?
    ensures Prepare(sha, blank, text).value.cid == CidOf(d) <==> Prepare(sha, blank, text).value.digest == d
  {
    var s := Prepare(sha, blank, text).value;
    if s.cid == CidOf(d) { CidInjective(s.digest, d); }
  }
}
