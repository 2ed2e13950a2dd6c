/** Short-code derivation: `generateShortURL` in internal/handlers/handlers.go and its two
    verbatim copies `createShortURL` in cmd/shortener/main.go and cmd/shortener/server/main.go.
    The random source is a parameter: the outcome of `rand.Read` on a buffer of `length` bytes. */
module ShortCode {
  import opened Wrappers
  import opened Base64Url

  /** What `rand.Read` did with the buffer: filled it, or failed. */
  datatype RandomRead = ReadOk(bytes: seq<byte>) | ReadFailed(reason: string)

  /** `rand.Read` fills exactly the buffer it is given. */
  predicate Fills(rnd: RandomRead, length: nat)
  {
    rnd.ReadOk? ==> |rnd.bytes| == length
  }

  /** The code is a prefix of the padded base64url text, and that text has at least `n`
      alphabet characters before its padding, so the cut `[:n]` is in range and padding-free. */
  lemma UnpaddedCoversLength(n: nat)
    ensures n <= UnpaddedLength(n) <= 4 * ((n + 2) / 3)
  {
  }

  /** The code made of `length` random bytes: the first `length` characters of their padded
      URL-safe base64 encoding; a failed read yields its error and no code. */
  function GenerateShortURL(length: nat, rnd: RandomRead): (r: Result<string>)
    requires Fills(rnd, length)
    ensures rnd.ReadFailed? <==> r.Failure?
    ensures r.Failure? ==> r.error == rnd.reason
    ensures r.Success? ==> |r.value| == length
    ensures r.Success? ==> forall i | 0 <= i < |r.value| :: IsUrlSafe(r.value[i]) && r.value[i] != Pad
  {
    match rnd
    case ReadFailed(reason) => Failure(reason)
    case ReadOk(bytes) =>
      UnpaddedCoversLength(length);
      Success(Encode(bytes)[..length])
  }

  /** The code carries the encoded bytes: it is a prefix of a text that decodes to them. */
  lemma CodeIsEncodingPrefix(length: nat, bytes: seq<byte>)
    requires |bytes| == length
    ensures exists text :: Decode(text) == Some(bytes) && GenerateShortURL(length, ReadOk(bytes)).value <= text
  {
    DecodeEncode(bytes);
    var text := Encode(bytes);
    assert GenerateShortURL(length, ReadOk(bytes)).value <= text;
  }
}
