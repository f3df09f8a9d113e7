/**
 * The video router: on a storage event it decodes the object key, accepts it
 * only when its last four characters, lower-cased, are one of the video
 * extensions and the key ends with `-org` followed by that extension, and for
 * an accepted key fires one asynchronous invocation of the thumbnail
 * generator with the bucket and the decoded key. A failed invocation is
 * logged and swallowed.
 *
 * The invocation's result is an input; the handler's answer is how its
 * promise settles and the log of the calls it issued.
 */
module VideoProcessor {
  import opened Wrappers
  import opened Text
  import opened Uri
  import opened Trace

  const ValidVideoExtensions: seq<string> := [".mp4", ".mov", ".avi", ".mkv", ".flv", ".wmv", ".webm"]

  const ThumbnailGeneratorName: string := "mraLambdaS3BucketVideoThumbnailGenerator"

  /** The asynchronous invocation type. */
  const EventInvocation: string := "Event"

  /** An invocation of `functionName` with invocation type `invocationType` and the payload `{bucket, key}`. */
  datatype Op = Invoke(functionName: string, invocationType: string, bucket: string, key: string)

  /** How the handler's promise settles; it has no return value. */
  datatype Outcome = Fulfilled | Rejected

  datatype Invocation = Invocation(outcome: Outcome, log: seq<Event<Op>>)

  /** `key.slice(-4).toLowerCase()`. */
  function Extension(key: string): string {
    Lower(SliceLast(key, 4))
  }

  /** The handler's test: a listed extension, and the key ends with `-org` and that extension. */
  predicate Accepts(key: string) {
    var ext := Extension(key);
    ext in ValidVideoExtensions && EndsWith(key, "-org" + ext)
  }

  /** The single call an accepted key causes. */
  function Dispatch(bucket: string, key: string): Op {
    Invoke(ThumbnailGeneratorName, EventInvocation, bucket, key)
  }

  /**
   * One invocation on the raw key of the event's first record: a key that
   * does not decode rejects the promise (`URIError`), a key that is not
   * accepted returns at once, and an accepted key is dispatched, the
   * invocation's error being caught.
   */
  function Handle(bucket: string, rawKey: string, invokeOk: bool): Invocation {
    match DecodeKey(rawKey)
    case None => Invocation(Rejected, [])
    case Some(key) =>
      if !Accepts(key) then Invocation(Fulfilled, [])
      else Invocation(Fulfilled, [if invokeOk then Done(Dispatch(bucket, key)) else Failed(Dispatch(bucket, key))])
  }

  // ------------------------------------------------------------ acceptance

  /** The four-character entries of the extension list, which are all of them but `.webm`. */
  predicate FourCharExtension(e: string) {
    e in ValidVideoExtensions && |e| == 4
  }

  /** Lower-casing leaves no upper-case letter. */
  lemma LowerNotUpper(s: string)
    ensures forall i :: 0 <= i < |s| ==> !IsUpper(Lower(s)[i])
  {
  }

  /** A string with no upper-case letter is its own lower-case form. */
  lemma LowerOfLower(s: string)
    requires forall i :: 0 <= i < |s| ==> !IsUpper(s[i])
    ensures Lower(s) == s
  {
  }

  /** The listed extensions are in lower case. */
  lemma ExtensionsLowerCase(e: string)
    requires FourCharExtension(e)
    ensures Lower(e) == e
  {
    assert e in [".mp4", ".mov", ".avi", ".mkv", ".flv", ".wmv"];
    LowerOfLower(e);
  }

  /** An accepted key ends with `-org` and a four-character extension from the list. */
  lemma AcceptedWitness(key: string)
    requires Accepts(key)
    ensures FourCharExtension(Extension(key)) && EndsWith(key, "-org" + Extension(key))
  {
    assert |"-org" + Extension(key)| <= |key|;
  }

  /** A key ending with `-org` and a listed four-character extension is accepted. */
  lemma ListedAccepted(key: string, e: string)
    requires FourCharExtension(e) && EndsWith(key, "-org" + e)
    ensures Extension(key) == e && Accepts(key)
  {
    assert SliceLast(key, 4) == e by {
      assert key[|key| - 4..] == ("-org" + e)[4..];
    }
    ExtensionsLowerCase(e);
  }

  /**
   * The filter accepts exactly the keys that end with `-org` followed by one of
   * the four-character extensions, in lower case.
   */
  lemma AcceptsIff(key: string)
    ensures Accepts(key) <==> exists e :: FourCharExtension(e) && EndsWith(key, "-org" + e)
  {
    if Accepts(key) {
      AcceptedWitness(key);
    }
    if e :| FourCharExtension(e) && EndsWith(key, "-org" + e) {
      ListedAccepted(key, e);
    }
  }

  /** A four-character slice is never `.webm`, so no key ending in `.webm` is accepted. */
  lemma WebmNeverAccepted(key: string)
    requires EndsWith(key, ".webm")
    ensures ".webm" in ValidVideoExtensions
    ensures Extension(key) != ".webm"
    ensures !Accepts(key)
  {
    var ext := Extension(key);
    assert key[|key| - 4..] == ".webm"[1..];
    assert SliceLast(key, 4) == "webm";
    assert ext == "webm";
  }

  /**
   * An upper-case letter among the last four characters rejects the key: the
   * lower-cased extension is compared with the key as it is.
   */
  lemma UpperCaseRejected(key: string, i: int)
    requires |key| - 4 <= i < |key| && 0 <= i && IsUpper(key[i])
    ensures !Accepts(key)
  {
    var last := SliceLast(key, 4);
    var ext := Extension(key);
    var j := i - (|key| - |last|);
    assert last[j] == key[i];
    LowerNotUpper(last);
    assert ("-org" + ext)[4 + j] == ext[j];
    NotEndsWith(key, "-org" + ext, 4 + j);
  }

  /** The example of an upper-case original: `clip-org.MP4` is skipped although `.mp4` is listed. */
  lemma UpperCaseExample()
    ensures !Accepts("clip-org.MP4") && Accepts("clip-org.mp4")
  {
    UpperCaseRejected("clip-org.MP4", 9);
    var key := "clip-org.mp4";
    assert SliceLast(key, 4) == ".mp4";
    LowerOfLower(".mp4");
    assert key[|key| - 8..] == "-org" + ".mp4";
  }

  // ---------------------------------------------------------------- handler

  /**
   * The handler's answer: an undecodable key rejects with no call; a key the
   * filter refuses resolves with no call; an accepted key resolves after
   * exactly one `Event` invocation of the thumbnail generator carrying the
   * bucket and the decoded key, whether or not that invocation failed.
   */
  lemma HandleOutcome(bucket: string, rawKey: string, invokeOk: bool)
    ensures var inv := Handle(bucket, rawKey, invokeOk);
      && (inv.outcome == Rejected <==> DecodeKey(rawKey).None?)
      && (|inv.log| == 0 <==> DecodeKey(rawKey).None? || !Accepts(DecodeKey(rawKey).value))
      && (DecodeKey(rawKey).Some? && Accepts(DecodeKey(rawKey).value) ==>
            && |inv.log| == 1
            && inv.log[0].op == Invoke(ThumbnailGeneratorName, "Event", bucket, DecodeKey(rawKey).value)
            && (inv.log[0].Done? <==> invokeOk)
            && inv.outcome == Fulfilled)
  {
  }

  /**
   * Without escapes, the key the generator receives is the raw key with each
   * `+` turned into a space.
   */
  lemma PlusBecomesSpace(bucket: string, rawKey: string, invokeOk: bool)
    requires '%' !in rawKey && Accepts(PlusToSpace(rawKey))
    ensures Handle(bucket, rawKey, invokeOk).log ==
      [if invokeOk then Done(Dispatch(bucket, PlusToSpace(rawKey))) else Failed(Dispatch(bucket, PlusToSpace(rawKey)))]
    ensures '+' !in PlusToSpace(rawKey)
  {
    DecodeWithoutEscapes(rawKey);
  }

  /**
   * An event whose record carries the encoded form of an ASCII key dispatches
   * exactly that key when the filter accepts it, and nothing otherwise.
   */
  lemma EncodedKeyDispatched(bucket: string, key: string, invokeOk: bool)
    requires IsAscii(key)
    ensures Handle(bucket, EncodeKey(key), invokeOk).outcome == Fulfilled
    ensures Accepts(key) ==>
      Handle(bucket, EncodeKey(key), invokeOk).log == [if invokeOk then Done(Dispatch(bucket, key)) else Failed(Dispatch(bucket, key))]
    ensures !Accepts(key) ==> Handle(bucket, EncodeKey(key), invokeOk).log == []
  {
    DecodeEncodeRoundTrip(key);
  }
}
