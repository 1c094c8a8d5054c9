/**
 * The image front end: the search for a base64 image hidden in an error message
 * (`[A-Za-z0-9+/=]{100,}`, the base64 alphabet of section 4 of RFC 4648 with its
 * '=' pad, no padding or length check), the decision table that turns a Hugging
 * Face inference response into an image or an error message, and the order of the
 * checks of the index page.
 */
module ImageGen {
  import opened Wrappers
  import opened PyStr
  import opened Papers

  /** A character of `[A-Za-z0-9+/=]`. */
  predicate InClass(c: char) {
    'A' <= c <= 'Z' || 'a' <= c <= 'z' || '0' <= c <= '9' || c == '+' || c == '/' || c == '='
  }

  const MinRun: nat := 100

  /** The end of the run of class characters that starts at `p`. */
  function RunEnd(s: string, p: nat): (e: nat)
    requires p <= |s|
    ensures p <= e <= |s|
    ensures forall k :: p <= k < e ==> InClass(s[k])
    ensures e == |s| || !InClass(s[e])
    decreases |s| - p
  {
    if p < |s| && InClass(s[p]) then RunEnd(s, p + 1) else p
  }

  /** `s[lo..hi]` is at least 100 class characters. */
  predicate LongRun(s: string, lo: nat, hi: nat) {
    lo + MinRun <= hi <= |s| && forall k :: lo <= k < hi ==> InClass(s[k])
  }

  /** Where `re.search` finds a match from `p` on: the first position whose run is long enough. */
  function MatchFrom(s: string, p: nat): (r: Option<nat>)
    requires p <= |s|
    ensures r.Some? ==> p <= r.value <= |s| && LongRun(s, r.value, RunEnd(s, r.value))
    ensures r.Some? ==> forall q :: p <= q < r.value ==> RunEnd(s, q) < q + MinRun
    ensures r.None? ==> forall q :: p <= q <= |s| ==> RunEnd(s, q) < q + MinRun
    decreases |s| - p
  {
    if RunEnd(s, p) >= p + MinRun then Some(p)
    else if p == |s| then None
    else MatchFrom(s, p + 1)
  }

  /** `extract_base64_from_error`: the leftmost long run, taken in full. */
  function ExtractBase64(s: string): Option<string> {
    match MatchFrom(s, 0)
    case None => None
    case Some(p) => Some(s[p..RunEnd(s, p)])
  }

  /** A run reaching `hi` from `lo` makes the run from `lo` at least that long. */
  lemma RunReaches(s: string, lo: nat, hi: nat)
    requires lo <= hi <= |s| && forall k :: lo <= k < hi ==> InClass(s[k])
    ensures RunEnd(s, lo) >= hi
  {
  }

  /** There is no match exactly when the text has no run of 100 or more class characters. */
  lemma ExtractNoneIff(s: string)
    ensures ExtractBase64(s).None? <==> forall lo, hi :: 0 <= lo <= hi <= |s| ==> !LongRun(s, lo, hi)
  {
    if ExtractBase64(s).None? {
      forall lo, hi | 0 <= lo <= hi <= |s| ensures !LongRun(s, lo, hi) {
        if LongRun(s, lo, hi) {
          RunReaches(s, lo, hi);
        }
      }
    } else {
      var p := MatchFrom(s, 0).value;
      assert LongRun(s, p, RunEnd(s, p));
    }
  }

  /** A match is a substring of at least 100 class characters that starts at the first position where
      such a run starts and is bounded on both sides by the ends of the text or by other characters. */
  lemma ExtractFound(s: string)
    requires ExtractBase64(s).Some?
    ensures exists lo, hi ::
              && 0 <= lo <= hi <= |s| && ExtractBase64(s).value == s[lo..hi] && LongRun(s, lo, hi)
              && (lo == 0 || !InClass(s[lo - 1]))
              && (hi == |s| || !InClass(s[hi]))
              && forall lo', hi' :: 0 <= lo' < lo && lo' <= hi' <= |s| ==> !LongRun(s, lo', hi')
  {
    var lo := MatchFrom(s, 0).value;
    var hi := RunEnd(s, lo);
    if lo > 0 && InClass(s[lo - 1]) {
      RunStep(s, lo - 1);
    }
    forall lo', hi' | 0 <= lo' < lo && lo' <= hi' <= |s| ensures !LongRun(s, lo', hi') {
      if LongRun(s, lo', hi') {
        RunReaches(s, lo', hi');
      }
    }
    assert ExtractBase64(s).value == s[lo..hi];
  }

  lemma RunStep(s: string, p: nat)
    requires p < |s| && InClass(s[p])
    ensures RunEnd(s, p) == RunEnd(s, p + 1)
  {
  }

  /** What `resp.json()` gives: no JSON, a JSON object (its `str()` and its "error" entry), or another
      JSON value (its `str()`), on which `.get` raises. */
  datatype Json = NotJson | Dict(repr: string, error: Field) | Other(repr: string)

  /** A Hugging Face inference response: status, content-type header ("" when absent), the base64
      encoding of its bytes, its text and its JSON reading. */
  datatype Response = Response(status: int, contentType: string, encoded: string, text: string, json: Json)

  /** What `requests.post` did: raised with this message, or answered. */
  datatype Exchange = Failed(message: string) | Answered(response: Response)

  /** The pair `generate_image_with_huggingface` returns; `None` is `Option.None` / `Field.Null`. */
  datatype ImageReply = ImageReply(image: Option<string>, error: Field)

  const LoadingMessage: string := "Model is loading. Please wait and try again."
  const NotFoundMessage: string := "Model not found. Please check the model name or use a different model."
  const UnparsedPrefix: string := "Unknown error (could not parse JSON): "
  const ExchangePrefix: string := "Image generation error: "

  /** `result.get("error", default)`. */
  function ErrorOr(error: Field, default: string): Field {
    if error.Absent? then Str(default) else error
  }

  /** A status-200 JSON answer: an image found in `str(result)` wins over the "error" entry. */
  function JsonAnswer(r: Response): ImageReply {
    match r.json
    case NotJson => ImageReply(None, Str(UnparsedPrefix + PyPrefix(r.text, 500)))
    case Dict(repr, error) =>
      (match ExtractBase64(repr)
       case Some(b) => ImageReply(Some(b), Null)
       case None => ImageReply(None, ErrorOr(error, repr)))
    case Other(repr) =>
      match ExtractBase64(repr)
      case Some(b) => ImageReply(Some(b), Null)
      case None => ImageReply(None, Str(UnparsedPrefix + PyPrefix(r.text, 500)))
  }

  /** Any other status: an image in `str(result)`, else the "error" entry (default the text); if the
      body is not a JSON object, an image in the text, else the text. */
  function OtherAnswer(r: Response): ImageReply {
    var fromText := match ExtractBase64(r.text)
      case Some(b) => ImageReply(Some(b), Null)
      case None => ImageReply(None, Str(r.text));
    match r.json
    case NotJson => fromText
    case Dict(repr, error) =>
      (match ExtractBase64(repr)
       case Some(b) => ImageReply(Some(b), Null)
       case None => ImageReply(None, ErrorOr(error, r.text)))
    case Other(repr) =>
      match ExtractBase64(repr)
      case Some(b) => ImageReply(Some(b), Null)
      case None => fromText
  }

  /** `generate_image_with_huggingface` on the outcome of its request. */
  function GenerateImage(x: Exchange): (r: ImageReply)
    ensures r.image.Some? ==> r.error.Null?
    ensures x.Failed? ==> r == ImageReply(None, Str(ExchangePrefix + x.message))
    ensures x.Answered? && x.response.status == 503 ==> r == ImageReply(None, Str(LoadingMessage))
    ensures x.Answered? && x.response.status == 404 ==> r == ImageReply(None, Str(NotFoundMessage))
    ensures x.Answered? && x.response.status == 200 && StartsWith(x.response.contentType, "image/") ==>
              r == ImageReply(Some(x.response.encoded), Null)
  {
    match x
    case Failed(m) => ImageReply(None, Str(ExchangePrefix + m))
    case Answered(resp) =>
      if resp.status == 200 && StartsWith(resp.contentType, "image/") then ImageReply(Some(resp.encoded), Null)
      else if resp.status == 200 && StartsWith(resp.contentType, "application/json") then JsonAnswer(resp)
      else if resp.status == 503 then ImageReply(None, Str(LoadingMessage))
      else if resp.status == 404 then ImageReply(None, Str(NotFoundMessage))
      else OtherAnswer(resp)
  }

  /** For a status-200 JSON object, an image found in its rendering is returned whatever its
      "error" entry says; the entry is used only when there is none. */
  lemma JsonImageWins(resp: Response)
    requires resp.status == 200 && StartsWith(resp.contentType, "application/json") && resp.json.Dict?
    ensures ExtractBase64(resp.json.repr).Some? ==>
              GenerateImage(Answered(resp)) == ImageReply(ExtractBase64(resp.json.repr), Null)
    ensures ExtractBase64(resp.json.repr).None? ==>
              GenerateImage(Answered(resp)) == ImageReply(None, ErrorOr(resp.json.error, resp.json.repr))
  {
    assert !StartsWith(resp.contentType, "image/") by {
      assert resp.contentType[0] == 'a';
    }
  }

  const NoTopicMessage: string := "Please enter a topic."
  const NoKeyMessage: string := "Hugging Face API key is not set."
  const UnknownMessage: string := "Unknown error occurred."

  /** What the index page shows. */
  datatype Page = Page(imageData: Option<string>, error: Option<string>)

  /** Python truthiness of a string field. */
  predicate TruthyText(f: Field) { f.Str? && f.s != "" }

  /** The index page: on a POST, an empty topic is reported before the key is looked at, and the
      image generator is asked only when both are present. */
  function Index(isPost: bool, topic: string, hasKey: bool, generate: string -> ImageReply): (p: Page)
    ensures !isPost ==> p == Page(None, None)
    ensures isPost ==> (p.imageData.Some? <==> p.error.None?)
    ensures isPost && topic == "" ==> p.error == Some(NoTopicMessage)
    ensures isPost && topic != "" && !hasKey ==> p.error == Some(NoKeyMessage)
    ensures p.imageData.Some? ==> topic != "" && hasKey && generate(topic).image == p.imageData && p.imageData.value != ""
  {
    if !isPost then Page(None, None)
    else if topic == "" then Page(None, Some(NoTopicMessage))
    else if !hasKey then Page(None, Some(NoKeyMessage))
    else
      var reply := generate(topic);
      if reply.image.Some? && reply.image.value != "" then Page(reply.image, None)
      else Page(None, Some(if TruthyText(reply.error) then reply.error.s else UnknownMessage))
  }

  /** The empty-topic message does not depend on the key or the generator. */
  lemma EmptyTopicFirst(hasKey: bool, g1: string -> ImageReply, g2: string -> ImageReply)
    ensures Index(true, "", hasKey, g1) == Index(true, "", false, g2) == Page(None, Some(NoTopicMessage))
  {
  }

  /** A failure without error text is reported as an unknown error. */
  lemma UnknownWhenSilent(topic: string, generate: string -> ImageReply)
    requires topic != "" && generate(topic).image.None? && !TruthyText(generate(topic).error)
    ensures Index(true, topic, true, generate) == Page(None, Some(UnknownMessage))
  {
  }
}
