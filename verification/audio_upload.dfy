/**
 * The string logic inside the upload handler: the data-URL prefix, the
 * inlined base-URL normalisation with `/process`, and the callback URL built
 * from the request or its forwarding headers.
 */
module AudioUpload {
  import opened Wrappers
  import opened PyStr
  import opened Bridge

  const DataUrlPrefix: string := "data:audio/wav;base64,"

  /** `s.split(',', 1)[1]`: everything after the first comma. */
  function AfterFirstComma(s: string): (r: string)
    requires ',' in s
    ensures |r| < |s| && r == s[|s| - |r|..]
    ensures s[|s| - |r| - 1] == ',' && ',' !in s[..|s| - |r| - 1]
    decreases |s|
  {
    if s[0] == ',' then
      assert s[1..] == s[|s| - |s[1..]|..];
      s[1..]
    else
      var r := AfterFirstComma(s[1..]);
      assert s[..|s| - |r| - 1] == [s[0]] + s[1..][..|s| - 1 - |r| - 1];
      r
  }

  /**
   * The prefix test of the upload handler: a `data:audio/wav;base64,` data URL
   * loses everything up to its first comma, which is exactly the prefix;
   * any other text is kept.
   */
  function StripDataUrlPrefix(audio: string): (r: string)
    ensures StartsWith(audio, DataUrlPrefix) ==> r == audio[|DataUrlPrefix|..]
    ensures !StartsWith(audio, DataUrlPrefix) ==> r == audio
  {
    if StartsWith(audio, DataUrlPrefix) then
      PrefixFirstComma(audio);
      AfterFirstComma(audio)
    else audio
  }

  /** The prefix's only comma is its last character. */
  lemma PrefixFirstComma(audio: string)
    requires StartsWith(audio, DataUrlPrefix)
    ensures ',' in audio && AfterFirstComma(audio) == audio[|DataUrlPrefix|..]
  {
    var n := |DataUrlPrefix|;
    assert audio[n - 1] == DataUrlPrefix[n - 1] == ',';
    assert ',' !in DataUrlPrefix[..n - 1];
    assert audio[..n - 1] == DataUrlPrefix[..n - 1];
  }

  /** Wrapping the base64 text in the data URL and stripping it again gives the text back. */
  lemma DataUrlRoundTrip(payload: string)
    ensures StripDataUrlPrefix(DataUrlPrefix + payload) == payload
  {
    assert (DataUrlPrefix + payload)[..|DataUrlPrefix|] == DataUrlPrefix;
    assert (DataUrlPrefix + payload)[|DataUrlPrefix|..] == payload;
  }

  /**
   * The upload handler's process endpoint: the same normalisation as the
   * bridge's but with no emptiness check, then `/process`.
   */
  function ProcessEndpoint(base: string): (r: string)
    ensures HasHttpScheme(r) && EndsWith(r, "/process")
  {
    var u := NormalizeStripped(Strip(base));
    SchemeKept(u, "/process");
    assert (u + "/process")[|u|..] == "/process";
    u + "/process"
  }

  lemma SchemeKept(u: string, tail: string)
    requires HasHttpScheme(u)
    ensures HasHttpScheme(u + tail)
  {
    if StartsWith(u, Http) {
      assert (u + tail)[..|Http|] == u[..|Http|];
    } else {
      assert (u + tail)[..|Https|] == u[..|Https|];
    }
  }

  /** On every non-blank base the endpoint is the bridge's normalised URL plus `/process`. */
  lemma ProcessEndpointMatchesBridge(base: string)
    requires !AllSpace(base)
    ensures NormalizeBaseUrl(Some(base)).Ok?
    ensures ProcessEndpoint(base) == NormalizeBaseUrl(Some(base)).value + "/process"
  {
  }

  /** A blank base, which the bridge rejects, becomes an endpoint with an empty host. */
  lemma ProcessEndpointBlank(base: string)
    requires AllSpace(base)
    ensures NormalizeBaseUrl(Some(base)).Err?
    ensures ProcessEndpoint(base) == "http:///process"
  {
    assert Strip(base) == [];
    assert NormalizeStripped([]) == Http by {
      assert !StartsWith([], Http) && !StartsWith([], Https);
    }
    assert Http + "/process" == "http:///process";
  }

  /** `header or fallback`: a present, non-empty header wins. */
  function Prefer(header: Option<string>, fallback: string): (r: string)
    ensures header.Some? && header.value != [] ==> r == header.value
    ensures header.None? || header.value == [] ==> r == fallback
  {
    if header.Some? && header.value != [] then header.value else fallback
  }

  /**
   * The callback URL handed to MuseTalk: scheme and host from the
   * `X-Forwarded-Proto` and `X-Forwarded-Host` headers when present and
   * non-empty, from the request otherwise.
   */
  function CallbackUrl(forwardedProto: Option<string>, forwardedHost: Option<string>, scheme: string, host: string): (r: string)
    ensures var s := Prefer(forwardedProto, scheme);
      && |r| == |s| + 3 + |Prefer(forwardedHost, host)| + |"/stream_frames"|
      && StartsWith(r, s + "://")
      && EndsWith(r, "/stream_frames")
      && r[|s| + 3..|r| - |"/stream_frames"|] == Prefer(forwardedHost, host)
  {
    var s := Prefer(forwardedProto, scheme);
    var h := Prefer(forwardedHost, host);
    var r := s + "://" + h + "/stream_frames";
    assert r[..|s + "://"|] == s + "://";
    assert r[|r| - |"/stream_frames"|..] == "/stream_frames";
    assert r[|s| + 3..|r| - |"/stream_frames"|] == h;
    r
  }
}
