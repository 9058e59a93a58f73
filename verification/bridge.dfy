/**
 * The string logic of the command-line bridge: base-URL normalisation, the
 * `/process` and `/stream_frames` URLs, and the chat message list.
 */
module Bridge {
  import opened Wrappers
  import opened PyStr

  const Http: string := "http://"
  const Https: string := "https://"

  predicate HasHttpScheme(u: string)
  {
    StartsWith(u, Http) || StartsWith(u, Https)
  }

  /** Drop one trailing `/`, if there is one. */
  function DropTrailingSlash(u: string): (r: string)
    ensures EndsWith(u, "/") ==> r + "/" == u
    ensures !EndsWith(u, "/") ==> r == u
  {
    if EndsWith(u, "/") then u[..|u| - 1] else u
  }

  /** Prepend `http://` unless the text already starts with a lower-case http(s) scheme. */
  function WithScheme(u: string): (r: string)
    ensures HasHttpScheme(r)
    ensures HasHttpScheme(u) ==> r == u
    ensures !HasHttpScheme(u) ==> r == Http + u
  {
    if HasHttpScheme(u) then u
    else
      assert (Http + u)[..|Http|] == Http;
      Http + u
  }

  /**
   * The normalisation shared by the bridge and the upload handler, on text
   * already stripped: one trailing slash dropped, then the default scheme.
   */
  function NormalizeStripped(u: string): string
  {
    WithScheme(DropTrailingSlash(u))
  }

  /**
   * `normalize_base_url`. `url` is None for Python's None; the error is the
   * `ValueError` raised for a missing or blank URL.
   */
  function NormalizeBaseUrl(url: Option<string>): (r: Result<string, string>)
    ensures r.Err? <==> url.None? || AllSpace(url.value)
    ensures r.Ok? ==> HasHttpScheme(r.value)
    ensures r.Ok? ==>
      var s := Strip(url.value);
      EndsWith(r.value, s) || EndsWith(r.value + "/", s)
  {
    var u := Strip(url.GetOr(""));
    if u == [] then Err("MuseTalk base URL is required")
    else
      NormalizedEndsWith(u);
      Ok(NormalizeStripped(u))
  }

  /** The normalised text ends with its input, less at most one trailing slash. */
  lemma NormalizedEndsWith(u: string)
    ensures var r := NormalizeStripped(u);
      EndsWith(r, u) || EndsWith(r + "/", u)
  {
    var v := DropTrailingSlash(u);
    var r := WithScheme(v);
    SuffixOfScheme(v);
    if EndsWith(u, "/") {
      assert (r + "/")[|r + "/"| - |u|..] == r[|r| - |v|..] + "/";
    }
  }

  lemma SuffixOfScheme(v: string)
    ensures EndsWith(WithScheme(v), v)
  {
    if !HasHttpScheme(v) {
      assert (Http + v)[|Http + v| - |v|..] == v;
    }
  }

  /** A stripped URL that already has a scheme and no trailing slash comes back unchanged. */
  lemma NormalizeKeepsSchemedUrl(url: string)
    requires HasHttpScheme(Strip(url)) && !EndsWith(Strip(url), "/")
    ensures NormalizeBaseUrl(Some(url)) == Ok(Strip(url))
  {
  }

  /**
   * Only one trailing slash is dropped: `host//` becomes `http://host/`
   * for any scheme-less host text.
   */
  lemma NormalizeDropsOneSlash(host: string)
    requires host != [] && !IsSpace(host[0]) && !HasHttpScheme(host + "/")
    ensures NormalizeBaseUrl(Some(host + "//")) == Ok(Http + host + "/")
  {
    var u := host + "//";
    assert Strip(u) == u by {
      assert u[0] == host[0] && u[|u| - 1] == '/';
      StripTrimmed(u);
    }
    assert NormalizeStripped(u) == Http + host + "/" by {
      assert EndsWith(u, "/") && u[..|u| - 1] == host + "/";
      assert Http + (host + "/") == Http + host + "/";
    }
  }

  /** A schemed URL with one trailing slash loses that slash and nothing else. */
  lemma NormalizeSchemedSlash(w: string)
    requires w != [] && !IsSpace(w[0]) && HasHttpScheme(w)
    ensures NormalizeBaseUrl(Some(w + "/")) == Ok(w)
  {
    var u := w + "/";
    assert Strip(u) == u by {
      assert u[0] == w[0] && u[|u| - 1] == '/';
      StripTrimmed(u);
    }
    assert NormalizeStripped(u) == w by {
      assert EndsWith(u, "/") && u[..|u| - 1] == w;
    }
  }

  /**
   * Hence normalising is not idempotent: a second pass over the result
   * drops the remaining slash.
   */
  lemma NormalizeNotIdempotent(host: string)
    requires host != [] && !IsSpace(host[0]) && !HasHttpScheme(host + "/")
    ensures var once := NormalizeBaseUrl(Some(host + "//"));
      once.Ok? && NormalizeBaseUrl(Some(once.value)) == Ok(Http + host) != once
  {
    var once := Http + host + "/";
    assert NormalizeBaseUrl(Some(host + "//")) == Ok(once) by {
      NormalizeDropsOneSlash(host);
    }
    var w := Http + host;
    assert NormalizeBaseUrl(Some(once)) == Ok(w) by {
      assert w != [] && !IsSpace(w[0]) && HasHttpScheme(w) by {
        assert w[..|Http|] == Http && w[0] == 'h';
      }
      NormalizeSchemedSlash(w);
    }
    assert |w| < |once|;
  }

  /** The scheme test is case-sensitive: `HTTP://x` gets a second scheme. */
  lemma NormalizeSchemeCaseSensitive(rest: string)
    requires rest != [] && !IsSpace(rest[|rest| - 1]) && rest[|rest| - 1] != '/'
    ensures NormalizeBaseUrl(Some("HTTP://" + rest)) == Ok(Http + "HTTP://" + rest)
  {
    var u := "HTTP://" + rest;
    assert u[0] == 'H' && u[|u| - 1] == rest[|rest| - 1];
    StripTrimmed(u);
    assert !EndsWith(u, "/");
    assert u[..|Http|][0] == 'H' && u[..|Https|][0] == 'H';
    assert !HasHttpScheme(u);
    assert NormalizeStripped(u) == Http + u;
    assert Http + ("HTTP://" + rest) == Http + "HTTP://" + rest;
  }

  /** The URL `post_to_musetalk` posts to: every trailing `/` removed, then `/process`. */
  function ProcessUrl(musetalkUrl: string): (r: string)
    ensures var base := RStripChar(musetalkUrl, '/');
      r == base + "/process" && musetalkUrl == base + musetalkUrl[|base|..]
  {
    RStripChar(musetalkUrl, '/') + "/process"
  }

  /** Trailing slashes on the base never change the process URL. */
  lemma {:induction false} ProcessUrlIgnoresSlashes(u: string, slashes: nat)
    ensures ProcessUrl(u + seq(slashes, _ => '/')) == ProcessUrl(u)
    decreases slashes
  {
    if slashes > 0 {
      var longer := u + seq(slashes, _ => '/');
      var shorter := u + seq(slashes - 1, _ => '/');
      assert longer[..|longer| - 1] == shorter;
      ProcessUrlIgnoresSlashes(u, slashes - 1);
    } else {
      assert u + seq(0, _ => '/') == u;
    }
  }

  /**
   * The callback URL `main` hands to MuseTalk: the public base (None and
   * empty alike) with every trailing `/` removed, then `/stream_frames`.
   */
  function StreamCallbackUrl(publicBase: Option<string>): (r: string)
    ensures publicBase.None? || publicBase.value == "" ==> r == "/stream_frames"
    ensures var base := RStripChar(publicBase.GetOr(""), '/');
      r == base + "/stream_frames" && (base == [] || base[|base| - 1] != '/')
  {
    RStripChar(publicBase.GetOr(""), '/') + "/stream_frames"
  }

  /** One chat message: `{"role": …, "content": …}`. */
  datatype Message = Message(role: string, content: string)

  /**
   * The message list `chat_infer` sends: a system message exactly when a
   * non-empty system prompt is given, then the user's prompt.
   */
  function ChatMessages(prompt: string, systemPrompt: Option<string>): (msgs: seq<Message>)
    ensures 1 <= |msgs| <= 2
    ensures msgs[|msgs| - 1] == Message("user", prompt)
    ensures |msgs| == 2 <==> systemPrompt.Some? && systemPrompt.value != ""
    ensures msgs[0].role == "system" <==> |msgs| == 2
    ensures |msgs| == 2 ==> msgs[0] == Message("system", systemPrompt.value)
  {
    var system := if systemPrompt.Some? && systemPrompt.value != "" then [Message("system", systemPrompt.value)] else [];
    system + [Message("user", prompt)]
  }
}
