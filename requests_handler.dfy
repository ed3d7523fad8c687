/**
 * The `requests` handler's static description (URL schemes, proxy schemes, content encodings,
 * features, name and selection preference) and its extension check, which claims the
 * `cookiejar` and `timeout` extensions by removing them from the request's extension map.
 */
module RequestsHandler {
  import opened Wrappers
  import HttpAdapter

  const UrlSchemes: seq<string> := ["http", "https"]
  const ProxySchemes: seq<string> := ["http", "https", "socks4", "socks4a", "socks5", "socks5h"]

  datatype Feature = NoProxy | AllProxy

  const Features: seq<Feature> := [NoProxy, AllProxy]
  const Name := "requests"

  /** The score the registered preference function gives this handler for every request. */
  const Preference := 100

  /**
   * The handler's description fits together: every URL scheme may also be used for a proxy,
   * both proxy features are claimed once each, and the preference score is a fixed positive 100.
   */
  lemma Capabilities()
    ensures forall s :: s in UrlSchemes ==> s in ProxySchemes
    ensures |Features| == 2 && Features[0] != Features[1]
    ensures Name == "requests" && Preference == 100
  {
  }

  /** The content encodings offered: gzip and deflate, and brotli when its module is available. */
  function SupportedEncodings(brotliAvailable: bool): seq<string>
  {
    ["gzip", "deflate"] + if brotliAvailable then ["br"] else []
  }

  /** The encodings as the file leaves them: the list is rebound to gzip and deflate before the handler reads it. */
  function SupportedEncodingsAsWritten(brotliAvailable: bool): seq<string>
  {
    ["gzip", "deflate"]
  }

  /** Brotli is offered exactly when it is available; gzip and deflate always are. */
  lemma BrotliOfferedWhenAvailable(brotliAvailable: bool)
    ensures "br" in SupportedEncodings(brotliAvailable) <==> brotliAvailable
    ensures "gzip" in SupportedEncodings(brotliAvailable) && "deflate" in SupportedEncodings(brotliAvailable)
  {
  }

  /** As written, brotli is never offered, even when it is available. */
  lemma BrotliDroppedAsWritten()
    ensures "br" !in SupportedEncodingsAsWritten(true)
    ensures "br" in SupportedEncodings(true)
  {
    assert SupportedEncodings(true)[2] == "br";
  }

  /**
   * Of the supported proxy schemes, exactly the four SOCKS variants count as SOCKS for the
   * adapter, so only http and https proxies are given the proxy TLS context.
   */
  lemma ProxySchemesSplit(rest: string)
    ensures forall s :: s in ProxySchemes ==>
              (HttpAdapter.IsSocksProxy(s + "://" + rest) <==> s != "http" && s != "https")
  {
    forall s | s in ProxySchemes
      ensures HttpAdapter.IsSocksProxy(s + "://" + rest) <==> s != "http" && s != "https"
    {
      var p := s + "://" + rest;
      assert p[0] == s[0] && p[1] == s[1] && p[2] == s[2] && p[3] == s[3];
      if s != "http" && s != "https" {
        assert |s| >= 6 && s[..5] == "socks";
        assert p[4] == s[4];
      }
    }
  }

  /** A request's extension map, a dictionary the handler changes in place. */
  class ExtensionMap<V> {
    var entries: map<string, V>

    constructor (entries: map<string, V>)
      ensures this.entries == entries
    {
      this.entries := entries;
    }

    /** `dict.pop(key, None)`. */
    method Pop(key: string) returns (v: Option<V>)
      modifies this
      ensures v == if key in old(entries) then Some(old(entries)[key]) else None
      ensures entries == old(entries) - {key}
    {
      if key in entries {
        v := Some(entries[key]);
        entries := entries - {key};
      } else {
        v := None;
        assert entries - {key} == entries;
      }
    }
  }

  /** The extensions this handler consumes itself. */
  const HandledExtensions: set<string> := {"cookiejar", "timeout"}

  /** `_check_extensions`: removes `cookiejar` and `timeout` and leaves every other entry as it was. */
  method CheckExtensions<V>(extensions: ExtensionMap<V>)
    modifies extensions
    ensures extensions.entries == old(extensions.entries) - HandledExtensions
    ensures forall k :: k in old(extensions.entries) && k !in HandledExtensions ==>
              k in extensions.entries && extensions.entries[k] == old(extensions.entries)[k]
    ensures "cookiejar" !in extensions.entries && "timeout" !in extensions.entries
  {
    var _ := extensions.Pop("cookiejar");
    var _ := extensions.Pop("timeout");
  }
}
