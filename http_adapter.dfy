/**
 * `RequestsHTTPAdapter`: the transport adapter keeps the pool-manager keyword arguments chosen
 * when it is built, forwards them to every pool manager it creates, and hands a proxy TLS
 * context only to proxy managers of non-SOCKS proxies.
 */
module HttpAdapter {
  import opened Wrappers

  /** An `ssl.SSLContext` object, known by its identity. */
  datatype SslContext = SslContext(id: nat)

  /** A keyword argument value passed on to a urllib3 pool manager. */
  datatype KwArg = SslContextArg(ctx: SslContext) | SourceAddressArg(host: string, port: int) | OtherArg(tag: string)

  /** A call's keyword arguments, or the `TypeError` Python raises when two `**` expansions repeat a keyword. */
  datatype CallArgs = Call(kwargs: map<string, KwArg>) | DuplicateKeyword

  /** `f(**a, **b)`. */
  function Splat(a: map<string, KwArg>, b: map<string, KwArg>): CallArgs
  {
    if a.Keys !! b.Keys then Call(a + b) else DuplicateKeyword
  }

  /** `f(**a, **b, **c)`. */
  function Splat3(a: map<string, KwArg>, b: map<string, KwArg>, c: map<string, KwArg>): CallArgs
  {
    match Splat(a, b)
    case Call(ab) => Splat(ab, c)
    case DuplicateKeyword => DuplicateKeyword
  }

  /** Three expansions succeed exactly when no keyword repeats, and then every keyword keeps its value. */
  lemma Splat3Disjoint(a: map<string, KwArg>, b: map<string, KwArg>, c: map<string, KwArg>)
    ensures Splat3(a, b, c).Call? <==> a.Keys !! b.Keys && a.Keys !! c.Keys && b.Keys !! c.Keys
    ensures Splat3(a, b, c).Call? ==>
              var m := Splat3(a, b, c).kwargs;
              m.Keys == a.Keys + b.Keys + c.Keys &&
              (forall k :: k in a ==> m[k] == a[k]) &&
              (forall k :: k in b ==> m[k] == b[k]) &&
              (forall k :: k in c ==> m[k] == c[k])
  {
    if a.Keys !! b.Keys {
      assert (a + b).Keys == a.Keys + b.Keys;
    }
  }

  /** `str.lower()` on one character, for the characters whose lower-case form is an ASCII letter. */
  function LowerChar(c: char): char
  {
    if 'A' <= c <= 'Z' then (c as int + 32) as char
    else if c == '\U{212A}' then 'k'  // KELVIN SIGN lower-cases to a Latin 'k'
    else c
  }

  /** `proxy.lower().startswith('socks')`. */
  predicate IsSocksProxy(proxy: string)
  {
    |proxy| >= 5 && forall i :: 0 <= i < 5 ==> LowerChar(proxy[i]) == "socks"[i]
  }

  class RequestsHTTPAdapter {
    /** The keyword arguments every pool manager receives. */
    var poolManagerArgs: map<string, KwArg>
    /** The TLS context used to talk to an HTTPS proxy. */
    var proxySslContext: Option<SslContext>

    /** The adapter only ever stores its own two pool-manager arguments. */
    predicate Valid()
      reads this
    {
      poolManagerArgs.Keys <= {"ssl_context", "source_address"}
    }

    /** `ssl_context` and `source_address` are kept only when given (an empty address counts as absent). */
    constructor (sslContext: Option<SslContext>, proxySslContext: Option<SslContext>, sourceAddress: Option<string>)
      ensures "ssl_context" in poolManagerArgs <==> sslContext.Some?
      ensures sslContext.Some? ==> poolManagerArgs["ssl_context"] == SslContextArg(sslContext.value)
      ensures "source_address" in poolManagerArgs <==> sourceAddress.Some? && sourceAddress.value != ""
      ensures "source_address" in poolManagerArgs ==>
                poolManagerArgs["source_address"] == SourceAddressArg(sourceAddress.value, 0)
      ensures Valid()
      ensures this.proxySslContext == if proxySslContext.Some? then proxySslContext else sslContext
    {
      poolManagerArgs := map[];
      this.proxySslContext := if proxySslContext.Some? then proxySslContext else sslContext;
      new;
      if sslContext.Some? {
        poolManagerArgs := poolManagerArgs["ssl_context" := SslContextArg(sslContext.value)];
      }
      if sourceAddress.Some? && sourceAddress.value != "" {
        poolManagerArgs := poolManagerArgs["source_address" := SourceAddressArg(sourceAddress.value, 0)];
      }
    }

    /** The keyword arguments `init_poolmanager` passes on: the caller's and the adapter's. */
    function PoolManagerKwargs(kwargs: map<string, KwArg>): CallArgs
      reads this
    {
      Splat(kwargs, poolManagerArgs)
    }

    /** The extra keyword argument of `proxy_manager_for`: the proxy TLS context, for non-SOCKS proxies. */
    function ProxyExtraKwargs(proxy: string): map<string, KwArg>
      reads this
    {
      if !IsSocksProxy(proxy) && proxySslContext.Some? then
        map["proxy_ssl_context" := SslContextArg(proxySslContext.value)]
      else map[]
    }

    /** The keyword arguments `proxy_manager_for` passes on for `proxy`. */
    function ProxyManagerKwargs(proxy: string, proxyKwargs: map<string, KwArg>): CallArgs
      reads this
    {
      Splat3(proxyKwargs, poolManagerArgs, ProxyExtraKwargs(proxy))
    }

    /**
     * A proxy manager gets the adapter's proxy TLS context exactly when the proxy is not a
     * SOCKS proxy and a context is known; otherwise the proxy manager only ever sees a caller's own
     * `proxy_ssl_context`. The adapter's arguments always go along, the caller's keep their values, nothing else is added,
     * and a repeated keyword is a `TypeError`.
     */
    lemma ProxySslContextOnlyForNonSocks(proxy: string, proxyKwargs: map<string, KwArg>)
      requires Valid()
      ensures var r := ProxyManagerKwargs(proxy, proxyKwargs);
        (r.Call? <==> proxyKwargs.Keys !! poolManagerArgs.Keys && proxyKwargs.Keys !! ProxyExtraKwargs(proxy).Keys) &&
        (r.Call? ==> forall k :: k in poolManagerArgs ==> k in r.kwargs && r.kwargs[k] == poolManagerArgs[k]) &&
        (r.Call? && !IsSocksProxy(proxy) && proxySslContext.Some? ==>
           r.kwargs["proxy_ssl_context"] == SslContextArg(proxySslContext.value)) &&
        (r.Call? && !(!IsSocksProxy(proxy) && proxySslContext.Some?) ==>
           ("proxy_ssl_context" in r.kwargs <==> "proxy_ssl_context" in proxyKwargs))
      ensures var r := ProxyManagerKwargs(proxy, proxyKwargs);
        r.Call? ==>
          r.kwargs.Keys == proxyKwargs.Keys + poolManagerArgs.Keys +
                           (if !IsSocksProxy(proxy) && proxySslContext.Some? then {"proxy_ssl_context"} else {}) &&
          (forall k :: k in proxyKwargs ==> r.kwargs[k] == proxyKwargs[k])
    {
      Splat3Disjoint(proxyKwargs, poolManagerArgs, ProxyExtraKwargs(proxy));
    }

    /** Every pool manager receives the adapter's arguments alongside the caller's, unless a keyword repeats. */
    lemma PoolManagerGetsAdapterArgs(kwargs: map<string, KwArg>)
      ensures PoolManagerKwargs(kwargs).Call? <==> kwargs.Keys !! poolManagerArgs.Keys
      ensures PoolManagerKwargs(kwargs).Call? ==>
                var m := PoolManagerKwargs(kwargs).kwargs;
                m.Keys == kwargs.Keys + poolManagerArgs.Keys &&
                (forall k :: k in poolManagerArgs ==> m[k] == poolManagerArgs[k]) &&
                (forall k :: k in kwargs ==> m[k] == kwargs[k])
    {
    }
  }

  /** The SOCKS test ignores case: exactly the proxies whose first five characters spell `socks` in any case. */
  lemma SocksTestIgnoresCase(proxy: string)
    requires forall i :: 0 <= i < |proxy| ==> proxy[i] < '\U{80}'
    ensures IsSocksProxy(proxy) <==>
              |proxy| >= 5 && proxy[0] in "sS" && proxy[1] in "oO" && proxy[2] in "cC" &&
              proxy[3] in "kK" && proxy[4] in "sS"
  {
  }
}
