/**
 * Shared Access Signature tokens for the IoT Hub registry
 * (app/services/iothub/iothub_sas.py): the generator that assembles and
 * signs a token, and the process-wide cache that hands the same token out
 * until it is within a minute of its expiry.
 *
 * HMAC-SHA256, base64, `quote_plus` and UTF-8 encoding are library code and
 * are taken as given functions (`Primitives`); only the assembly around them
 * is modelled. The clock is a parameter: the cache reads it once (`now`) and
 * the generator reads it again (`genNow`).
 */
module SasToken {
  import opened Wrappers
  import opened Text

  type Bytes = seq<bv8>

  /** The library functions the generator relies on. */
  datatype Primitives = Primitives(
    utf8: string -> Bytes,                // str.encode("utf-8")
    quotePlus: Bytes -> string,           // urllib.parse.quote_plus, after UTF-8 encoding of a str
    b64decode: string -> Option<Bytes>,   // base64.b64decode; None when it raises
    b64encode: Bytes -> Bytes,            // base64.b64encode
    hmacSha256: (Bytes, Bytes) -> Bytes)  // hmac.new(key, msg, sha256).digest()

  /** `quote_plus` escapes every `&`, so a quoted value never contains one. */
  ghost predicate QuotesAmpersand(prims: Primitives) {
    forall b :: '&' !in prims.quotePlus(b)
  }

  /** The exception the generator lets escape: a policy key that is not base64. */
  datatype SasError = KeyNotBase64

  const Scheme: string := "SharedAccessSignature "

  /** The four fields of a token. */
  datatype SasFields = SasFields(sr: string, sig: string, se: string, skn: string)

  /** The text a token signs: the quoted resource URI, a newline and the expiry in decimal. */
  function StringToSign(encodedUri: string, expiry: int): string {
    encodedUri + "\n" + IntToDecimal(expiry)
  }

  /** The signature field: HMAC-SHA256 of the signed text under the decoded key, base64, quoted. */
  function Signature(keyBytes: Bytes, toSign: string, prims: Primitives): string {
    prims.quotePlus(prims.b64encode(prims.hmacSha256(keyBytes, prims.utf8(toSign))))
  }

  /** `SharedAccessSignature sr=…&sig=…&se=…&skn=…`. */
  function Render(f: SasFields): (r: string)
    ensures |Scheme| <= |r| && r[..|Scheme|] == Scheme
  {
    Scheme + "sr=" + f.sr + "&sig=" + f.sig + "&se=" + f.se + "&skn=" + f.skn
  }

  /**
   * `generate_sas_token`: expiry is the generator's own clock reading plus
   * `expirySeconds`; the resource URI is quoted, and the quoted URI and the
   * expiry are what is signed.
   */
  function GenerateSasToken(resourceUri: string, key: string, policyName: string, expirySeconds: int,
                            genNow: int, prims: Primitives): (r: Result<string, SasError>)
    ensures r.Success? <==> prims.b64decode(key).Some?
    ensures r.Success? ==> |Scheme| < |r.value| && r.value[..|Scheme|] == Scheme
  {
    var expiry := genNow + expirySeconds;
    var encodedUri := prims.quotePlus(prims.utf8(resourceUri));
    var toSign := StringToSign(encodedUri, expiry);
    match prims.b64decode(key)
    case None => Failure(KeyNotBase64)
    case Some(keyBytes) =>
      var encodedSig := Signature(keyBytes, toSign, prims);
      Success(Render(SasFields(encodedUri, encodedSig, IntToDecimal(expiry), policyName)))
  }

  // ------------------------------------------------------------ reading back

  /** The pieces of `s` between the separators `c`. */
  function SplitOn(s: string, c: char): (parts: seq<string>)
    ensures |parts| >= 1
    decreases |s|
  {
    if c !in s then [s]
    else
      var i := FirstAt(s, c);
      [s[..i]] + SplitOn(s[i + 1..], c)
  }

  /** The position of the first `c` in `s`. */
  function FirstAt(s: string, c: char): (i: nat)
    requires c in s
    ensures i < |s| && s[i] == c && c !in s[..i]
  {
    if s[0] == c then 0
    else
      var j := FirstAt(s[1..], c);
      assert s[..j + 1] == [s[0]] + s[1..][..j];
      j + 1
  }

  lemma SplitOnFirst(a: string, c: char, b: string)
    requires c !in a
    ensures SplitOn(a + [c] + b, c) == [a] + SplitOn(b, c)
  {
    var s := a + [c] + b;
    assert s[|a|] == c;
    var i := FirstAt(s, c);
    assert i == |a|;
    assert s[..i] == a;
    assert s[i + 1..] == b;
  }

  /** `p` starts with the field name `k`. */
  predicate HasKey(p: string, k: string) {
    |k| <= |p| && p[..|k|] == k
  }

  /**
   * The fields of a token, read back the way the hub reads them. The
   * generator has no such function; it is the inverse the token round-trip
   * lemmas are stated with.
   */
  function ParseSasToken(t: string): Option<SasFields> {
    if |t| < |Scheme| || t[..|Scheme|] != Scheme then None
    else
      var parts := SplitOn(t[|Scheme|..], '&');
      if |parts| == 4 && HasKey(parts[0], "sr=") && HasKey(parts[1], "sig=")
         && HasKey(parts[2], "se=") && HasKey(parts[3], "skn=") then
        Some(SasFields(parts[0][3..], parts[1][4..], parts[2][3..], parts[3][4..]))
      else None
  }

  /** Four pieces without `&`, joined by `&`, split back into the same four pieces. */
  lemma {:induction false} SplitFour(a: string, b: string, c: string, d: string)
    requires '&' !in a && '&' !in b && '&' !in c && '&' !in d
    ensures SplitOn(a + ['&'] + (b + ['&'] + (c + ['&'] + d)), '&') == [a, b, c, d]
  {
    var cd := c + ['&'] + d;
    var bcd := b + ['&'] + cd;
    assert SplitOn(d, '&') == [d];
    SplitOnFirst(c, '&', d);
    SplitOnFirst(b, '&', cd);
    SplitOnFirst(a, '&', bcd);
    FourDisplay(a, b, c, d);
  }

  lemma FourDisplay<T>(a: T, b: T, c: T, d: T)
    ensures [a] + ([b] + ([c] + [d])) == [a, b, c, d]
  {
  }

  /** The rendered token is the scheme followed by the four `key=value` fields joined by `&`. */
  lemma RenderShape(f: SasFields)
    ensures Render(f) == Scheme + (("sr=" + f.sr) + ['&'] + (("sig=" + f.sig) + ['&'] + (("se=" + f.se) + ['&'] + ("skn=" + f.skn))))
  {
    assert "&sig=" == ['&'] + "sig=";
    assert "&se=" == ['&'] + "se=";
    assert "&skn=" == ['&'] + "skn=";
  }

  /** Slicing a concatenation at the seam gives back its two parts. */
  lemma ConcatSlices<T>(p: seq<T>, q: seq<T>)
    ensures (p + q)[..|p|] == p && (p + q)[|p|..] == q
  {
  }

  /** A field `key=value` holds no `&` when its value holds none. */
  lemma FieldHasNoAmpersand(key: string, value: string)
    requires key in ["sr=", "sig=", "se=", "skn="] && '&' !in value
    ensures '&' !in key + value
  {
  }

  /** A token whose fields hold no `&` reads back as those fields. */
  lemma {:induction false} RenderRoundTrip(f: SasFields)
    requires '&' !in f.sr && '&' !in f.sig && '&' !in f.se && '&' !in f.skn
    ensures ParseSasToken(Render(f)) == Some(f)
  {
    var a, b, c, d := "sr=" + f.sr, "sig=" + f.sig, "se=" + f.se, "skn=" + f.skn;
    var rest := a + ['&'] + (b + ['&'] + (c + ['&'] + d));
    RenderShape(f);
    ConcatSlices(Scheme, rest);
    FieldHasNoAmpersand("sr=", f.sr);
    FieldHasNoAmpersand("sig=", f.sig);
    FieldHasNoAmpersand("se=", f.se);
    FieldHasNoAmpersand("skn=", f.skn);
    SplitFour(a, b, c, d);
    ConcatSlices("sr=", f.sr);
    ConcatSlices("sig=", f.sig);
    ConcatSlices("se=", f.se);
    ConcatSlices("skn=", f.skn);
  }

  /** A decimal rendering holds no `&`. */
  lemma DecimalHasNoAmpersand(n: int)
    ensures '&' !in IntToDecimal(n)
  {
  }

  /**
   * A generated token reads back as: the quoted resource URI, the signature
   * of exactly that URI and the expiry under the decoded key, the expiry
   * `genNow + expirySeconds` in decimal, and the policy name.
   */
  lemma GeneratedTokenFields(resourceUri: string, key: string, policyName: string, expirySeconds: int,
                             genNow: int, prims: Primitives)
    requires QuotesAmpersand(prims) && '&' !in policyName
    requires prims.b64decode(key).Some?
    ensures var t := GenerateSasToken(resourceUri, key, policyName, expirySeconds, genNow, prims);
            var f := ParseSasToken(t.value);
            && t.Success? && f.Some?
            && f.value.sr == prims.quotePlus(prims.utf8(resourceUri))
            && f.value.sig == Signature(prims.b64decode(key).value, f.value.sr + "\n" + f.value.se, prims)
            && f.value.se == IntToDecimal(genNow + expirySeconds)
            && ParseDecimal(f.value.se) == Some(genNow + expirySeconds)
            && f.value.skn == policyName
  {
    var expiry := genNow + expirySeconds;
    var uri := prims.quotePlus(prims.utf8(resourceUri));
    var sig := Signature(prims.b64decode(key).value, StringToSign(uri, expiry), prims);
    DecimalHasNoAmpersand(expiry);
    RenderRoundTrip(SasFields(uri, sig, IntToDecimal(expiry), policyName));
    DecimalRoundTrip(expiry);
  }

  // ------------------------------------------------------------------ cache

  /** How long a fresh token lives, and how close to expiry a cached one is replaced. */
  const TokenLifetime: int := 3600
  const RefreshMargin: int := 60

  /** The module globals `_cached_sas` and `_cached_expiry`. */
  datatype CacheState = CacheState(sas: Option<string>, expiry: int)

  const Initial: CacheState := CacheState(None, 0)

  /** Where the hub and its policy come from: the deployment's configuration. */
  datatype Config = Config(hubName: string, policyKey: string, policyName: string, prims: Primitives)

  /** `_cached_sas and now < _cached_expiry - 60`: a cached, non-empty token with more than a minute left. */
  predicate Reusable(st: CacheState, now: int): (b: bool)
    ensures b ==> st.sas.Some? && st.sas.value != ""
    ensures st.expiry - RefreshMargin <= now ==> !b
    ensures st.sas.Some? && st.sas.value != "" && now < st.expiry - RefreshMargin ==> b
  {
    st.sas.Some? && st.sas.value != "" && now < st.expiry - RefreshMargin
  }

  /**
   * One call of `get_cached_sas_token`: the returned token (or the
   * exception) and the cache afterwards. A refresh records the new expiry
   * before it generates, so a generator that raises leaves the new expiry
   * beside the old token.
   */
  function CacheStep(st: CacheState, now: int, genNow: int, cfg: Config): (r: (Result<string, SasError>, CacheState))
    ensures Reusable(st, now) ==> r == (Success(st.sas.value), st)
    ensures !Reusable(st, now) ==> r.1.expiry == now + TokenLifetime
    ensures !Reusable(st, now) ==>
              r.0 == GenerateSasToken(cfg.hubName, cfg.policyKey, cfg.policyName, TokenLifetime, genNow, cfg.prims)
    ensures !Reusable(st, now) ==> r.1.sas == (if r.0.Success? then Some(r.0.value) else st.sas)
  {
    if Reusable(st, now) then (Success(st.sas.value), st)
    else
      var expiry := now + TokenLifetime;
      match GenerateSasToken(cfg.hubName, cfg.policyKey, cfg.policyName, TokenLifetime, genNow, cfg.prims)
      case Failure(e) => (Failure(e), st.(expiry := expiry))
      case Success(t) => (Success(t), CacheState(Some(t), expiry))
  }

  /** The process-wide cache: the two globals as fields. */
  class SasCache {
    var cachedSas: Option<string>
    var cachedExpiry: int
    const cfg: Config

    constructor(cfg: Config)
      ensures State() == Initial && this.cfg == cfg
    {
      this.cfg := cfg;
      cachedSas := None;
      cachedExpiry := 0;
    }

    function State(): CacheState
      reads this
    {
      CacheState(cachedSas, cachedExpiry)
    }

    /** `get_cached_sas_token`, with the clock readings as parameters. */
    method GetCachedSasToken(now: int, genNow: int) returns (r: Result<string, SasError>)
      modifies this
      ensures (r, State()) == CacheStep(old(State()), now, genNow, cfg)
    {
      if cachedSas.Some? && cachedSas.value != "" && now < cachedExpiry - RefreshMargin {
        return Success(cachedSas.value);
      }
      var expirySeconds := TokenLifetime;
      cachedExpiry := now + expirySeconds;
      r := GenerateSasToken(cfg.hubName, cfg.policyKey, cfg.policyName, expirySeconds, genNow, cfg.prims);
      if r.Success? {
        cachedSas := Some(r.value);
      }
    }
  }

  /** The first call finds nothing cached and generates a token expiring an hour after its clock reading. */
  lemma FirstCallGenerates(now: int, genNow: int, cfg: Config)
    ensures !Reusable(Initial, now)
    ensures CacheStep(Initial, now, genNow, cfg).0
         == GenerateSasToken(cfg.hubName, cfg.policyKey, cfg.policyName, TokenLifetime, genNow, cfg.prims)
    ensures CacheStep(Initial, now, genNow, cfg).1.expiry == now + TokenLifetime
  {
  }

  /** Whenever a call returns a token, that token is what the cache holds afterwards. */
  lemma ReturnedTokenIsCached(st: CacheState, now: int, genNow: int, cfg: Config)
    ensures var r := CacheStep(st, now, genNow, cfg);
            r.0.Success? ==> r.1.sas == Some(r.0.value)
  {
  }

  /** A token handed out always has more than a minute left on the cached expiry, by the caller's clock. */
  lemma ServedTokenHasMargin(st: CacheState, now: int, genNow: int, cfg: Config)
    ensures var r := CacheStep(st, now, genNow, cfg);
            r.0.Success? ==> now + RefreshMargin < r.1.expiry
  {
  }

  /** A generated token is never empty, so the cache treats it as present. */
  lemma GeneratedTokenIsTruthy(cfg: Config, genNow: int)
    ensures var t := GenerateSasToken(cfg.hubName, cfg.policyKey, cfg.policyName, TokenLifetime, genNow, cfg.prims);
            t.Success? ==> t.value != ""
  {
  }

  /** Two calls at the same clock reading return the same token, and the second leaves the cache alone. */
  lemma SameNowSameToken(st: CacheState, now: int, genNow1: int, genNow2: int, cfg: Config)
    ensures var r1 := CacheStep(st, now, genNow1, cfg);
            var r2 := CacheStep(r1.1, now, genNow2, cfg);
            r1.0.Success? ==> r2 == r1
  {
    var r1 := CacheStep(st, now, genNow1, cfg);
    if r1.0.Success? && !Reusable(st, now) {
      GeneratedTokenIsTruthy(cfg, genNow1);
      assert Reusable(r1.1, now);
    }
  }

  /** A refresh whose generator raises keeps the old token but records the new expiry. */
  lemma FailedRefreshKeepsOldToken(st: CacheState, now: int, genNow: int, cfg: Config)
    requires !Reusable(st, now) && cfg.prims.b64decode(cfg.policyKey).None?
    ensures CacheStep(st, now, genNow, cfg) == (Failure(KeyNotBase64), CacheState(st.sas, now + TokenLifetime))
  {
  }

  /**
   * The token's own `se` field is an hour after the generator's clock
   * reading, while the cache's expiry is an hour after the cache's reading.
   */
  lemma TokenExpiryFollowsGeneratorClock(st: CacheState, now: int, genNow: int, cfg: Config)
    requires !Reusable(st, now) && QuotesAmpersand(cfg.prims) && '&' !in cfg.policyName
    requires cfg.prims.b64decode(cfg.policyKey).Some?
    ensures var r := CacheStep(st, now, genNow, cfg);
            && r.0.Success?
            && ParseSasToken(r.0.value).Some?
            && ParseDecimal(ParseSasToken(r.0.value).value.se) == Some(genNow + TokenLifetime)
            && r.1.expiry == now + TokenLifetime
  {
    GeneratedTokenFields(cfg.hubName, cfg.policyKey, cfg.policyName, TokenLifetime, genNow, cfg.prims);
  }
}
