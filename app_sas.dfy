/**
 * The older SAS token module (app/iothub_sas.py): the same generator and
 * cache as the services copy, but with globals of its own, so a process that
 * loads both modules keeps two independent caches. The generator is written
 * out again and proved to agree with the services copy; the cache is a class
 * of its own whose every call follows the same `CacheStep`.
 */
module AppSas {
  import opened Wrappers
  import opened Text
  import SasToken

  /** `generate_sas_token` of this module. */
  function GenerateSasToken(resourceUri: string, key: string, policyName: string, expirySeconds: int,
                            genNow: int, prims: SasToken.Primitives): (r: Result<string, SasToken.SasError>)
    ensures r.Success? <==> prims.b64decode(key).Some?
  {
    var expiry := genNow + expirySeconds;
    var encodedUri := prims.quotePlus(prims.utf8(resourceUri));
    var toSign := encodedUri + "\n" + IntToDecimal(expiry);
    match prims.b64decode(key)
    case None => Failure(SasToken.KeyNotBase64)
    case Some(keyBytes) =>
      var signature := prims.b64encode(prims.hmacSha256(keyBytes, prims.utf8(toSign)));
      var encodedSig := prims.quotePlus(signature);
      Success("SharedAccessSignature " + "sr=" + encodedUri + "&sig=" + encodedSig
              + "&se=" + IntToDecimal(expiry) + "&skn=" + policyName)
  }

  /** The two generators produce the same token, or fail alike, on every input. */
  lemma GeneratorCopiesAgree(resourceUri: string, key: string, policyName: string, expirySeconds: int,
                             genNow: int, prims: SasToken.Primitives)
    ensures GenerateSasToken(resourceUri, key, policyName, expirySeconds, genNow, prims)
         == SasToken.GenerateSasToken(resourceUri, key, policyName, expirySeconds, genNow, prims)
  {
  }

  /** The globals `_cached_sas` and `_cached_expiry` of this module. */
  class AppSasCache {
    var cachedSas: Option<string>
    var cachedExpiry: int
    const cfg: SasToken.Config

    constructor(cfg: SasToken.Config)
      ensures State() == SasToken.Initial && this.cfg == cfg
    {
      this.cfg := cfg;
      cachedSas := None;
      cachedExpiry := 0;
    }

    function State(): SasToken.CacheState
      reads this
    {
      SasToken.CacheState(cachedSas, cachedExpiry)
    }

    /** `get_cached_sas_token` of this module. */
    method GetCachedSasToken(now: int, genNow: int) returns (r: Result<string, SasToken.SasError>)
      modifies this
      ensures (r, State()) == SasToken.CacheStep(old(State()), now, genNow, cfg)
    {
      if cachedSas.Some? && cachedSas.value != "" && now < cachedExpiry - 60 {
        return Success(cachedSas.value);
      }
      var expirySeconds := 3600;
      cachedExpiry := now + expirySeconds;
      GeneratorCopiesAgree(cfg.hubName, cfg.policyKey, cfg.policyName, expirySeconds, genNow, cfg.prims);
      r := GenerateSasToken(cfg.hubName, cfg.policyKey, cfg.policyName, expirySeconds, genNow, cfg.prims);
      if r.Success? {
        cachedSas := Some(r.value);
      }
    }
  }

  /**
   * Refreshing one module's cache leaves the other's alone: after a call on
   * the app cache, the services cache still holds what it held. The first
   * `ensures` is a framing fact: the two caches are objects of different
   * classes, so `modifies app` alone keeps the services cache; it is stated
   * because the two modules' globals are separate in the source too.
   */
  method CachesAreIndependent(app: AppSasCache, services: SasToken.SasCache, now: int, genNow: int)
    returns (r: Result<string, SasToken.SasError>)
    modifies app
    ensures services.State() == old(services.State())
    ensures (r, app.State()) == SasToken.CacheStep(old(app.State()), now, genNow, app.cfg)
  {
    r := app.GetCachedSasToken(now, genNow);
  }
}
