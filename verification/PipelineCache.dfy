/**
 The RAG pipelines shared between requests: a singleton built at start-up and a cache of pipelines for
 requests that override retrieval settings.
 */
module PipelineCache {
  import opened Checkpoints
  import opened QueryText

  datatype Strategy = Vector | Bm25 | Hybrid

  /** `RetrieverConfig`, field by field. */
  datatype Config = Config(
    rerankerName: string, rerankerTopK: int, rerankerEnabled: bool, rerankerFallbackChain: Option<seq<string>>,
    retrievalStrategy: Strategy,
    vectorTopK: int, vectorFetchK: int, vectorSearchType: string, vectorLambdaMult: real, vectorScoreThreshold: real,
    embeddingModel: string, bm25TopK: int, bm25Weight: real, vectorWeight: real, hybridTopK: int)

  /** `__post_init__` raises nothing. */
  predicate IsValid(c: Config) {
    && c.rerankerTopK > 0 && c.vectorTopK > 0 && c.bm25TopK > 0 && c.hybridTopK > 0
    && 0.0 < c.vectorWeight < 1.0 && 0.0 < c.bm25Weight < 1.0 && c.vectorWeight + c.bm25Weight == 1.0
    && (c.rerankerFallbackChain.Some? ==>
          && 0 < |c.rerankerFallbackChain.value| <= 3
          && forall i :: 0 <= i < |c.rerankerFallbackChain.value| ==> !Blank(c.rerankerFallbackChain.value[i]))
  }

  type CacheKey = (Strategy, string, int, bool)

  /** `_pipeline_cache_key` */
  function KeyOf(c: Config): CacheKey {
    (c.retrievalStrategy, c.rerankerName, c.rerankerTopK, c.rerankerEnabled)
  }

  /** A settings payload: each entry absent, unusable, or parsed. */
  datatype Entry<T> = Absent | Unusable | Parsed(value: T)

  datatype Overrides = Overrides(strategy: Entry<Strategy>, reranker: Option<string>, topK: Entry<int>)

  /** `str(reranker).strip()` is not empty. */
  predicate NamesReranker(o: Overrides) {
    o.reranker.Some? && !Blank(o.reranker.value)
  }

  /** `_apply_retriever_overrides`; `strip` trims a name. */
  function Apply(c: Config, o: Overrides, strip: string -> string): Config {
    var c1 := if o.strategy.Parsed? then c.(retrievalStrategy := o.strategy.value) else c;
    var c2 := if NamesReranker(o) then c1.(rerankerName := strip(o.reranker.value)) else c1;
    var c3 := if o.topK.Parsed? && o.topK.value > 0 then c2.(rerankerTopK := o.topK.value) else c2;
    if (o.strategy.Parsed? || NamesReranker(o) || (o.topK.Parsed? && o.topK.value > 0)) && IsValid(c3) then c3 else c
  }

  /** The two configs agree in every field that the key leaves out. */
  predicate AgreeOutsideKey(a: Config, b: Config) {
    && a.rerankerFallbackChain == b.rerankerFallbackChain && a.vectorTopK == b.vectorTopK && a.vectorFetchK == b.vectorFetchK
    && a.vectorSearchType == b.vectorSearchType && a.vectorLambdaMult == b.vectorLambdaMult
    && a.vectorScoreThreshold == b.vectorScoreThreshold && a.embeddingModel == b.embeddingModel
    && a.bm25TopK == b.bm25TopK && a.bm25Weight == b.bm25Weight && a.vectorWeight == b.vectorWeight
    && a.hybridTopK == b.hybridTopK
  }

  /**
   Overrides reach only fields that the key covers, so among the configs of one environment the key tells
   them apart; in a valid environment they are not rejected.
   */
  lemma KeySaysEverything(env: Config, a: Overrides, b: Overrides, strip: string -> string)
    ensures AgreeOutsideKey(Apply(env, a, strip), env) && Apply(env, a, strip).rerankerEnabled == env.rerankerEnabled
    ensures KeyOf(Apply(env, a, strip)) == KeyOf(Apply(env, b, strip)) <==> Apply(env, a, strip) == Apply(env, b, strip)
    ensures IsValid(env) && a.strategy.Parsed? ==> Apply(env, a, strip).retrievalStrategy == a.strategy.value
  {
    OverridesKeepRest(env, a, strip);
    OverridesKeepRest(env, b, strip);
    hide Apply, IsValid;
  }

  lemma OverridesKeepRest(env: Config, o: Overrides, strip: string -> string)
    ensures AgreeOutsideKey(Apply(env, o, strip), env) && Apply(env, o, strip).rerankerEnabled == env.rerankerEnabled
    ensures IsValid(env) && o.strategy.Parsed? ==> Apply(env, o, strip).retrievalStrategy == o.strategy.value
  {
    hide Blank;
  }

  /**
   What the overrides give: the parsed strategy, the trimmed name of a reranker that is not blank, and a positive
   top-k, each in place of the environment's, unless the config they make is invalid.
   */
  lemma OverridesGive(env: Config, o: Overrides, strip: string -> string)
    ensures var r := Apply(env, o, strip);
            var asked := env.(
              retrievalStrategy := if o.strategy.Parsed? then o.strategy.value else env.retrievalStrategy,
              rerankerName := if o.reranker.Some? && exists i :: 0 <= i < |o.reranker.value| && !IsSpace(o.reranker.value[i])
                              then strip(o.reranker.value) else env.rerankerName,
              rerankerTopK := if o.topK.Parsed? && o.topK.value > 0 then o.topK.value else env.rerankerTopK);
            r == if && asked.rerankerTopK > 0 && env.vectorTopK > 0 && env.bm25TopK > 0 && env.hybridTopK > 0
                    && 0.0 < env.vectorWeight < 1.0 && 0.0 < env.bm25Weight < 1.0 && env.vectorWeight + env.bm25Weight == 1.0
                    && (env.rerankerFallbackChain.Some? ==>
                          && 1 <= |env.rerankerFallbackChain.value| <= 3
                          && forall name :: name in env.rerankerFallbackChain.value ==>
                               exists i :: 0 <= i < |name| && !IsSpace(name[i]))
                 then asked else env
  {
    var asked := env.(
      retrievalStrategy := if o.strategy.Parsed? then o.strategy.value else env.retrievalStrategy,
      rerankerName := if NamesReranker(o) then strip(o.reranker.value) else env.rerankerName,
      rerankerTopK := if o.topK.Parsed? && o.topK.value > 0 then o.topK.value else env.rerankerTopK);
    hide IsSpace;
    assert IsValid(asked) || asked == env || Apply(env, o, strip) == env;
    if env.rerankerFallbackChain.Some? {
      var chain := env.rerankerFallbackChain.value;
      assert forall i :: 0 <= i < |chain| ==> chain[i] in chain;
    }
  }

  /**
   The environment is read again for every request.  A cached pipeline fits a request whose key it has
   exactly when the fallback chain, the vector, BM25 and hybrid settings and the embedding model are what
   they were when it was built.
   */
  lemma CachedFitsIff(cached: Config, env: Config, o: Overrides, strip: string -> string)
    requires KeyOf(cached) == KeyOf(Apply(env, o, strip))
    ensures cached == Apply(env, o, strip) <==> AgreeOutsideKey(cached, env)
  {
  }

  /** A pipeline is known by the config it was built with; the fallback one retrieves nothing. */
  datatype Pipeline = Built(config: Config) | Fallback

  class SharedPipelines {
    var pipeline: Option<Pipeline>
    var overrideCache: map<CacheKey, Config>
    const strip: string -> string

    constructor (strip: string -> string)
      ensures pipeline == None && overrideCache == map[] && this.strip == strip
    {
      this.strip := strip;
      pipeline, overrideCache := None, map[];
    }

    /** Everything shared was built in the environment `env`, and is cached under its own key. */
    ghost predicate BuiltFrom(env: Config)
      reads this
    {
      && (pipeline.Some? ==> pipeline.value == Built(env))
      && (forall k :: k in overrideCache ==> KeyOf(overrideCache[k]) == k && AgreeOutsideKey(overrideCache[k], env))
    }

    /** `get_shared_pipeline`: a failed build makes the fallback pipeline the singleton, for good. */
    method GetSharedPipeline(env: Config, buildFails: bool) returns (p: Pipeline)
      modifies this`pipeline
      ensures pipeline == Some(p)
      ensures p == if old(pipeline).Some? then old(pipeline).value else if buildFails then Fallback else Built(env)
      ensures old(BuiltFrom(env)) && !buildFails ==> BuiltFrom(env)
    {
      if pipeline.None? {
        pipeline := Some(if buildFails then Fallback else Built(env));
      }
      p := pipeline.value;
    }

    /**
     `get_pipeline_for_request`.  If everything shared is of this environment, a request gets exactly what it
     asks for unless a build is needed and fails; a request that changes nothing gets the singleton, whatever it is.
     */
    method GetPipelineForRequest(env: Config, overrides: Overrides, buildFails: bool) returns (p: Pipeline)
      modifies this`overrideCache
      ensures old(BuiltFrom(env)) ==> BuiltFrom(env)
      ensures old(BuiltFrom(env)) && !buildFails ==> p == Built(Apply(env, overrides, strip))
      ensures KeyOf(Apply(env, overrides, strip)) == KeyOf(env) && pipeline.Some? ==> p == pipeline.value
      ensures p.Fallback? ==> pipeline == Some(Fallback) || (buildFails && pipeline.None?)
      ensures buildFails ==> overrideCache == old(overrideCache)
      ensures forall k :: k in old(overrideCache) ==> k in overrideCache && overrideCache[k] == old(overrideCache)[k]
      ensures var key := KeyOf(Apply(env, overrides, strip));
              key != KeyOf(env) || pipeline.None? ==>
                && (key in old(overrideCache) ==> p == Built(old(overrideCache)[key]))
                && (key !in old(overrideCache) && !buildFails ==>
                      && p == Built(Apply(env, overrides, strip))
                      && overrideCache == old(overrideCache)[key := Apply(env, overrides, strip)])
                && (key !in old(overrideCache) && buildFails ==> p == if pipeline.Some? then pipeline.value else Fallback)
    {
      var config := Apply(env, overrides, strip);
      var key := KeyOf(config);
      OverridesKeepRest(env, overrides, strip);
      if key == KeyOf(env) {
        CachedFitsIff(env, env, overrides, strip);
      }
      hide Apply, AgreeOutsideKey;
      if key == KeyOf(env) && pipeline.Some? {
        return pipeline.value;
      }
      if key in overrideCache {
        if KeyOf(overrideCache[key]) == key {
          CachedFitsIff(overrideCache[key], env, overrides, strip);
        }
        return Built(overrideCache[key]);
      }
      if buildFails {
        return if pipeline.Some? then pipeline.value else Fallback;
      }
      overrideCache := overrideCache[key := config];
      p := Built(config);
    }

    method CloseSharedPipeline()
      modifies this
      ensures pipeline == None && overrideCache == map[]
      ensures forall env :: BuiltFrom(env)
    {
      pipeline, overrideCache := None, map[];
    }
  }
}
