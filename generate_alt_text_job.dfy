/** `GenerateAltTextJob::execute`: the queued task re-reads the asset by id,
    skips it unless it is an image without alt text, and otherwise runs
    the generation procedure once. */
module GenerateAltTextJob {
  import opened Wrappers
  import Php
  import opened Assets
  import opened AltTextService

  /** What `Asset::find()->id($assetId)->one()` gives: the asset, null, or
      an exception. */
  datatype Lookup = Found(asset: AssetRecord) | Missing | LookupThrew(message: string)

  datatype JobOutcome =
    | AssetNotFound
    | NotAnImage
    | AlreadyHasAlt
    | Generated(ok: bool)
    | Rethrown(message: string)

  /** The outcome, and the trace of the one generation run if there was one. */
  datatype JobRun = JobRun(outcome: JobOutcome, generation: Option<Generation>)

  /** The guard chain that precedes the delegation. */
  predicate ShouldGenerate(a: AssetRecord) {
    a.kind == Image && Php.Empty(a.alt)
  }

  function Execute(lookup: Lookup, settings: Settings, io: Io): (r: JobRun)
    // An exception from the lookup is passed on, after logging.
    ensures lookup.LookupThrew? ==> r == JobRun(Rethrown(lookup.message), None)
    ensures lookup.Missing? ==> r == JobRun(AssetNotFound, None)
    ensures lookup.Found? && lookup.asset.kind != Image ==> r == JobRun(NotAnImage, None)
    // Existing alt text is never overwritten.
    ensures lookup.Found? && lookup.asset.kind == Image && !Php.Empty(lookup.asset.alt)
            ==> r == JobRun(AlreadyHasAlt, None)
    // Otherwise the service runs exactly once, on the asset found.
    ensures r.generation.Some? <==> lookup.Found? && ShouldGenerate(lookup.asset)
    ensures r.generation.Some? ==> r.generation.value == Generate(lookup.asset, settings, io)
                                   && r.outcome == Generated(r.generation.value.ok)
  {
    match lookup
    case LookupThrew(message) => JobRun(Rethrown(message), None)
    case Missing => JobRun(AssetNotFound, None)
    case Found(a) =>
      if a.kind != Image then JobRun(NotAnImage, None)
      else if !Php.Empty(a.alt) then JobRun(AlreadyHasAlt, None)
      else
        var g := Generate(a, settings, io);
        JobRun(Generated(g.ok), Some(g))
  }

  /** The job's `execute`: the asset is loaded into a fresh element that the
      service then updates. */
  method Run(lookup: Lookup, settings: Settings, io: Io) returns (r: JobRun)
    ensures r == Execute(lookup, settings, io)
  {
    if lookup.LookupThrew? {
      return JobRun(Rethrown(lookup.message), None);
    }
    if lookup.Missing? {
      return JobRun(AssetNotFound, None);
    }
    var asset := new Asset(lookup.asset);
    if asset.kind != Image {
      return JobRun(NotAnImage, None);
    }
    if !Php.Empty(asset.alt) {
      return JobRun(AlreadyHasAlt, None);
    }
    var ok, trace := GenerateAltText(asset, settings, io);
    r := JobRun(Generated(ok), Some(Generation(ok, asset.alt, trace)));
  }

  /** A second job for an asset whose first job saved it does nothing: the
      saved alt text is never PHP-empty, so no caption request and no save
      happen the second time, whatever the environment. */
  lemma SecondRunIsNoOp(a: AssetRecord, settings: Settings, io: Io, io': Io)
    requires Execute(Found(a), settings, io).outcome == Generated(true)
    ensures var saved := Execute(Found(a), settings, io).generation.value.trace.saved;
            saved.Some? && Execute(Found(saved.value), settings, io') == JobRun(AlreadyHasAlt, None)
  {
  }
}
