/** `explain_application` end to end, with its loop run imperatively. */
module ExplainApplication {
  import opened Basics
  import opened Upstream
  import opened Directory
  import opened Resolver
  import opened Planner
  import opened PlanReport
  import opened Worklist

  method ExplainArchive(up: Crates, archive: Archive, limits: PlanLimits, local: Kappa -> Result<Option<Bytes>>)
    returns (r: Result<Report>)
    ensures r == Explain(up, archive, limits, local)
  {
    hide VerifyRequired, Run, Start, ReadManifest, PlannedLayers, WithSources, AdmissionsWithSources;
    var manifest := ReadManifest(up, archive);
    if manifest.Err? {
      return Err(manifest.error);
    }
    var canonical := up.encodeManifest(manifest.value);
    var application := up.address(canonical);
    var verified := VerifyRequired(up, manifest.value, archive.directories, archive.blobs);
    if verified.Err? {
      return Err(verified.error);
    }
    var rootManifest := up.parseManifest(canonical);
    if rootManifest.None? {
      return Err(InvalidHolo);
    }
    var loop := new PlanningLoop(SourcesOf(up, archive, limits, local), application, rootManifest.value);
    var drained := loop.Drain();
    if drained.Err? {
      return Err(drained.error);
    }
    var c := loop.closure;
    var layers := WithSources(PlannedLayers(manifest.value), c.objects);
    var blockers := c.blockers + if manifest.value.primary.None? then [LibraryArchive] else [];
    r := Ok(Report(archive.kappa, application, manifest.value, layers, loop.children, c.objects, blockers,
                   c.resolvedBytes, |c.referenced|, c.embeddedCount, loop.applicationCount, loop.maxDepth,
                   loop.requested, AdmissionsWithSources(loop.admissions, c.objects)));
  }
}
