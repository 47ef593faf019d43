/** Publishing container metadata for one prepared claim: plan it, then persist the plan. */
module MetadataRuntime {
  import opened Wrappers
  import opened Disk
  import opened ClaimFiles
  import opened Persist
  import opened MetadataFacts
  import opened MetadataPlan
  import opened PlanLaws
  import PlanMeaning

  datatype Failure = NotPlanned(error: Error) | NotStored

  /** The claim's artifacts on disk are the plan of these results. */
  ghost predicate Shows(t: Tree, w: Writer, r: Runtime, claim: Claim, prepared: seq<Prepared>, devices: seq<PreparedDevice>)
    requires Buildable(w, claim, Elements(prepared))
  {
    exists plan :: IsPlan(w, claim, prepared, plan) && Published(t, r, JournalOf(r, plan)) && devices == plan.devices
  }

  /**
   * Refused results touch nothing; success means the store
   * shows exactly what the results plan; undisturbed, storing succeeds exactly when
   * the plan can be persisted.
   */
  method Publish(volume: Volume, w: Writer, r: Runtime, claim: Claim, prepared: seq<Prepared>)
    returns (devices: Result<seq<PreparedDevice>, Failure>)
    requires volume.Valid() && Lawful(r) && w.driver == r.driver && ClaimState(volume.tree, r, claim.identity.uid)
    modifies volume
    ensures volume.Valid() && Within(old(volume.trace), volume.trace, Allowed(old(volume.tree), r, claim.identity.uid))
    ensures ClaimState(volume.tree, r, claim.identity.uid) && OnlyClaim(old(volume.tree), volume.tree, r, claim.identity.uid)
    ensures !Buildable(w, claim, Elements(prepared)) ==> devices.Err? && volume.tree == old(volume.tree) && volume.trace == old(volume.trace)
    ensures devices.Ok? ==> Buildable(w, claim, Elements(prepared)) && Shows(volume.tree, w, r, claim, prepared, devices.value)
    ensures devices.Ok? ==> PlanMeaning.Readable(volume.tree, w, r, claim, prepared, devices.value)
    ensures old(volume.outcomes) == [] && Buildable(w, claim, Elements(prepared)) ==>
      exists plan :: IsPlan(w, claim, prepared, plan) && (devices.Ok? <==> Persistable(old(Start(volume.tree, volume.pid, volume.nextStage)), r, plan))
  {
    var plan := Build(w, claim, prepared);
    if plan.Err? {
      return Err(NotPlanned(plan.error));
    }
    PlanIsValid(w, claim, prepared, plan.value);
    var ok := PersistPlan(volume, r, plan.value);
    if ok {
      PlanMeaning.PlanMeans(w, claim, r.root, prepared, plan.value);
      PlanMeaning.PublishedIsOnDisk(volume.tree, r, plan.value);
    }
    devices := if ok then Ok(plan.value.devices) else Err(NotStored);
  }
}
