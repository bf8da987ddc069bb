/**
 Why a release stops. Each predicate reads the end of a history of calls and says that its last
 call, given what went before it, is one after which the script must not go on.
 */
module ReleaseCauses {
  import opened Prelude
  import opened ReleaseTrace

  /** The image uses this repository's mutable deployment tag, by name and not by digest. */
  predicate DeploysTag(image: string, repository: Repository, tag: Tag) {
    && repository.uri + ":" <= image && '@' !in image && repository.mutability == "MUTABLE"
    && ':' !in tag && |image| > |tag| && image[|image| - |tag| - 1..] == ":" + tag
  }

  // ---------------------------------------------------------------- health

  /** The endpoint answered that it is well, at the versions that the first one gave. */
  predicate Agrees(c: Call, first: Call, url: string) {
    && c.FetchHealth? && c.url == url && c.health.Some? && c.health.value.ok
    && first.FetchHealth? && first.health.Some?
    && Get(c.health.value.revision) == Get(first.health.value.revision)
    && Get(c.health.value.connectorVersion) == Get(first.health.value.connectorVersion)
  }

  /** One health check and nothing else: every endpoint agrees, and the answers are on file. */
  ghost predicate AllAgree(t: Trace, u: Trace, urls: seq<string>) {
    && |u| == |t| + |urls| + 1 && u[|u| - 1] == Save("health-endpoints.json", true)
    && forall k :: 0 <= k < |urls| ==> Agrees(u[|t| + k], u[|t|], urls[k])
  }

  /** The last calls are a health check in which all endpoints agree. */
  ghost predicate EndsAgreed(t: Trace, urls: seq<string>) {
    |t| > |urls| && AllAgree(t[..|t| - |urls| - 1], t, urls)
  }

  /** And they agree on this revision. */
  ghost predicate EndsWell(t: Trace, urls: seq<string>, revision: Field) {
    urls != [] && EndsAgreed(t, urls) && Healthy(t[|t| - |urls| - 1], urls[0], revision)
  }

  /** An endpoint is unreachable, or the answers cannot be filed or disagree. */
  ghost predicate StopsHealth(urls: seq<string>, t: Trace) {
    |t| > 0 &&
    match t[|t| - 1]
    case FetchHealth(_, health) => health.None?
    case Save(file, _) => file == "health-endpoints.json" && !EndsAgreed(t, urls)
    case _ => false
  }

  // ---------------------------------------------------------------- the preflight

  /** The service, the definition, the repository, an image or an endpoint is not what a release needs, or a receipt fails. */
  ghost predicate StopsPreflight(source: Tag, urls: seq<string>, t: Trace) {
    || StopsHealth(urls, t)
    || (|t| > 0 &&
        match t[|t| - 1]
        case DescribeService(_) => forall s :: Shows(t[|t| - 1], s) ==> !(Settled(s) && s.desired >= 1)
        case DescribeDefinition(_, containers) =>
          containers.None? || |containers.value| != 1 || containers.value[0].name != "controller"
        case DescribeRepository(repository) => repository.None? || !Releasable(source, t, repository.value)
        case ReadImages(_, reply) => reply.None? || reply.value.failures || |reply.value.images| != 1
        case Save(_, saved) => !saved
        case Print(printed) => !printed
        case _ => false)
  }

  /** The definition described just before deploys one of the repository's mutable tags, and not the source tag. */
  ghost predicate Releasable(source: Tag, t: Trace, repository: Repository)
    requires |t| > 0
  {
    exists definition, container, tag ::
      |t| > 1 && t[|t| - 2] == DescribeDefinition(definition, Some([container]))
      && DeploysTag(container.image, repository, tag) && tag != source
  }

  // ---------------------------------------------------------------- waiting for a rollout

  /** Our rollout is primary and has neither failed nor settled. */
  ghost predicate StillRolling(p: Plan, c: Call, id: string) {
    exists s :: Shows(c, s) && Configured(p, s) && !Settled(s) && RunsOurs(s, id)
  }

  /** The service runs our rollout: it is primary and has not failed. */
  predicate RunsOurs(s: Service, id: string) {
    Primaries(s) != [] && Primaries(s)[0].id == id && Primaries(s)[0].rollout != "FAILED"
  }

  /** The image that a digest of the plan stands for. */
  function ImageOf(p: Plan, digest: Digest): Image {
    if digest == p.newImage.digest then p.newImage else p.oldImage
  }

  /** The wait for a rollout cannot go on: it is not ours or has failed, or it settled on something else. */
  ghost predicate StopsWait(p: Plan, id: string, revision: Field, digest: Digest, t: Trace) {
    |t| > 0 &&
    match t[|t| - 1]
    case DescribeService(_) => forall s :: Shows(t[|t| - 1], s) && Configured(p, s) ==> !RunsOurs(s, id)
    case FetchHealth(_, health) => health.None?
    case ListTasks(listed) => !listed
    case DescribeTasks(_) =>
      !RunsOnly(t[|t| - 1], p.desired, ReleaseSet(p, digest)) || ImageOf(p, digest).platforms.None?
    case Save(file, _) => file == "health-endpoints.json" && !EndsWell(t, p.healthUrls, revision)
    case Print(printed) => !printed
    case _ => false
  }

  /** Since its start in u after t, the rollout was never seen settled. */
  ghost predicate InVain(p: Plan, t: Trace, u: Trace) {
    exists j, id :: |t| <= j < |u| && u[j] == StartRollout(Some(id)) && AllRolling(p, id, j + 1, u)
  }

  /** Every look found the rollout still rolling, and every pause followed such a look. */
  ghost predicate AllRolling(p: Plan, id: string, from: nat, u: Trace) {
    forall k | from <= k < |u| :: RollingAt(p, id, from, u, k)
  }

  ghost predicate RollingAt(p: Plan, id: string, from: nat, u: Trace, k: nat)
    requires k < |u|
  {
    && (u[k].DescribeService? ==> StillRolling(p, u[k], id))
    && (u[k].Paused? ==> k >= from + 2 && StillRolling(p, u[k - 2], id))
  }

  // ---------------------------------------------------------------- the release

  /** The call failed, or a receipt could not be written. */
  predicate Refuses(c: Call) {
    match c
    case DescribeService(services) => services.None?
    case ReadImages(_, reply) => reply.None?
    case PutImage(_, _, done) => !done
    case StartRollout(id) => id.None?
    case Save(_, saved) => !saved
    case Print(printed) => !printed
    case _ => false
  }

  /**
   A tag was read back and is not what it must be: right after the service was found unchanged,
   the deployment tag must be old; right after a tag was placed, it must be what was placed.
   */
  predicate Misread(p: Plan, before: Call, c: Call) {
    c.ReadImages? &&
    (|| (before.DescribeService? && c.tag == p.target && !Resolves(c, p.target, p.oldImage.digest))
     || (Placed(before, p.rollback, p.oldImage) && c.tag == p.rollback && !Resolves(c, p.rollback, p.oldImage.digest))
     || (Placed(before, p.target, p.newImage) && c.tag == p.target && !Resolves(c, p.target, p.newImage.digest)))
  }

  /** A refused call, a changed service, a tag that reads wrong, or a rollout that went wrong. */
  ghost predicate StopsRelease(p: Plan, t: Trace) {
    && |t| > 0
    && var c := t[|t| - 1];
       || Refuses(c)
       || (c.DescribeService? && forall s :: Shows(c, s) ==> !Configured(p, s))
       || (|t| > 1 && Misread(p, t[|t| - 2], c))
       || LaunchStopped(p, t)
  }

  /** At no call of the history did the release have to stop. */
  ghost predicate Smooth(p: Plan, t: Trace) {
    forall k :: 0 < k <= |t| ==> !StopsRelease(p, t[..k])
  }

  ghost predicate LaunchStopped(p: Plan, t: Trace) {
    exists j, id :: 0 <= j < |t| && t[j] == StartRollout(Some(id))
      && StopsWait(p, id, Text(p.revision), p.newImage.digest, t)
  }

  predicate IsFailureReceipt(c: Call) {
    c.Save? && c.file == "failure.json"
  }

  /**
   The release was cut short after t: at a call that must stop it, or, when it is late, while its
   rollout was still going on. What follows, if anything, begins with the failure receipt.
   */
  ghost predicate CutShort(p: Plan, t: Trace, u: Trace, late: bool) {
    exists k :: |t| < k <= |u| && (k == |u| || IsFailureReceipt(u[k])) && StopsBy(p, t, u[..k], late)
  }

  ghost predicate StopsBy(p: Plan, t: Trace, u: Trace, late: bool) {
    StopsRelease(p, u) || (late && InVain(p, t, u))
  }

  // ---------------------------------------------------------------- the rollback

  /** The service is not, or no longer, known to run what this release left. */
  ghost predicate StopsLook(p: Plan, id: Option<string>, c: Call) {
    c.DescribeService? && forall s :: Shows(c, s) && Configured(p, s) ==>
      id.Some? && id.value != "" && (Primaries(s) == [] || Primaries(s)[0].id != id.value)
  }

  /** The rollback stops before its own rollout. */
  ghost predicate StopsRollback(p: Plan, id: Option<string>, t: Trace) {
    && |t| > 0
    && var c := t[|t| - 1];
       || Refuses(c)
       || StopsLook(p, id, c)
       || (|t| > 1 && t[|t| - 2].DescribeService? && c.ReadImages? && !Resolves(c, p.target, p.newImage.digest))
       || (c.StartRollout? && p.baseline.revision.Missing?)
  }

  ghost predicate AgainStopped(p: Plan, t: Trace, u: Trace) {
    exists m :: |t| <= m < |u| && u[m].StartRollout? && u[m].id.Some?
      && StopsWait(p, u[m].id.value, p.baseline.revision, p.oldImage.digest, u)
  }

  /** The last call says why the rollback, begun at t, was not carried through; or it was late. */
  ghost predicate RollbackStopped(p: Plan, id: Option<string>, t: Trace, u: Trace, late: bool) {
    |u| > |t| && (StopsRollback(p, id, u) || AgainStopped(p, t, u) || (late && InVain(p, t, u)))
  }

  /** A rollback was begun after t, with its failure receipt, and stopped for a cause. */
  ghost predicate GaveUpForCause(p: Plan, t: Trace, u: Trace, late: bool) {
    exists id, k: nat :: |t| <= k < |u| && IsFailureReceipt(u[k]) && RollbackStopped(p, id, u[..k], u, late)
  }
}
