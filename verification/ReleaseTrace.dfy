/**
 What a release does to the cloud, as a history of calls. A reply is arbitrary: any call may
 fail, and between two calls another actor may have changed anything. `Honest` says which
 calls may follow which history; the release script is proved to make no others.
 */
module ReleaseTrace {
  import opened Prelude

  type Digest = string
  type Tag = string

  /** An image; `platforms` are the manifests its index lists, None when the manifest cannot be parsed. */
  datatype Image = Image(digest: Digest, platforms: Option<set<Digest>>)
  datatype Images = Images(failures: bool, images: seq<Image>)
  datatype Deployment = Deployment(id: string, primary: bool, rollout: string)
  datatype Service = Service(
    definition: string, desired: int, running: int, pending: int, deployments: seq<Deployment>)
  datatype Services = Services(failures: bool, services: seq<Service>)
  /** A member of a JSON object: absent, null, or a text. */
  datatype Field = Missing | Null | Text(text: string)
  datatype Health = Health(ok: bool, revision: Field, connectorVersion: Field)
  datatype Task = Task(digests: seq<Option<Digest>>)
  datatype Tasks = Tasks(failures: bool, tasks: seq<Task>)
  datatype Container = Container(name: string, image: string)
  datatype Repository = Repository(uri: string, mutability: string)

  datatype Call =
    | DescribeService(services: Option<Services>)
    | DescribeDefinition(definition: string, containers: Option<seq<Container>>)
    | DescribeRepository(repository: Option<Repository>)
    | ReadImages(tag: Tag, reply: Option<Images>)
    | PutImage(tag: Tag, image: Image, done: bool)
    | StartRollout(id: Option<string>)
    | FetchHealth(url: string, health: Option<Health>)
    | ListTasks(listed: bool)
    | DescribeTasks(tasks: Option<Tasks>)
    | Save(file: string, saved: bool)
    | Print(printed: bool)
    | Paused                      // time.sleep between two looks

  type Trace = seq<Call>

  datatype Plan = Plan(
    source: Tag, target: Tag, rollback: Tag, definition: string, desired: int,
    oldImage: Image, newImage: Image, baseline: Health, revision: string, healthUrls: seq<string>)

  /** dict.get: an absent member reads as null. */
  function Get(f: Field): Field {
    if f.Missing? then Null else f
  }

  // ---------------------------------------------------------------- what a call shows

  predicate ReadsAs(c: Call, tag: Tag, digest: Digest) {
    c.ReadImages? && c.tag == tag && c.reply.Some? && |c.reply.value.images| > 0
    && c.reply.value.images[0].digest == digest
  }

  /** The tag was resolved to exactly one image, with this digest. */
  predicate Resolves(c: Call, tag: Tag, digest: Digest) {
    ReadsAs(c, tag, digest) && !c.reply.value.failures && |c.reply.value.images| == 1
  }

  predicate Shows(c: Call, s: Service) {
    c.DescribeService? && c.services.Some? && !c.services.value.failures && c.services.value.services == [s]
  }

  function Primaries(s: Service): seq<Deployment> {
    PrimariesOf(s.deployments)
  }

  function PrimariesOf(ds: seq<Deployment>): seq<Deployment> {
    if ds == [] then []
    else (if ds[0].primary then [ds[0]] else []) + PrimariesOf(ds[1..])
  }

  predicate Configured(p: Plan, s: Service) {
    s.definition == p.definition && s.desired == p.desired
  }

  predicate Settled(s: Service) {
    |s.deployments| == 1 && s.deployments[0].rollout == "COMPLETED" && s.running == s.desired && s.pending == 0
  }

  predicate Healthy(c: Call, url: string, revision: Field) {
    c.FetchHealth? && c.url == url && c.health.Some? && c.health.value.ok
    && Get(c.health.value.revision) == revision
  }

  /** The digests a running container of this release may have. */
  function ReleaseSet(p: Plan, digest: Digest): set<Digest> {
    var image := if digest == p.newImage.digest then p.newImage else p.oldImage;
    {digest} + (if image.platforms.Some? then image.platforms.value else {})
  }

  predicate RunsOnly(c: Call, desired: int, digests: set<Digest>) {
    c.DescribeTasks? && c.tasks.Some? && !c.tasks.value.failures && |c.tasks.value.tasks| == desired
    && forall i, j :: 0 <= i < |c.tasks.value.tasks| && 0 <= j < |c.tasks.value.tasks[i].digests| ==>
         AmongDigests(c.tasks.value.tasks[i].digests[j], digests)
  }

  predicate AmongDigests(d: Option<Digest>, digests: set<Digest>) {
    d.Some? && d.value in digests
  }

  predicate Mutates(c: Call) {
    c.PutImage? || c.StartRollout?
  }

  /** Calls that need no permission from the history. */
  predicate Plain(c: Call) {
    !Mutates(c) && !(c.Save? && c.file in {"success.json", "rollback.json"})
  }

  predicate Quiet(t: Trace, from: nat) {
    forall k :: from <= k < |t| ==> !Mutates(t[k])
  }

  // ---------------------------------------------------------------- what may follow what

  /** The rollback tag was read back holding the old image. */
  ghost predicate Secured(p: Plan, t: Trace) {
    exists i :: 0 <= i < |t| && Resolves(t[i], p.rollback, p.oldImage.digest)
  }

  /** The deployment tag was read back as `digest` and nothing has been changed since. */
  ghost predicate Deployable(p: Plan, t: Trace, digest: Digest) {
    exists i :: 0 <= i < |t| && Resolves(t[i], p.target, digest) && Quiet(t, i)
  }

  /** The service still has its configuration, and a rollout we started is its primary deployment. */
  ghost predicate StillOurs(p: Plan, t: Trace, j: nat, s: Service) {
    j < |t| && Shows(t[j], s) && Configured(p, s)
    && forall m :: 0 <= m < j && Started(t[m]) ==>
         Primaries(s) != [] && Primaries(s)[0].id == t[m].id.value
  }

  predicate Started(c: Call) {
    c.StartRollout? && c.id.Some? && c.id.value != ""
  }

  ghost predicate MayRollBack(p: Plan, t: Trace) {
    exists j, i, s :: 0 <= j < i < |t| && StillOurs(p, t, j, s) && Resolves(t[i], p.target, p.newImage.digest) && Quiet(t, j)
  }

  /** The old image was put back under the deployment tag, or found there, and nothing changed since. */
  ghost predicate Restored(p: Plan, t: Trace) {
    exists j :: 0 <= j < |t| && Placed(t[j], p.target, p.oldImage) && Quiet(t, j + 1)
  }

  predicate Placed(c: Call, tag: Tag, image: Image) {
    c == PutImage(tag, image, true) || ReadsAs(c, tag, image.digest)
  }

  /** The rollout at r settled, then every endpoint answered with the revision, then the tasks matched. */
  ghost predicate VerifiedAt(p: Plan, t: Trace, r: nat, s: nat, e: nat, sv: Service, revision: Field, digest: Digest) {
    r < s < e < |t| && t[r].StartRollout? && t[r].id.Some? && Quiet(t, r + 1)
    && Shows(t[s], sv) && Configured(p, sv) && Settled(sv) && Primaries(sv) != []
    && Primaries(sv)[0].id == t[r].id.value
    && (forall u :: 0 <= u < |p.healthUrls| ==> HealthySeen(t, s, e, p.healthUrls[u], revision))
    && RunsOnly(t[e], p.desired, ReleaseSet(p, digest))
  }

  ghost predicate HealthySeen(t: Trace, s: int, e: int, url: string, revision: Field)
    requires -1 <= s && e <= |t|
  {
    exists h :: s < h < e && Healthy(t[h], url, revision)
  }

  ghost predicate Verified(p: Plan, t: Trace, r: nat, revision: Field, digest: Digest) {
    exists s, e, sv :: VerifiedAt(p, t, r, s, e, sv, revision, digest)
  }

  ghost predicate SuccessEarned(p: Plan, t: Trace) {
    exists r :: 0 <= r < |t| && Deployable(p, t[..r], p.newImage.digest)
      && Verified(p, t, r, Text(p.revision), p.newImage.digest)
  }

  ghost predicate RollbackEarned(p: Plan, t: Trace) {
    exists r :: 0 <= r < |t| && Restored(p, t[..r])
      && Verified(p, t, r, Get(p.baseline.revision), p.oldImage.digest)
  }

  ghost predicate CallAllowed(p: Plan, past: Trace, c: Call) {
    match c
    case PutImage(tag, image, _) =>
      || (tag == p.rollback && image == p.oldImage && Deployable(p, past, p.oldImage.digest))
      || (tag == p.target && Secured(p, past)
          && (|| (image == p.newImage && forall k :: 0 <= k < |past| ==> !past[k].StartRollout?)
              || (image == p.oldImage && MayRollBack(p, past))))
    case StartRollout(_) =>
      Secured(p, past)
      && (|| (Deployable(p, past, p.newImage.digest) && forall k :: 0 <= k < |past| ==> !past[k].StartRollout?)
          || (Restored(p, past)
              && forall a, b :: 0 <= a < b < |past| ==> !(past[a].StartRollout? && past[b].StartRollout?)))
    case Save(file, _) =>
      && (file == "success.json" ==> SuccessEarned(p, past))
      && (file == "rollback.json" ==> RollbackEarned(p, past))
    case _ => true
  }

  ghost predicate Honest(p: Plan, t: Trace) {
    forall k {:trigger CallAllowed(p, t[..k], t[k])} :: 0 <= k < |t| ==> CallAllowed(p, t[..k], t[k])
  }

  lemma HonestAppend(p: Plan, t: Trace, c: Call)
    requires Honest(p, t) && CallAllowed(p, t, c)
    ensures Honest(p, t + [c])
  {
    var u := t + [c];
    forall k | 0 <= k < |u| ensures CallAllowed(p, u[..k], u[k]) {
      assert u[..k] == t[..k];
      assert t[..|t|] == t;
    }
  }

  /** Any stretch of plain calls keeps a history honest. */
  lemma {:induction false} PlainKeepsHonest(p: Plan, t: Trace, u: Trace)
    requires Honest(p, t) && t <= u
    requires forall k :: |t| <= k < |u| ==> Plain(u[k])
    ensures Honest(p, u)
  {
    forall k | 0 <= k < |u| ensures CallAllowed(p, u[..k], u[k]) {
      if k < |t| {
        assert u[..k] == t[..k];
      } else {
        assert Plain(u[k]);
      }
    }
  }

  lemma QuietKeeps(t: Trace, u: Trace, from: nat)
    requires t <= u && from <= |t| && Quiet(t, from) && Quiet(u, |t|)
    ensures Quiet(u, from)
  {
    forall k | from <= k < |u| ensures !Mutates(u[k]) {
      if k < |t| { assert u[k] == t[k]; }
    }
  }

  lemma SecuredKeeps(p: Plan, t: Trace, u: Trace)
    requires Secured(p, t) && t <= u
    ensures Secured(p, u)
  {
    var i :| 0 <= i < |t| && Resolves(t[i], p.rollback, p.oldImage.digest);
    assert u[i] == t[i];
  }

  lemma DeployableKeeps(p: Plan, t: Trace, u: Trace, digest: Digest)
    requires Deployable(p, t, digest) && t <= u && Quiet(u, |t|)
    ensures Deployable(p, u, digest)
  {
    var i :| 0 <= i < |t| && Resolves(t[i], p.target, digest) && Quiet(t, i);
    assert u[i] == t[i];
    QuietKeeps(t, u, i);
  }

  lemma MayRollBackKeeps(p: Plan, t: Trace, u: Trace)
    requires MayRollBack(p, t) && t <= u && Quiet(u, |t|)
    ensures MayRollBack(p, u)
  {
    var j, i, s :| 0 <= j < i < |t| && StillOurs(p, t, j, s) && Resolves(t[i], p.target, p.newImage.digest) && Quiet(t, j);
    assert u[i] == t[i] && u[j] == t[j];
    QuietKeeps(t, u, j);
    assert StillOurs(p, u, j, s);
  }

  // ---------------------------------------------------------------- alone in the cloud

  type Tags = map<Tag, Digest>

  /** One call when no other actor moves tags; a put that failed may still have taken effect. */
  ghost predicate Moves(w: Tags, c: Call, u: Tags) {
    match c
    case PutImage(tag, image, done) => u == w[tag := image.digest] || (!done && u == w)
    case ReadImages(tag, reply) =>
      u == w && (reply.Some? && |reply.value.images| > 0 ==> Holds(w, tag, reply.value.images[0].digest))
    case _ => u == w
  }

  predicate Holds(w: Tags, tag: Tag, digest: Digest) {
    tag in w && w[tag] == digest
  }

  /** w[k] is what the tags hold before call k. */
  ghost predicate Alone(t: Trace, w: seq<Tags>) {
    |w| == |t| + 1 && forall k :: 0 <= k < |t| ==> Moves(w[k], t[k], w[k + 1])
  }

  lemma {:induction false} CalmKeepsTags(t: Trace, w: seq<Tags>, i: nat, j: nat)
    requires Alone(t, w) && i <= j <= |t|
    requires forall k :: i <= k < j ==> !t[k].PutImage?
    ensures w[i] == w[j]
    decreases j - i
  {
    if i < j {
      CalmKeepsTags(t, w, i, j - 1);
      assert Moves(w[j - 1], t[j - 1], w[j]);
    }
  }

  /** The old image is never lost: at every point the deployment tag or the rollback tag holds it. */
  lemma {:induction false} OldImageKept(p: Plan, t: Trace, w: seq<Tags>, k: nat)
    requires Honest(p, t) && Alone(t, w) && p.rollback != p.target && k <= |t|
    requires Holds(w[0], p.target, p.oldImage.digest)
    ensures Holds(w[k], p.target, p.oldImage.digest) || Holds(w[k], p.rollback, p.oldImage.digest)
    ensures Secured(p, t[..k]) ==> Holds(w[k], p.rollback, p.oldImage.digest)
  {
    if k == 0 { return; }
    OldImageKept(p, t, w, k - 1);
    var c := t[k - 1];
    assert CallAllowed(p, t[..k - 1], c) && Moves(w[k - 1], c, w[k]);
    assert Secured(p, t[..k]) ==> Secured(p, t[..k - 1]) || Resolves(c, p.rollback, p.oldImage.digest);
  }

  /** Alone in the cloud, a success receipt means that the deployment tag holds the new image. */
  lemma SuccessHoldsNew(p: Plan, t: Trace, w: seq<Tags>, k: nat)
    requires Honest(p, t) && Alone(t, w) && k < |t|
    requires t[k].Save? && t[k].file == "success.json"
    ensures Holds(w[k], p.target, p.newImage.digest)
  {
    assert SuccessEarned(p, t[..k]) by { assert CallAllowed(p, t[..k], t[k]); }
    EarnedSuccessHolds(p, t, w, k);
  }

  lemma EarnedSuccessHolds(p: Plan, t: Trace, w: seq<Tags>, k: nat)
    requires Alone(t, w) && k < |t| && SuccessEarned(p, t[..k])
    ensures Holds(w[k], p.target, p.newImage.digest)
  {
    var r :| 0 <= r < k && Deployable(p, t[..k][..r], p.newImage.digest)
      && Verified(p, t[..k], r, Text(p.revision), p.newImage.digest);
    assert t[..k][..r] == t[..r];
    VerifiedIsCalm(p, t, r, k, Text(p.revision), p.newImage.digest);
    DeployableHolds(p, t, w, r, p.newImage.digest);
    CalmKeepsTags(t, w, r, k);
  }

  /** Alone in the cloud, a rollback receipt means that the deployment tag holds the old image again. */
  lemma RollbackHoldsOld(p: Plan, t: Trace, w: seq<Tags>, k: nat)
    requires Honest(p, t) && Alone(t, w) && k < |t|
    requires t[k].Save? && t[k].file == "rollback.json"
    ensures Holds(w[k], p.target, p.oldImage.digest)
  {
    assert RollbackEarned(p, t[..k]) by { assert CallAllowed(p, t[..k], t[k]); }
    EarnedRollbackHolds(p, t, w, k);
  }

  lemma EarnedRollbackHolds(p: Plan, t: Trace, w: seq<Tags>, k: nat)
    requires Alone(t, w) && k < |t| && RollbackEarned(p, t[..k])
    ensures Holds(w[k], p.target, p.oldImage.digest)
  {
    var r :| 0 <= r < k && Restored(p, t[..k][..r])
      && Verified(p, t[..k], r, Get(p.baseline.revision), p.oldImage.digest);
    assert t[..k][..r] == t[..r];
    VerifiedIsCalm(p, t, r, k, Get(p.baseline.revision), p.oldImage.digest);
    RestoredHolds(p, t, w, r);
    CalmKeepsTags(t, w, r, k);
  }

  lemma VerifiedIsCalm(p: Plan, t: Trace, r: nat, k: nat, revision: Field, digest: Digest)
    requires r < k <= |t| && Verified(p, t[..k], r, revision, digest)
    ensures forall m :: r <= m < k ==> !t[m].PutImage?
  {
    var u := t[..k];
    var s, e, sv :| VerifiedAt(p, u, r, s, e, sv, revision, digest);
    assert Quiet(u, r + 1) && u[r].StartRollout?;
    forall m | r <= m < k ensures !t[m].PutImage? {
      assert u[m] == t[m];
      assert m == r || !Mutates(u[m]);
    }
  }

  lemma DeployableHolds(p: Plan, t: Trace, w: seq<Tags>, r: nat, digest: Digest)
    requires Alone(t, w) && r <= |t| && Deployable(p, t[..r], digest)
    ensures Holds(w[r], p.target, digest)
  {
    var i :| 0 <= i < r && Resolves(t[..r][i], p.target, digest) && Quiet(t[..r], i);
    assert Moves(w[i], t[i], w[i + 1]);
    CalmPrefix(t, r, i);
    CalmKeepsTags(t, w, i, r);
  }

  lemma RestoredHolds(p: Plan, t: Trace, w: seq<Tags>, r: nat)
    requires Alone(t, w) && r <= |t| && Restored(p, t[..r])
    ensures Holds(w[r], p.target, p.oldImage.digest)
  {
    var j :| 0 <= j < r && Placed(t[..r][j], p.target, p.oldImage) && Quiet(t[..r], j + 1);
    assert Moves(w[j], t[j], w[j + 1]);
    CalmPrefix(t, r, j + 1);
    CalmKeepsTags(t, w, j + 1, r);
  }

  lemma CalmPrefix(t: Trace, r: nat, i: nat)
    requires i <= r <= |t| && Quiet(t[..r], i)
    ensures forall m :: i <= m < r ==> !t[m].PutImage?
  {
    forall m | i <= m < r ensures !t[m].PutImage? {
      assert !Mutates(t[..r][m]);
    }
  }
}
