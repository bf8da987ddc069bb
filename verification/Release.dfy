/**
 The release script: preflight, safety copy, move of the deployment tag, rollout, and the
 rollback that any later error triggers. Every method is proved to extend the history of
 cloud calls only by calls which that history allows.
 */
module Release {
  import opened Prelude
  import opened ReleaseTrace
  import opened ReleaseCauses

  datatype Args = Args(sourceTag: Tag, expectedRevision: string, healthUrl: string, planOnly: bool)

  datatype Outcome =
    | Planned                       // --plan: the preflight passed
    | Released                      // the script returned
    | Refused(reason: string)       // an error before the deployment tag was touched
    | RolledBack(reason: string)    // an error, and the old image was restored and verified
    | Failed(reason: string)        // an error, and the rollback stopped too

  const PRODUCTION_HEALTH_URLS: seq<string> :=
    ["https://eng.xyznot.com/api/health", "https://eng.impo.ai/api/health"]

  const DEADLINE := 900
  const PAUSE := 15

  /** dict.fromkeys: each key at its first position. */
  function FromKeys(s: seq<string>): (r: seq<string>)
    ensures forall x :: x in r <==> x in s
    ensures forall i, j :: 0 <= i < j < |r| ==> r[i] != r[j]
    ensures s != [] ==> r != [] && r[0] == s[0]
  {
    if s == [] then []
    else
      var n := |s| - 1;
      var rest := FromKeys(s[..n]);
      assert s == s[..n] + [s[n]];
      if s[n] in rest then rest else rest + [s[n]]
  }

  /** The chosen endpoint first; either production endpoint brings in the other. */
  function HealthUrls(url: string): (r: seq<string>)
    ensures r != [] && r[0] == url
    ensures forall i, j :: 0 <= i < j < |r| ==> r[i] != r[j]
    ensures forall u :: u in r <==> u == url || (url in PRODUCTION_HEALTH_URLS && u in PRODUCTION_HEALTH_URLS)
  {
    FromKeys([url] + (if url in PRODUCTION_HEALTH_URLS then PRODUCTION_HEALTH_URLS else []))
  }

  /** What follows the last `c`. */
  function AfterLast(s: string, c: char): (r: string)
    ensures c !in r && |r| <= |s| && r == s[|s| - |r|..]
    ensures c in s ==> |r| < |s| && s[|s| - |r| - 1] == c
  {
    if s == "" || s[|s| - 1] == c then ""
    else AfterLast(s[..|s| - 1], c) + [s[|s| - 1]]
  }

  /** s[lo:hi], which tolerates short texts. */
  function Slice(s: string, lo: nat, hi: nat): string
    requires lo <= hi
  {
    s[if lo <= |s| then lo else |s|..if hi <= |s| then hi else |s|]
  }

  /** The deployment tag in an image reference, if it is one of this repository's mutable tags. */
  function TagOf(image: string, repository: Repository): (r: Result<Tag, string>)
    ensures r.Ok? ==> DeploysTag(image, repository, r.value)
    ensures r.Err? ==> forall tag :: !DeploysTag(image, repository, tag)
  {
    var prefix := repository.uri + ":";
    if !(prefix <= image) || '@' in image then
      Err("Existing definition must use this repository's deployment tag")
    else if repository.mutability != "MUTABLE" then
      Err("Existing deployment tag must already be mutable")
    else
      assert image[|prefix| - 1] == ':';
      Ok(AfterLast(image, ':'))
  }

  predicate ResolvesTo(c: Call, tag: Tag, image: Image) {
    c.ReadImages? && c.tag == tag && c.reply == Some(Images(false, [image]))
  }

  /** What a passed preflight has seen. */
  ghost predicate Preflighted(a: Args, p: Plan, t: Trace) {
    && p.source == a.sourceTag && p.revision == a.expectedRevision && p.healthUrls == HealthUrls(a.healthUrl)
    && p.target != p.source && p.baseline.ok
    && (exists s :: SawService(t, s) && Configured(p, s) && Settled(s) && s.desired >= 1)
    && SawTag(t, p.definition, p.target)
    && SawImage(t, p.target, p.oldImage) && SawImage(t, p.source, p.newImage)
    && (forall u :: 0 <= u < |p.healthUrls| ==>
          HealthySeen(t, -1, |t|, p.healthUrls[u], Get(p.baseline.revision)))
  }

  ghost predicate SawTag(t: Trace, definition: string, tag: Tag) {
    exists i, image, repository ::
      0 <= i < |t| && t[i] == DescribeDefinition(definition, Some([Container("controller", image)]))
      && DeploysTag(image, repository, tag)
  }

  ghost predicate SawService(t: Trace, s: Service) {
    exists i :: 0 <= i < |t| && Shows(t[i], s)
  }

  ghost predicate SawImage(t: Trace, tag: Tag, image: Image) {
    exists i :: 0 <= i < |t| && ResolvesTo(t[i], tag, image)
  }

  ghost predicate Surveyed(a: Args, t: Trace, before: Service, target: Tag, oldImage: Image, newImage: Image) {
    && target != a.sourceTag && Settled(before) && before.desired >= 1
    && SawService(t, before) && SawTag(t, before.definition, target)
    && SawImage(t, target, oldImage) && SawImage(t, a.sourceTag, newImage)
  }

  /** `t` grew into `u` by calls that change nothing and record no verdict. */
  ghost predicate GrewPlainly(t: Trace, u: Trace) {
    t <= u && forall k :: |t| <= k < |u| ==> Plain(u[k])
  }

  /** How often the service was described. */
  function Polls(t: Trace): nat {
    if t == [] then 0 else Polls(t[..|t| - 1]) + (if t[|t| - 1].DescribeService? then 1 else 0)
  }

  class Deployer {
    const args: Args
    /** Every call so far. */
    ghost var trace: Trace
    /** time.monotonic(), in seconds. */
    var clock: int

    constructor (args: Args, clock: int)
      ensures this.args == args && trace == []
    {
      this.args, this.clock, trace := args, clock, [];
    }

    // -------------------------------------------------------------- the outside world

    method Monotonic() returns (now: int)
      modifies this`clock
      ensures old(clock) <= now == clock
    {
      var passed: int := *;
      if passed > 0 { clock := clock + passed; }
      now := clock;
    }

    method Sleep()
      modifies this
      ensures clock >= old(clock) + PAUSE && trace == old(trace) + [Paused]
    {
      var late: int := *;
      trace := trace + [Paused];
      clock := clock + PAUSE + if late > 0 then late else 0;
    }

    method DescribeServices() returns (reply: Option<Services>)
      modifies this`trace
      ensures trace == old(trace) + [DescribeService(reply)]
    {
      reply := *;
      trace := trace + [DescribeService(reply)];
    }

    method DescribeTaskDefinition(definition: string) returns (reply: Option<seq<Container>>)
      modifies this`trace
      ensures trace == old(trace) + [DescribeDefinition(definition, reply)]
    {
      reply := *;
      trace := trace + [DescribeDefinition(definition, reply)];
    }

    method DescribeRepositories() returns (reply: Option<Repository>)
      modifies this`trace
      ensures trace == old(trace) + [DescribeRepository(reply)]
    {
      reply := *;
      trace := trace + [DescribeRepository(reply)];
    }

    method BatchGetImage(tag: Tag) returns (reply: Option<Images>)
      modifies this`trace
      ensures trace == old(trace) + [ReadImages(tag, reply)]
    {
      reply := *;
      trace := trace + [ReadImages(tag, reply)];
    }

    method PutManifest(tag: Tag, image: Image) returns (done: bool)
      modifies this`trace
      ensures trace == old(trace) + [PutImage(tag, image, done)]
    {
      done := *;
      trace := trace + [PutImage(tag, image, done)];
    }

    /** update-service --force-new-deployment; None when the call or its reply is unusable. */
    method Rollout() returns (id: Option<string>)
      modifies this`trace
      ensures trace == old(trace) + [StartRollout(id)]
    {
      id := *;
      trace := trace + [StartRollout(id)];
    }

    method OpenUrl(url: string) returns (reply: Option<Health>)
      modifies this`trace
      ensures trace == old(trace) + [FetchHealth(url, reply)]
    {
      reply := *;
      trace := trace + [FetchHealth(url, reply)];
    }

    method ListServiceTasks() returns (listed: bool)
      modifies this`trace
      ensures trace == old(trace) + [ListTasks(listed)]
    {
      listed := *;
      trace := trace + [ListTasks(listed)];
    }

    method DescribeServiceTasks() returns (reply: Option<Tasks>)
      modifies this`trace
      ensures trace == old(trace) + [DescribeTasks(reply)]
    {
      reply := *;
      trace := trace + [DescribeTasks(reply)];
    }

    method WriteReceipt(file: string) returns (r: Result<(), string>)
      modifies this`trace
      ensures trace == old(trace) + [Save(file, r.Ok?)]
    {
      var saved: bool := *;
      trace := trace + [Save(file, saved)];
      r := if saved then Ok(()) else Err("cannot write " + file);
    }

    method PrintLine() returns (r: Result<(), string>)
      modifies this`trace
      ensures trace == old(trace) + [Print(r.Ok?)]
    {
      var printed: bool := *;
      trace := trace + [Print(printed)];
      r := if printed then Ok(()) else Err("cannot print");
    }

    // -------------------------------------------------------------- helpers of the script

    method CurrentService() returns (r: Result<Service, string>)
      modifies this`trace
      ensures exists reply :: trace == old(trace) + [DescribeService(reply)]
      ensures r.Ok? ==> Shows(trace[|old(trace)|], r.value)
      ensures r.Err? ==> forall s :: !Shows(trace[|old(trace)|], s)
    {
      var reply := DescribeServices();
      if reply.None? { return Err("describe-services failed"); }
      if reply.value.failures || |reply.value.services| != 1 {
        return Err("Expected exactly one existing ECS service");
      }
      assert reply.value.services == [reply.value.services[0]];
      r := Ok(reply.value.services[0]);
    }

    method Manifest(tag: Tag) returns (r: Result<Image, string>)
      modifies this`trace
      ensures exists reply :: trace == old(trace) + [ReadImages(tag, reply)]
      ensures r.Ok? ==> ResolvesTo(trace[|old(trace)|], tag, r.value)
      ensures r.Err? ==> forall digest :: !Resolves(trace[|old(trace)|], tag, digest)
      ensures r.Err? ==>
                var reply := trace[|old(trace)|].reply; reply.None? || reply.value.failures || |reply.value.images| != 1
    {
      var reply := BatchGetImage(tag);
      if reply.None? || reply.value.failures || |reply.value.images| != 1 {
        return Err("Cannot resolve image tag " + tag);
      }
      assert reply.value.images == [reply.value.images[0]];
      r := Ok(reply.value.images[0]);
    }

    /** The tag resolves to the image with this digest, or the script stops. */
    method Confirm(tag: Tag, digest: Digest, complaint: string) returns (r: Result<(), string>)
      modifies this`trace
      ensures GrewByOneRead(old(trace), trace, tag)
      ensures r.Ok? <==> Resolves(trace[|old(trace)|], tag, digest)
    {
      var current :- Manifest(tag);
      r := if current.digest == digest then Ok(()) else Err(complaint);
    }

    /** Moves the tag unless it already reads as this image. */
    method Put(tag: Tag, image: Image) returns (r: Result<(), string>)
      modifies this`trace
      ensures PutTrace(old(trace), trace, tag, image)
      ensures r.Ok? <==> Placed(trace[|trace| - 1], tag, image)
      ensures r.Err? ==> var c := trace[|trace| - 1]; (c.ReadImages? && c.reply.None?) || (c.PutImage? && !c.done)
    {
      var reply := BatchGetImage(tag);
      ghost var read := ReadImages(tag, reply);
      assert trace == old(trace) + [read];
      if reply.None? { return Err("batch-get-image failed"); }
      if |reply.value.images| > 0 && reply.value.images[0].digest == image.digest { return Ok(()); }
      var done := PutManifest(tag, image);
      assert trace == old(trace) + [read, PutImage(tag, image, done)];
      r := if done then Ok(()) else Err("put-image failed");
    }

    method CheckHealth(urls: seq<string>) returns (r: Result<Health, string>)
      requires urls != []
      modifies this`trace
      ensures GrewPlainly(old(trace), trace)
      ensures Polls(trace) == Polls(old(trace))
      ensures r.Ok? ==> r.value.ok && forall u :: 0 <= u < |urls| ==>
                HealthySeen(trace, |old(trace)| - 1, |trace|, urls[u], Get(r.value.revision))
      ensures r.Ok? <==> AllAgree(old(trace), trace, urls)
      ensures r.Err? ==> |trace| > |old(trace)| && StopsHealth(urls, trace)
      ensures r.Ok? ==> trace[|old(trace)|] == FetchHealth(urls[0], Some(r.value))
    {
      ghost var start := trace;
      var endpoints :- FetchHealths(urls);
      var _ :- WriteReceipt("health-endpoints.json");
      assert trace[..|trace| - |urls| - 1] == start;
      var primary := endpoints[0];
      for i := 0 to |urls|
        invariant forall k :: 0 <= k < i ==> Agrees(trace[|start| + k], trace[|start|], urls[k])
      {
        assert trace[|start| + i] == FetchHealth(urls[i], Some(endpoints[i]));
        if !endpoints[i].ok { return Err("Health check failed"); }
        if Get(endpoints[i].revision) != Get(primary.revision)
           || Get(endpoints[i].connectorVersion) != Get(primary.connectorVersion) {
          return Err("Production domain versions differ");
        }
      }
      AgreeingHealthy(start, trace, urls, primary);
      r := Ok(primary);
    }

    method FetchHealths(urls: seq<string>) returns (r: Result<seq<Health>, string>)
      modifies this`trace
      ensures GrewPlainly(old(trace), trace)
      ensures Polls(trace) == Polls(old(trace))
      ensures r.Ok? ==> |r.value| == |urls| && |trace| == |old(trace)| + |urls|
      ensures r.Ok? ==> forall k :: 0 <= k < |urls| ==> trace[|old(trace)| + k] == FetchHealth(urls[k], Some(r.value[k]))
      ensures r.Err? ==> old(trace) < trace && trace[|trace| - 1].FetchHealth? && trace[|trace| - 1].health.None?
    {
      var endpoints := [];
      ghost var start := trace;
      while |endpoints| < |urls|
        invariant |endpoints| <= |urls| && GrewPlainly(start, trace) && |trace| == |start| + |endpoints|
        invariant Polls(trace) == Polls(start)
        invariant forall k :: 0 <= k < |endpoints| ==> trace[|start| + k] == FetchHealth(urls[k], Some(endpoints[k]))
      {
        var reply := OpenUrl(urls[|endpoints|]);
        if reply.None? { return Err("health endpoint unreachable"); }
        endpoints := endpoints + [reply.value];
      }
      r := Ok(endpoints);
    }

    method Unchanged(p: Plan) returns (r: Result<Service, string>)
      modifies this`trace
      ensures exists reply :: trace == old(trace) + [DescribeService(reply)]
      ensures r.Ok? ==> Shows(trace[|old(trace)|], r.value) && Configured(p, r.value)
      ensures r.Err? ==> forall s :: Shows(trace[|old(trace)|], s) ==> !Configured(p, s)
    {
      var current :- CurrentService();
      if current.definition != p.definition || current.desired != p.desired {
        return Err("Service configuration changed concurrently; stop and inspect");
      }
      r := Ok(current);
    }

    // -------------------------------------------------------------- preflight

    method StableService() returns (r: Result<Service, string>)
      modifies this`trace
      ensures exists reply :: trace == old(trace) + [DescribeService(reply)]
      ensures r.Ok? ==> Shows(trace[|old(trace)|], r.value) && Settled(r.value) && r.value.desired >= 1
      ensures r.Err? ==> StopsPreflight(args.sourceTag, HealthUrls(args.healthUrl), trace)
    {
      var before :- CurrentService();
      if !Settled(before) || before.desired < 1 { return Err("Service must be stable before deployment"); }
      r := Ok(before);
    }

    /** The tag that the task definition deploys. */
    method DeploymentTag(definition: string) returns (r: Result<Tag, string>)
      modifies this`trace
      ensures GrewPlainly(old(trace), trace)
      ensures r.Ok? ==> r.value != args.sourceTag && SawTag(trace, definition, r.value)
      ensures r.Err? ==> StopsPreflight(args.sourceTag, HealthUrls(args.healthUrl), trace)
    {
      hide DeploysTag, HealthUrls;
      var containers := DescribeTaskDefinition(definition);
      if containers.None? { return Err("describe-task-definition failed"); }
      if |containers.value| != 1 || containers.value[0].name != "controller" {
        return Err("Expected the single-container controller definition");
      }
      var repository := DescribeRepositories();
      if repository.None? { return Err("describe-repositories failed"); }
      var image := containers.value[0].image;
      assert containers.value == [Container("controller", image)];
      var target :- TagOf(image, repository.value);
      if target == args.sourceTag {
        OnlyTheSource(args.sourceTag, trace, repository.value, image);
        return Err("Source tag must be separate from deployment tag");
      }
      assert trace[|old(trace)|] == DescribeDefinition(definition, Some([Container("controller", image)]));
      r := Ok(target);
    }

    method RecordPlan() returns (r: Result<(), string>)
      modifies this`trace
      ensures GrewPlainly(old(trace), trace)
      ensures r.Err? ==> StopsPreflight(args.sourceTag, HealthUrls(args.healthUrl), trace)
    {
      var _ :- WriteReceipt("plan.json");
      var _ :- WriteReceipt("old-image.json");
      var _ :- WriteReceipt("new-image.json");
      r := PrintLine();
    }

    /** The service, its deployment tag, and the two images of the release. */
    method Survey() returns (r: Result<(Service, Tag, Image, Image), string>)
      modifies this`trace
      ensures GrewPlainly(old(trace), trace)
      ensures r.Ok? ==> Surveyed(args, trace, r.value.0, r.value.1, r.value.2, r.value.3)
      ensures r.Err? ==> StopsPreflight(args.sourceTag, HealthUrls(args.healthUrl), trace)
    {
      hide SawTag, Settled, Releasable, HealthUrls, EndsAgreed;
      ghost var first := trace;
      var before :- StableService();
      ghost var described := trace;
      var target :- DeploymentTag(before.definition);
      ghost var tagged := trace;
      GrewMore(first, described, tagged);
      var oldImage :- Manifest(target);
      assert ResolvesTo(trace[|tagged|], target, oldImage);
      assert GrewPlainly(tagged, trace);
      GrewMore(first, tagged, trace);
      ghost var resolved := trace;
      var newImage :- Manifest(args.sourceTag);
      GrewMore(first, resolved, trace);
      assert ResolvesTo(trace[|resolved|], args.sourceTag, newImage);
      assert trace[|first|] == described[|first|];
      SawTagKeeps(tagged, trace, before.definition, target);
      r := Ok((before, target, oldImage, newImage));
    }

    method Preflight(stamp: string) returns (r: Result<Plan, string>)
      modifies this`trace
      ensures GrewPlainly(old(trace), trace)
      ensures r.Ok? ==> Preflighted(args, r.value, trace)
      ensures r.Err? ==> StopsPreflight(args.sourceTag, HealthUrls(args.healthUrl), trace)
    {
      ghost var start := trace;
      var survey :- Survey();
      ghost var surveyed := trace;
      var (before, target, oldImage, newImage) := survey;
      var urls := HealthUrls(args.healthUrl);
      var baseline :- CheckHealth(urls);
      ghost var checked := trace;
      GrewMore(start, surveyed, checked);
      var p := Plan(args.sourceTag, target, "rollback-" + stamp + "-" + Slice(oldImage.digest, 7, 19),
                    before.definition, before.desired, oldImage, newImage, baseline, args.expectedRevision, urls);
      var recorded := RecordPlan();
      GrewMore(start, checked, trace);
      if recorded.Err? { return Err(recorded.error); }
      ShowPreflighted(args, p, surveyed, checked, trace, before);
      r := Ok(p);
    }

    // -------------------------------------------------------------- waiting for a rollout

    /** Polls until the rollout at `from` has settled and everything about it checks out. */
    method Wait(p: Plan, id: string, revision: Field, digest: Digest, ghost from: nat) returns (r: Result<(), string>)
      requires p.healthUrls != []
      requires from < |trace| && trace[from] == StartRollout(Some(id)) && Quiet(trace, from + 1)
      modifies this
      ensures GrewPlainly(old(trace), trace)
      ensures r.Ok? ==> Verified(p, trace, from, revision, digest)
      ensures r.Err? ==> || StopsWait(p, id, revision, digest, trace)
                         || (clock >= old(clock) + DEADLINE && AllRolling(p, id, |old(trace)|, trace))
      ensures clock >= old(clock)
      ensures Polls(trace) <= Polls(old(trace)) + DEADLINE / PAUSE
    {
      hide Verified, StillRolling, StopsWait;
      ghost var start := trace;
      var begin := Monotonic();
      var deadline := begin + DEADLINE;
      var now := Monotonic();
      ghost var rounds := 0;
      while now < deadline
        invariant GrewPlainly(start, trace)
        invariant begin + PAUSE * rounds <= now == clock && 0 <= rounds <= DEADLINE / PAUSE
        invariant Polls(trace) <= Polls(start) + rounds
        invariant AllRolling(p, id, |start|, trace)
        decreases deadline - now
      {
        ghost var past := trace;
        var verdict :- Poll(p, id, revision, digest, from);
        GrewMore(start, past, trace);
        if verdict { return Ok(()); }
        StillAllRolling(p, id, |start|, past, trace);
        rounds := rounds + 1;
        ghost var looked := trace;
        Sleep();
        GrewMore(start, looked, trace);
        now := Monotonic();
      }
      r := Err("Timed out waiting for ECS rollout");
    }

    /** One look at the service: Ok(true) when the release is verified, Ok(false) when it is still rolling. */
    method Poll(p: Plan, id: string, revision: Field, digest: Digest, ghost from: nat) returns (r: Result<bool, string>)
      requires p.healthUrls != []
      requires from < |trace| && trace[from] == StartRollout(Some(id)) && Quiet(trace, from + 1)
      modifies this`trace
      ensures GrewPlainly(old(trace), trace) && Polls(trace) == Polls(old(trace)) + 1
      ensures r == Ok(true) ==> Verified(p, trace, from, revision, digest)
      ensures r == Ok(false) ==> |trace| == |old(trace)| + 2 && StillRolling(p, trace[|old(trace)|], id)
                                 && trace[|old(trace)|].DescribeService? && trace[|old(trace)| + 1].Print?
      ensures r.Err? ==> StopsWait(p, id, revision, digest, trace)
    {
      ghost var start := trace;
      var current :- Look(p, id, revision, digest);
      if !Settled(current) { return Ok(false); }
      ghost var looked := trace;
      var verdict := Inspect(p, revision, digest, id);
      GrewMore(start, looked, trace);
      if verdict.Err? { return Err(verdict.error); }
      ShowVerified(p, start, trace, from, |start|, current, revision, digest);
      r := Ok(true);
    }

    /** The service, if our rollout is primary in it and has not failed. */
    method Look(p: Plan, id: string, ghost revision: Field, ghost digest: Digest) returns (r: Result<Service, string>)
      modifies this`trace
      ensures GrewPlainly(old(trace), trace) && Polls(trace) == Polls(old(trace)) + 1
      ensures r.Ok? ==> |trace| == |old(trace)| + 2 && Shows(trace[|old(trace)|], r.value) && Configured(p, r.value)
      ensures r.Ok? ==> RunsOurs(r.value, id) && trace[|old(trace)| + 1].Print?
      ensures r.Err? ==> StopsWait(p, id, revision, digest, trace)
    {
      var current :- Unchanged(p);
      var primaries := Primaries(current);
      if |primaries| == 0 { return Err("no primary deployment"); }
      if primaries[0].id != id { return Err("A different deployment became primary"); }
      if primaries[0].rollout == "FAILED" { return Err("ECS deployment failed"); }
      var _ :- PrintLine();
      r := Ok(current);
    }

    /** Once the rollout has settled: every endpoint, then every running container. */
    method Inspect(p: Plan, revision: Field, digest: Digest, ghost id: string) returns (r: Result<(), string>)
      requires p.healthUrls != [] && |trace| > 0
      modifies this`trace
      ensures GrewPlainly(old(trace), trace)
      ensures Polls(trace) == Polls(old(trace))
      ensures r.Ok? ==> |trace| > |old(trace)| && RunsOnly(trace[|trace| - 1], p.desired, ReleaseSet(p, digest))
      ensures r.Ok? ==> forall u :: 0 <= u < |p.healthUrls| ==>
                HealthySeen(trace, |old(trace)| - 1, |trace| - 1, p.healthUrls[u], revision)
      ensures r.Err? ==> StopsWait(p, id, revision, digest, trace)
    {
      hide StopsHealth, EndsAgreed, RunsOnly;
      ghost var start := trace;
      var live :- CheckHealth(p.healthUrls);
      if !live.ok || Get(live.revision) != revision {
        WrongRevision(p, id, revision, digest, start, trace);
        return Err("Live revision does not match");
      }
      ghost var answered := trace;
      r := InspectTasks(p, revision, digest, id);
      GrewMore(start, answered, trace);
      if r.Ok? { EndpointsStillSeen(p, answered, |start| - 1, trace, |start| - 1, |trace| - 1, revision); }
    }

    /** Every running container of the service is of the release. */
    method InspectTasks(p: Plan, ghost revision: Field, digest: Digest, ghost id: string) returns (r: Result<(), string>)
      modifies this`trace
      ensures GrewPlainly(old(trace), trace) && Polls(trace) == Polls(old(trace)) && |trace| > |old(trace)|
      ensures r.Ok? ==> RunsOnly(trace[|trace| - 1], p.desired, ReleaseSet(p, digest))
      ensures r.Err? ==> StopsWait(p, id, revision, digest, trace)
    {
      var listed := ListServiceTasks();
      if !listed { return Err("list-tasks failed"); }
      var details := DescribeServiceTasks();
      if details.None? { return Err("describe-tasks failed"); }
      if details.value.failures || |details.value.tasks| != p.desired {
        return Err("Running task inventory is incomplete");
      }
      if ImageOf(p, digest).platforms.None? { return Err("manifest is not readable"); }
      if !RunsOnly(DescribeTasks(details), p.desired, ReleaseSet(p, digest)) {
        return Err("Running container digest differs from release");
      }
      r := Ok(());
    }

    // -------------------------------------------------------------- the release itself

    /** Copies the old image under the rollback tag, and reads the copy back. */
    method SecureRollback(p: Plan) returns (r: Result<(), string>)
      requires Honest(p, trace) && NoRollout(trace)
      modifies this`trace
      ensures Honest(p, trace) && NoRollout(trace) && TargetUntouched(p, old(trace), trace)
      ensures r.Ok? <==> EndsResolved(trace, p.rollback, p.oldImage.digest)
      ensures r.Err? ==> |trace| > |old(trace)| && StopsRelease(p, trace)
    {
      ghost var start := trace;
      r := CheckUntouched(p);
      PlainKeepsHonest(p, start, trace);
      PlainTouchesNothing(p, start, trace);
      if r.Ok? { r := CopyOld(p); }
    }

    method CopyOld(p: Plan) returns (r: Result<(), string>)
      requires Honest(p, trace) && NoRollout(trace) && Deployable(p, trace, p.oldImage.digest)
      modifies this`trace
      ensures Honest(p, trace) && NoRollout(trace) && TargetUntouched(p, old(trace), trace)
      ensures r.Ok? <==> EndsResolved(trace, p.rollback, p.oldImage.digest)
      ensures r.Err? ==> |trace| > |old(trace)| && StopsRelease(p, trace)
    {
      ghost var start := trace;
      r := Put(p.rollback, p.oldImage);
      PutKeepsHonest(p, start, trace, p.rollback, p.oldImage);
      if r.Err? { return; }
      ghost var put := trace;
      r := Confirm(p.rollback, p.oldImage.digest, "Rollback image verification failed");
      PlainKeepsHonest(p, put, trace);
      PlainTouchesNothing(p, put, trace);
      UntouchedMore(p, start, put, trace);
    }

    /** The service and the deployment tag are still as the preflight saw them. */
    method CheckUntouched(p: Plan) returns (r: Result<(), string>)
      modifies this`trace
      ensures GrewPlainly(old(trace), trace)
      ensures r.Ok? ==> Deployable(p, trace, p.oldImage.digest)
      ensures r.Ok? <==> EndsResolved(trace, p.target, p.oldImage.digest)
      ensures r.Err? ==> !EndsResolved(trace, p.rollback, p.oldImage.digest)
      ensures r.Err? ==> |trace| > |old(trace)| && StopsRelease(p, trace)
    {
      var _ :- Unchanged(p);
      r := Confirm(p.target, p.oldImage.digest, "Deployment tag changed concurrently");
      assert r.Ok? ==> Resolves(trace[|trace| - 1], p.target, p.oldImage.digest);
    }

    /** The body of the try: move the tag, roll out, verify, and write the receipt. */
    method Deploy(p: Plan) returns (r: Result<(), string>, id: Option<string>)
      requires p.healthUrls != [] && Honest(p, trace) && NoRollout(trace) && Secured(p, trace)
      modifies this
      ensures clock >= old(clock)
      ensures old(trace) <= trace && UnderWay(p, trace, id)
      ensures r.Ok? ==> EndsWith(trace, [Save("success.json", true), Print(true)])
      ensures r.Err? ==> |trace| > |old(trace)| && StopsBy(p, old(trace), trace, clock >= old(clock) + DEADLINE)
    {
      hide Honest, Secured, Deployable, InVain, StopsRelease;
      id := None;
      r := MoveTag(p);
      if r.Err? { return; }
      ghost var moved := trace;
      r, id := Launch(p);
      if r.Err? { return; }
      r := Await(p, id.value);
      if r.Err? { CauseEarlier(p, old(trace), moved, trace, clock >= old(clock) + DEADLINE, clock >= old(clock) + DEADLINE); }
    }

    /** From the start of the new rollout to the receipt. */
    method Await(p: Plan, id: string) returns (r: Result<(), string>)
      requires p.healthUrls != [] && UnderWay(p, trace, Some(id))
      requires |trace| > 0 && trace[|trace| - 1] == StartRollout(Some(id))
      requires Deployable(p, trace[..|trace| - 1], p.newImage.digest)
      modifies this
      ensures clock >= old(clock)
      ensures old(trace) <= trace && UnderWay(p, trace, Some(id))
      ensures r.Ok? ==> EndsWith(trace, [Save("success.json", true), Print(true)])
      ensures r.Err? ==> StopsBy(p, old(trace[..|trace| - 1]), trace, clock >= old(clock) + DEADLINE)
    {
      ghost var launched := trace;
      ghost var from := |trace| - 1;
      r := Follow(p, id, from);
      if r.Err? { return; }
      assert trace[..from] == launched[..from];
      r := Report(p, id, from);
    }

    method Launch(p: Plan) returns (r: Result<(), string>, id: Option<string>)
      requires Honest(p, trace) && NoRollout(trace) && Secured(p, trace) && Deployable(p, trace, p.newImage.digest)
      modifies this`trace
      ensures trace == old(trace) + [StartRollout(id)] && r.Ok? == id.Some?
      ensures UnderWay(p, trace, id) && Deployable(p, trace[..|trace| - 1], p.newImage.digest)
      ensures r.Err? ==> StopsRelease(p, trace)
    {
      ghost var moved := trace;
      id := Rollout();
      RolloutKeepsHonest(p, moved, id);
      SecuredKeeps(p, moved, trace);
      assert trace[..|trace| - 1] == moved;
      r := if id.None? then Err("update-service failed") else Ok(());
    }

    method MoveTag(p: Plan) returns (r: Result<(), string>)
      requires Honest(p, trace) && NoRollout(trace) && Secured(p, trace)
      modifies this`trace
      ensures old(trace) <= trace && Honest(p, trace) && NoRollout(trace) && Secured(p, trace)
      ensures r.Ok? ==> Deployable(p, trace, p.newImage.digest)
      ensures r.Ok? <==> EndsResolved(trace, p.target, p.newImage.digest)
      ensures r.Err? ==> |trace| > |old(trace)| && StopsRelease(p, trace)
    {
      hide Honest, Secured;
      ghost var start := trace;
      r := Put(p.target, p.newImage);
      PutKeepsHonest(p, start, trace, p.target, p.newImage);
      if r.Err? { return; }
      ghost var put := trace;
      r := Confirm(p.target, p.newImage.digest, "Deployment tag verification failed");
      PlainKeepsHonest(p, put, trace);
      PlainTouchesNothing(p, put, trace);
      SecuredKeeps(p, put, trace);
      assert r.Ok? ==> Resolves(trace[|trace| - 1], p.target, p.newImage.digest);
    }

    /** Notes the new rollout's id and waits for it. */
    method Follow(p: Plan, id: string, ghost from: nat) returns (r: Result<(), string>)
      requires p.healthUrls != [] && UnderWay(p, trace, Some(id))
      requires |trace| == from + 1 && trace[from] == StartRollout(Some(id))
      modifies this
      ensures clock >= old(clock)
      ensures old(trace) <= trace && UnderWay(p, trace, Some(id))
      ensures r.Ok? ==> Verified(p, trace, from, Text(p.revision), p.newImage.digest)
      ensures r.Err? ==> StopsBy(p, old(trace[..|trace| - 1]), trace, clock >= old(clock) + DEADLINE)
    {
      hide Honest, Secured, Verified;
      ghost var start := trace;
      r := WriteReceipt("deployment.json");
      ghost var noted := trace;
      if r.Ok? { r := Wait(p, id, Text(p.revision), p.newImage.digest, from); }
      GrewMore(start, noted, trace);
      PlainKeepsAll(p, start, trace, Some(id));
      assert trace[from] == StartRollout(Some(id));
      if r.Err? && noted != trace && !StopsRelease(p, trace) { RollingInVain(p, id, start, noted, trace); }
    }

    /** The receipt of a verified release. */
    method Report(p: Plan, id: string, ghost from: nat) returns (r: Result<(), string>)
      requires UnderWay(p, trace, Some(id)) && from < |trace|
      requires Deployable(p, trace[..from], p.newImage.digest)
      requires Verified(p, trace, from, Text(p.revision), p.newImage.digest)
      modifies this`trace
      ensures old(trace) <= trace && UnderWay(p, trace, Some(id))
      ensures r.Ok? ==> EndsWith(trace, [Save("success.json", true), Print(true)])
      ensures r.Err? ==> StopsRelease(p, trace)
    {
      ghost var start := trace;
      r := WriteReceipt("success.json");
      SuccessKeepsAll(p, start, from, id, r.Ok?);
      if r.Err? { return; }
      r := Announce(p, id);
    }

    method Announce(p: Plan, id: string) returns (r: Result<(), string>)
      requires UnderWay(p, trace, Some(id))
      modifies this`trace
      ensures trace == old(trace) + [Print(r.Ok?)] && UnderWay(p, trace, Some(id))
    {
      ghost var written := trace;
      r := PrintLine();
      PlainKeepsAll(p, written, trace, Some(id));
    }

    // -------------------------------------------------------------- the rollback

    /** The service and the tag are still as this release left them. */
    method CheckStillOurs(p: Plan, id: Option<string>) returns (r: Result<(), string>)
      requires StartedOnly(trace, id)
      modifies this`trace
      ensures GrewPlainly(old(trace), trace) && |trace| > |old(trace)| && IsFailureReceipt(trace[|old(trace)|])
      ensures r.Ok? ==> MayRollBack(p, trace)
      ensures r.Err? ==> StopsRollback(p, id, trace)
    {
      ghost var start := trace;
      r := WriteReceipt("failure.json");
      if r.Err? { return; }
      ghost var before := trace;
      PlainStartsNothing(start, before, id);
      r := CheckTagAndPrimary(p, id);
      GrewMore(start, before, trace);
    }

    method CheckTagAndPrimary(p: Plan, id: Option<string>) returns (r: Result<(), string>)
      requires StartedOnly(trace, id)
      modifies this`trace
      ensures GrewPlainly(old(trace), trace) && |trace| > |old(trace)|
      ensures r.Ok? ==> MayRollBack(p, trace)
      ensures r.Err? ==> StopsRollback(p, id, trace)
    {
      ghost var before := trace;
      r := CheckPrimary(p, id);
      if r.Err? { return; }
      ghost var looked := trace;
      r := Confirm(p.target, p.newImage.digest, "Deployment tag changed; refusing to overwrite concurrent work");
      GrewMore(before, looked, trace);
      if r.Ok? { OursAtLook(p, before, looked, trace, id); }
    }

    /** Unless no rollout started, the primary deployment has to be ours. */
    method CheckPrimary(p: Plan, id: Option<string>) returns (r: Result<(), string>)
      modifies this`trace
      ensures GrewPlainly(old(trace), trace) && |trace| == |old(trace)| + 1 && trace[|old(trace)|].DescribeService?
      ensures r.Ok? ==> LookedOurs(p, old(trace), trace, id)
      ensures r.Err? ==> StopsLook(p, id, trace[|trace| - 1])
    {
      var current :- Unchanged(p);
      if id.Some? && id.value != "" {
        var primaries := Primaries(current);
        if primaries == [] { return Err("no primary deployment"); }
        if primaries[0].id != id.value { return Err("A different deployment became primary; inspect before rollback"); }
      }
      r := Ok(());
    }

    method PutBack(p: Plan) returns (r: Result<(), string>)
      requires Honest(p, trace) && Secured(p, trace) && MayRollBack(p, trace) && AtMostOneRollout(trace)
      modifies this`trace
      ensures old(trace) <= trace && |trace| > |old(trace)|
      ensures Honest(p, trace) && Secured(p, trace) && AtMostOneRollout(trace)
      ensures r.Ok? <==> |trace| > 0 && Placed(trace[|trace| - 1], p.target, p.oldImage)
      ensures r.Err? ==> StopsRollback(p, None, trace)
    {
      ghost var start := trace;
      r := Put(p.target, p.oldImage);
      PutBackKeeps(p, start, trace);
    }

    /** The except branch. Ok means that the old revision is verified to be live again. */
    method RollBack(p: Plan, id: Option<string>) returns (r: Result<(), string>)
      requires p.healthUrls != [] && UnderWay(p, trace, id)
      modifies this
      ensures clock >= old(clock)
      ensures old(trace) <= trace && Honest(p, trace)
      ensures r.Ok? ==> EndsWith(trace, [Save("rollback.json", true)])
      ensures |trace| > |old(trace)| && IsFailureReceipt(trace[|old(trace)|])
      ensures r.Err? ==> RollbackStopped(p, id, old(trace), trace, clock >= old(clock) + DEADLINE)
    {
      ghost var start := trace;
      r := CheckStillOurs(p, id);
      PlainKeepsAll(p, start, trace, id);
      if r.Err? { return; }
      ghost var ours := trace;
      r := Restore(p);
      if r.Err? { StoppedEarlier(p, id, start, ours, trace, clock >= old(clock) + DEADLINE); }
    }

    /** Puts the old image back and rolls out again. */
    method Restore(p: Plan) returns (r: Result<(), string>)
      requires p.healthUrls != [] && Honest(p, trace) && Secured(p, trace) && MayRollBack(p, trace) && AtMostOneRollout(trace)
      modifies this
      ensures clock >= old(clock)
      ensures old(trace) <= trace && Honest(p, trace)
      ensures r.Ok? ==> EndsWith(trace, [Save("rollback.json", true)])
      ensures r.Err? ==> RollbackStopped(p, None, old(trace), trace, clock >= old(clock) + DEADLINE)
    {
      ghost var start := trace;
      r := PutBack(p);
      if r.Err? { return; }
      PlacedIsRestored(p, trace);
      ghost var restored := trace;
      r := Relaunch(p);
      if r.Err? { StoppedEarlier(p, None, start, restored, trace, clock >= old(clock) + DEADLINE); }
    }

    /** Rolls the service out again on the old image. */
    method Relaunch(p: Plan) returns (r: Result<(), string>)
      requires p.healthUrls != [] && Honest(p, trace) && Secured(p, trace)
      requires AtMostOneRollout(trace) && Restored(p, trace)
      modifies this
      ensures clock >= old(clock)
      ensures old(trace) <= trace && Honest(p, trace)
      ensures r.Ok? ==> EndsWith(trace, [Save("rollback.json", true)])
      ensures r.Err? ==> RollbackStopped(p, None, old(trace), trace, clock >= old(clock) + DEADLINE)
    {
      ghost var restored := trace;
      var again := Rollout();
      HonestAppend(p, restored, StartRollout(again));
      assert trace[..|restored|] == restored;
      if again.None? { return Err("update-service failed"); }
      if p.baseline.revision.Missing? { return Err("KeyError: 'revision'"); }
      r := Return(p, again.value, |restored|);
    }

    /** After the rollback's rollout has started. */
    method Return(p: Plan, id: string, ghost from: nat) returns (r: Result<(), string>)
      requires p.healthUrls != [] && !p.baseline.revision.Missing? && Honest(p, trace)
      requires |trace| == from + 1 && trace[from] == StartRollout(Some(id)) && Restored(p, trace[..from])
      modifies this
      ensures clock >= old(clock)
      ensures old(trace) <= trace && Honest(p, trace)
      ensures r.Ok? ==> EndsWith(trace, [Save("rollback.json", true)])
      ensures r.Err? ==> RollbackStopped(p, None, old(trace[..|trace| - 1]), trace, clock >= old(clock) + DEADLINE)
    {
      r := FollowBack(p, id, from);
      if r.Ok? { r := ReportRollback(p); }
    }

    /** Waits for the rollback's rollout. */
    method FollowBack(p: Plan, id: string, ghost from: nat) returns (r: Result<(), string>)
      requires p.healthUrls != [] && !p.baseline.revision.Missing? && Honest(p, trace)
      requires |trace| == from + 1 && trace[from] == StartRollout(Some(id)) && Restored(p, trace[..from])
      modifies this
      ensures clock >= old(clock)
      ensures old(trace) <= trace && Honest(p, trace)
      ensures r.Ok? ==> RollbackEarned(p, trace)
      ensures r.Err? ==> RollbackStopped(p, None, old(trace[..|trace| - 1]), trace, clock >= old(clock) + DEADLINE)
    {
      ghost var start := trace;
      r := Wait(p, id, p.baseline.revision, p.oldImage.digest, from);
      PlainKeepsHonest(p, start, trace);
      if r.Ok? { NowEarned(p, start, trace, from); }
      else {
        assert trace[from] == StartRollout(Some(id)) && start[..from] == old(trace[..|trace| - 1]);
        if !StopsWait(p, id, p.baseline.revision, p.oldImage.digest, trace) { RollingInVain(p, id, start, start, trace); }
      }
    }

    /** The receipt of a verified rollback. */
    method ReportRollback(p: Plan) returns (r: Result<(), string>)
      requires Honest(p, trace) && RollbackEarned(p, trace)
      modifies this`trace
      ensures trace == old(trace) + [Save("rollback.json", r.Ok?)] && Honest(p, trace)
      ensures r.Ok? ==> EndsWith(trace, [Save("rollback.json", true)])
      ensures r.Err? ==> StopsRollback(p, None, trace)
    {
      ghost var verified := trace;
      r := WriteReceipt("rollback.json");
      HonestAppend(p, verified, Save("rollback.json", r.Ok?));
    }

    // -------------------------------------------------------------- the script

    /**
     Returns normally only as Planned or Released. The calls made are always honest ones for
     the plan of the preflight; without a plan, or in plan mode, nothing was changed.
     */
    method Run(stamp: string) returns (outcome: Outcome, plan: Option<Plan>)
      requires trace == []
      modifies this
      ensures plan.Some? ==> Honest(plan.value, trace) && PassedPreflight(args, plan.value, trace)
      ensures plan.None? ==> outcome.Refused?
      ensures plan.None? || args.planOnly ==> Quiet(trace, 0)
      ensures plan.Some? ==> (outcome.Planned? <==> args.planOnly)
      ensures outcome.Refused? && plan.Some? ==> TargetUntouched(plan.value, [], trace)
      ensures outcome.Released? ==> EndsWith(trace, [Save("success.json", true), Print(true)])
      ensures outcome.RolledBack? ==> EndsWith(trace, [Save("rollback.json", true)])
      ensures plan.None? ==> StopsPreflight(args.sourceTag, HealthUrls(args.healthUrl), trace)
      ensures plan.Some? && !args.planOnly && !outcome.Released? ==>
                CutShort(plan.value, [], trace, clock >= old(clock) + DEADLINE)
      ensures plan.Some? && !args.planOnly && clock < old(clock) + DEADLINE && Smooth(plan.value, trace) ==> outcome.Released?
      ensures plan.Some? && outcome.Refused? ==> StopsRelease(plan.value, trace)
      ensures plan.Some? && outcome.Failed? ==>
                GaveUpForCause(plan.value, [], trace, clock >= old(clock) + DEADLINE)
    {
      hide Honest, StopsPreflight, StopsRelease;
      var checked := Preflight(stamp);
      if checked.Err? { return Refused(checked.error), None; }
      var p := checked.value;
      plan := Some(p);
      ghost var start := trace;
      PlainKeepsHonest(p, [], start);
      PlainTouchesNothing(p, [], start);
      assert trace[..|start|] == start;
      if args.planOnly { return Planned, Some(p); }
      outcome := Perform(p);
      assert trace[..|start|] == start;
      if outcome.Refused? { UntouchedMore(p, [], start, trace); }
    }

    /** Everything after the preflight. */
    method Perform(p: Plan) returns (outcome: Outcome)
      requires p.healthUrls != [] && Honest(p, trace) && NoRollout(trace)
      modifies this
      ensures clock >= old(clock)
      ensures old(trace) <= trace && Honest(p, trace) && !outcome.Planned?
      ensures outcome.Refused? ==> TargetUntouched(p, old(trace), trace)
      ensures outcome.Released? ==> EndsWith(trace, [Save("success.json", true), Print(true)])
      ensures outcome.RolledBack? ==> EndsWith(trace, [Save("rollback.json", true)])
      ensures !outcome.Released? ==> CutShort(p, old(trace), trace, clock >= old(clock) + DEADLINE)
      ensures outcome.Refused? ==> StopsRelease(p, trace)
      ensures outcome.Failed? ==> GaveUpForCause(p, old(trace), trace, clock >= old(clock) + DEADLINE)
    {
      ghost var start := trace;
      var secured := SecureRollback(p);
      if secured.Err? {
        assert trace[..|trace|] == trace;
        return Refused(secured.error);
      }
      assert Secured(p, trace);
      ghost var moving := trace;
      var deployed, id := Deploy(p);
      if deployed.Ok? { return Released; }
      ghost var failed := trace;
      ghost var late := clock >= old(clock) + DEADLINE;
      var undone := RollBack(p, id);
      Undoing(p, id, start, moving, failed, trace, late, clock >= old(clock) + DEADLINE, undone.Err?);
      outcome := if undone.Ok? then RolledBack(deployed.error) else Failed(undone.error);
    }
  }

  ghost predicate PassedPreflight(a: Args, p: Plan, t: Trace) {
    exists k: nat :: k <= |t| && Preflighted(a, p, t[..k]) && Quiet(t[..k], 0)
  }

  /** The history of a release whose tag may have moved, and whose rollout, if any, is `id`. */
  ghost predicate UnderWay(p: Plan, t: Trace, id: Option<string>) {
    Honest(p, t) && Secured(p, t) && AtMostOneRollout(t) && StartedOnly(t, id)
  }

  /** The last thing seen is that the tag holds this digest. */
  predicate EndsResolved(t: Trace, tag: Tag, digest: Digest) {
    |t| > 0 && Resolves(t[|t| - 1], tag, digest)
  }

  ghost predicate NoRollout(t: Trace) {
    forall k :: 0 <= k < |t| ==> !t[k].StartRollout?
  }

  ghost predicate AtMostOneRollout(t: Trace) {
    forall a, b :: 0 <= a < b < |t| ==> !(t[a].StartRollout? && t[b].StartRollout?)
  }

  /** Every rollout that gave an id gave this one. */
  ghost predicate StartedOnly(t: Trace, id: Option<string>) {
    forall k :: 0 <= k < |t| && Started(t[k]) ==> t[k].id == id
  }

  predicate EndsWith(t: Trace, u: Trace) {
    |u| <= |t| && t[|t| - |u|..] == u
  }

  lemma PlainAddsNoRollout(t: Trace, u: Trace, id: Option<string>)
    requires GrewPlainly(t, u) && AtMostOneRollout(t) && StartedOnly(t, id)
    ensures AtMostOneRollout(u) && StartedOnly(u, id)
  {
    forall k | 0 <= k < |u| ensures u[k].StartRollout? ==> k < |t| && u[k] == t[k] {
      if k < |t| { assert u[k] == t[k]; } else { assert Plain(u[k]); }
    }
  }

  lemma SaveAddsNoRollout(t: Trace, u: Trace, id: Option<string>)
    requires |u| == |t| + 1 && t <= u && u[|t|].Save? && AtMostOneRollout(t) && StartedOnly(t, id)
    ensures AtMostOneRollout(u) && StartedOnly(u, id)
  {
    assert forall k :: 0 <= k < |u| && u[k].StartRollout? ==> k < |t| && u[k] == t[k];
  }

  lemma PutAddsNoRollout(t: Trace, u: Trace, tag: Tag, image: Image)
    requires PutTrace(t, u, tag, image) && AtMostOneRollout(t)
    ensures AtMostOneRollout(u)
  {
    assert forall k :: 0 <= k < |u| && u[k].StartRollout? ==> k < |t| && u[k] == t[k];
  }

  ghost predicate LookedOurs(p: Plan, t: Trace, u: Trace, id: Option<string>) {
    t <= u && |u| == |t| + 1
    && exists s :: Shows(u[|t|], s) && Configured(p, s)
         && (id.Some? && id.value != "" ==> Primaries(s) != [] && Primaries(s)[0].id == id.value)
  }

  lemma PutBackKeeps(p: Plan, t: Trace, u: Trace)
    requires PutTrace(t, u, p.target, p.oldImage) && Honest(p, t) && Secured(p, t) && MayRollBack(p, t) && AtMostOneRollout(t)
    ensures Honest(p, u) && Secured(p, u) && AtMostOneRollout(u)
  {
    PutKeepsHonest(p, t, u, p.target, p.oldImage);
    PutAddsNoRollout(t, u, p.target, p.oldImage);
  }

  /** Why a later part of the rollback stopped is why the rollback stopped. */
  lemma StoppedEarlier(p: Plan, id: Option<string>, t: Trace, u: Trace, v: Trace, late: bool)
    requires t <= u <= v
    ensures RollbackStopped(p, None, u, v, late) ==> RollbackStopped(p, id, t, v, late)
  {
  }

  lemma PlacedIsRestored(p: Plan, t: Trace)
    requires |t| > 0 && Placed(t[|t| - 1], p.target, p.oldImage)
    ensures Restored(p, t)
  {
    assert Quiet(t, |t|);
  }

  lemma NowEarned(p: Plan, t: Trace, u: Trace, from: nat)
    requires t <= u && from < |t| && Restored(p, t[..from])
    requires Verified(p, u, from, Get(p.baseline.revision), p.oldImage.digest)
    ensures RollbackEarned(p, u)
  {
    assert u[..from] == t[..from];
  }

  /** The look found our rollout primary, the tag still read as new afterwards, and nothing changed in between. */
  lemma OursAtLook(p: Plan, before: Trace, looked: Trace, t: Trace, id: Option<string>)
    requires StartedOnly(before, id) && LookedOurs(p, before, looked, id)
    requires GrewByOneRead(looked, t, p.target) && Resolves(t[|looked|], p.target, p.newImage.digest)
    ensures MayRollBack(p, t)
  {
    var s :| Shows(looked[|before|], s) && Configured(p, s)
      && (id.Some? && id.value != "" ==> Primaries(s) != [] && Primaries(s)[0].id == id.value);
    assert t[|before|] == looked[|before|];
    forall m | 0 <= m < |before| && Started(t[m])
      ensures Primaries(s) != [] && Primaries(s)[0].id == t[m].id.value
    {
      assert t[m] == looked[m] && looked[m] == before[m];
    }
    assert StillOurs(p, t, |before|, s);
    assert Quiet(t, |before|);
  }

  lemma PlainStartsNothing(t: Trace, u: Trace, id: Option<string>)
    requires GrewPlainly(t, u) && StartedOnly(t, id)
    ensures StartedOnly(u, id)
  {
    assert forall k :: 0 <= k < |u| && u[k].StartRollout? ==> k < |t| && u[k] == t[k];
  }

  lemma SuccessKeepsAll(p: Plan, t: Trace, from: nat, id: string, saved: bool)
    requires UnderWay(p, t, Some(id)) && from < |t|
    requires Deployable(p, t[..from], p.newImage.digest)
    requires Verified(p, t, from, Text(p.revision), p.newImage.digest)
    ensures UnderWay(p, t + [Save("success.json", saved)], Some(id))
  {
    var c := Save("success.json", saved);
    HonestAppend(p, t, c);
    SecuredKeeps(p, t, t + [c]);
    SaveAddsNoRollout(t, t + [c], Some(id));
  }

  lemma PlainKeepsAll(p: Plan, t: Trace, u: Trace, id: Option<string>)
    requires GrewPlainly(t, u) && UnderWay(p, t, id)
    ensures UnderWay(p, u, id)
  {
    PlainKeepsHonest(p, t, u);
    SecuredKeeps(p, t, u);
    PlainAddsNoRollout(t, u, id);
  }

  lemma RolloutKeepsHonest(p: Plan, t: Trace, id: Option<string>)
    requires Honest(p, t) && NoRollout(t) && Secured(p, t) && Deployable(p, t, p.newImage.digest)
    ensures Honest(p, t + [StartRollout(id)])
    ensures AtMostOneRollout(t + [StartRollout(id)]) && StartedOnly(t + [StartRollout(id)], id)
  {
    HonestAppend(p, t, StartRollout(id));
  }

  /** No call after `t` starts a rollout or moves a tag other than the rollback tag. */
  ghost predicate TargetUntouched(p: Plan, t: Trace, u: Trace) {
    t <= u && forall k :: |t| <= k < |u| ==> !u[k].StartRollout? && (u[k].PutImage? ==> u[k].tag == p.rollback)
  }

  ghost predicate GrewByOneRead(t: Trace, u: Trace, tag: Tag) {
    exists reply :: u == t + [ReadImages(tag, reply)]
  }

  lemma PlainTouchesNothing(p: Plan, t: Trace, u: Trace)
    requires GrewPlainly(t, u)
    ensures TargetUntouched(p, t, u)
    ensures NoRollout(t) ==> NoRollout(u)
  {
    forall k | |t| <= k < |u| ensures !Mutates(u[k]) {
      assert Plain(u[k]);
    }
  }

  lemma UntouchedMore(p: Plan, t: Trace, u: Trace, v: Trace)
    requires TargetUntouched(p, t, u) && TargetUntouched(p, u, v)
    ensures TargetUntouched(p, t, v)
  {
    forall k | |t| <= k < |v| ensures !v[k].StartRollout? && (v[k].PutImage? ==> v[k].tag == p.rollback) {
      if k < |u| { assert v[k] == u[k]; }
    }
  }

  /** What Put leaves behind: a read, and unless that settled it, a put. */
  ghost predicate PutTrace(t: Trace, u: Trace, tag: Tag, image: Image) {
    && t <= u && |t| < |u| <= |t| + 2 && u[|t|].ReadImages?
    && (|u| == |t| + 2 ==> u[|t| + 1].PutImage? && u[|t| + 1].tag == tag && u[|t| + 1].image == image)
  }

  /** Which tag may be moved to which image, given what the history shows. */
  ghost predicate Movable(p: Plan, t: Trace, tag: Tag, image: Image) {
    || (tag == p.rollback && image == p.oldImage && Deployable(p, t, p.oldImage.digest))
    || (tag == p.target && image == p.newImage && Secured(p, t) && NoRollout(t))
    || (tag == p.target && image == p.oldImage && Secured(p, t) && MayRollBack(p, t))
  }

  lemma MovableKeeps(p: Plan, t: Trace, u: Trace, tag: Tag, image: Image)
    requires Movable(p, t, tag, image) && t <= u && Quiet(u, |t|)
    ensures Movable(p, u, tag, image)
  {
    if Secured(p, t) { SecuredKeeps(p, t, u); }
    if Deployable(p, t, p.oldImage.digest) { DeployableKeeps(p, t, u, p.oldImage.digest); }
    if MayRollBack(p, t) { MayRollBackKeeps(p, t, u); }
    if NoRollout(t) {
      forall k | 0 <= k < |u| ensures !u[k].StartRollout? {
        if k < |t| { assert u[k] == t[k]; } else { assert !Mutates(u[k]); }
      }
    }
  }

  lemma PutKeepsHonest(p: Plan, t: Trace, u: Trace, tag: Tag, image: Image)
    requires Honest(p, t) && PutTrace(t, u, tag, image) && Movable(p, t, tag, image)
    ensures Honest(p, u)
    ensures NoRollout(t) ==> NoRollout(u)
    ensures Secured(p, t) ==> Secured(p, u)
    ensures tag == p.rollback ==> TargetUntouched(p, t, u)
  {
    if Secured(p, t) { SecuredKeeps(p, t, u); }
    var v := u[..|t| + 1];
    assert t <= v && v == t + [u[|t|]];
    HonestAppend(p, t, u[|t|]);
    if u == v { return; }
    assert u == v + [u[|t| + 1]];
    MovableKeeps(p, t, v, tag, image);
    MovableAllowed(p, v, u[|t| + 1]);
    HonestAppend(p, v, u[|t| + 1]);
  }

  lemma MovableAllowed(p: Plan, t: Trace, c: Call)
    requires c.PutImage? && Movable(p, t, c.tag, c.image)
    ensures CallAllowed(p, t, c)
  {
  }

  lemma ShowVerified(p: Plan, start: Trace, t: Trace, from: nat, s: nat, sv: Service, revision: Field, digest: Digest)
    requires from < |start| <= s && s + 2 < |t|
    requires GrewPlainly(start, t) && Quiet(start, from + 1)
    requires start[from].StartRollout? && start[from].id.Some?
    requires Shows(t[s], sv) && Configured(p, sv) && Settled(sv) && Primaries(sv) != []
    requires Primaries(sv)[0].id == start[from].id.value
    requires RunsOnly(t[|t| - 1], p.desired, ReleaseSet(p, digest))
    requires forall u :: 0 <= u < |p.healthUrls| ==> HealthySeen(t, s + 1, |t| - 1, p.healthUrls[u], revision)
    ensures Verified(p, t, from, revision, digest)
  {
    assert t[from] == start[from];
    QuietKeeps(start, t, from + 1);
    forall u | 0 <= u < |p.healthUrls| ensures HealthySeen(t, s, |t| - 1, p.healthUrls[u], revision) {
      assert HealthySeen(t, s + 1, |t| - 1, p.healthUrls[u], revision);
      var h :| s + 1 < h < |t| - 1 && Healthy(t[h], p.healthUrls[u], revision);
    }
    assert VerifiedAt(p, t, from, s, |t| - 1, sv, revision, digest);
  }

  lemma GrewMore(t: Trace, u: Trace, v: Trace)
    requires GrewPlainly(t, u) && GrewPlainly(u, v)
    ensures GrewPlainly(t, v)
  {
    forall k | |t| <= k < |v| ensures Plain(v[k]) {
      if k < |u| { assert v[k] == u[k]; }
    }
  }

  lemma SawTagKeeps(t: Trace, u: Trace, definition: string, tag: Tag)
    requires SawTag(t, definition, tag) && t <= u
    ensures SawTag(u, definition, tag)
  {
    var i, image, repository :|
      0 <= i < |t| && t[i] == DescribeDefinition(definition, Some([Container("controller", image)]))
      && DeploysTag(image, repository, tag);
    assert u[i] == t[i];
  }

  lemma SawImageKeeps(t: Trace, u: Trace, tag: Tag, image: Image)
    requires SawImage(t, tag, image) && t <= u
    ensures SawImage(u, tag, image)
  {
    var i :| 0 <= i < |t| && ResolvesTo(t[i], tag, image);
    assert u[i] == t[i];
  }

  lemma SawServiceKeeps(t: Trace, u: Trace, s: Service)
    requires SawService(t, s) && t <= u
    ensures SawService(u, s)
  {
    var i :| 0 <= i < |t| && Shows(t[i], s);
    assert u[i] == t[i];
  }

  lemma ShowPreflighted(a: Args, p: Plan, surveyed: Trace, checked: Trace, t: Trace, before: Service)
    requires surveyed <= checked <= t
    requires p.source == a.sourceTag && p.revision == a.expectedRevision && p.healthUrls == HealthUrls(a.healthUrl)
    requires p.baseline.ok && p.definition == before.definition && p.desired == before.desired
    requires Surveyed(a, surveyed, before, p.target, p.oldImage, p.newImage)
    requires forall u :: 0 <= u < |p.healthUrls| ==>
               HealthySeen(checked, |surveyed| - 1, |checked|, p.healthUrls[u], Get(p.baseline.revision))
    ensures Preflighted(a, p, t)
  {
    SawTagKeeps(surveyed, t, p.definition, p.target);
    SawImageKeeps(surveyed, t, p.target, p.oldImage);
    SawImageKeeps(surveyed, t, p.source, p.newImage);
    SawServiceKeeps(surveyed, t, before);
    EndpointsStillSeen(p, checked, |surveyed| - 1, t, -1, |t|, Get(p.baseline.revision));
  }

  /** When all answers agree, every endpoint was seen well at the revision of the first. */
  lemma AgreeingHealthy(t: Trace, u: Trace, urls: seq<string>, first: Health)
    requires AllAgree(t, u, urls) && urls != [] && u[|t|] == FetchHealth(urls[0], Some(first))
    ensures forall k :: 0 <= k < |urls| ==> HealthySeen(u, |t| - 1, |u|, urls[k], Get(first.revision))
  {
    forall k | 0 <= k < |urls| ensures HealthySeen(u, |t| - 1, |u|, urls[k], Get(first.revision)) {
      assert Agrees(u[|t| + k], u[|t|], urls[k]);
      assert Healthy(u[|t| + k], urls[k], Get(first.revision));
    }
  }

  /** What one health check saw is seen in every longer stretch of a longer history. */
  lemma EndpointsStillSeen(p: Plan, t: Trace, s: int, u: Trace, from: int, to: int, revision: Field)
    requires t <= u && -1 <= from <= s && |t| <= to <= |u|
    requires forall k :: 0 <= k < |p.healthUrls| ==> HealthySeen(t, s, |t|, p.healthUrls[k], revision)
    ensures forall k :: 0 <= k < |p.healthUrls| ==> HealthySeen(u, from, to, p.healthUrls[k], revision)
  {
    forall k | 0 <= k < |p.healthUrls|
      ensures HealthySeen(u, from, to, p.healthUrls[k], revision)
    {
      var h :| s < h < |t| && Healthy(t[h], p.healthUrls[k], revision);
      assert u[h] == t[h];
    }
  }

  // ---------------------------------------------------------------- causes

  /** An image reference names at most one tag. */
  lemma OneTag(image: string, repository: Repository, a: Tag, b: Tag)
    requires DeploysTag(image, repository, a) && DeploysTag(image, repository, b) && |a| <= |b|
    ensures a == b
  {
    var n := |image|;
    assert image[n - |a| - 1..][0] == ':';
    assert image[n - |b| - 1..][1..] == b;
    assert forall k :: 0 <= k < |b| ==> b[k] == image[n - |b| + k];
    assert image[n - |a| - 1..][1..] == a;
  }

  lemma OnlyTheSource(source: Tag, t: Trace, repository: Repository, image: string)
    requires |t| > 1 && DeploysTag(image, repository, source)
    requires t[|t| - 2].DescribeDefinition? && t[|t| - 2].containers == Some([Container("controller", image)])
    ensures !Releasable(source, t, repository)
  {
    forall definition, container, tag
      | t[|t| - 2] == DescribeDefinition(definition, Some([container])) && DeploysTag(container.image, repository, tag)
      ensures tag == source
    {
      assert container == [container][0];
      assert container.image == image;
      if |tag| <= |source| { OneTag(image, repository, tag, source); } else { OneTag(image, repository, source, tag); }
    }
  }

  lemma StillAllRolling(p: Plan, id: string, from: nat, t: Trace, u: Trace)
    requires AllRolling(p, id, from, t) && t <= u && |u| == |t| + 2
    requires StillRolling(p, u[|t|], id) && u[|t|].DescribeService? && u[|t| + 1].Print? && from <= |t|
    ensures AllRolling(p, id, from, u + [Paused])
  {
    var v := u + [Paused];
    assert v[|t|] == u[|t|] && v[|t| + 1] == u[|t| + 1];
    forall k: nat | from <= k < |v|
      ensures RollingAt(p, id, from, v, k)
    {
      if k < |t| {
        assert RollingAt(p, id, from, t, k);
        assert v[k] == u[k] == t[k];
        if t[k].Paused? { assert v[k - 2] == u[k - 2] == t[k - 2]; }
      } else if k < |u| {
        assert k == |t| || k == |t| + 1;
      }
    }
  }

  /** The endpoints agree, but not on this revision. */
  lemma WrongRevision(p: Plan, id: string, revision: Field, digest: Digest, t: Trace, u: Trace)
    requires p.healthUrls != [] && AllAgree(t, u, p.healthUrls) && t <= u
    requires u[|t|].FetchHealth? && u[|t|].health.Some? && Get(u[|t|].health.value.revision) != revision
    ensures StopsWait(p, id, revision, digest, u)
  {
    assert u[..|u| - |p.healthUrls| - 1] == t;
  }

  /** A rollout that was only ever seen rolling, first noted and then waited for. */
  lemma RollingInVain(p: Plan, id: string, start: Trace, noted: Trace, t: Trace)
    requires |start| > 0 && start[|start| - 1] == StartRollout(Some(id)) && start <= noted <= t
    requires forall k :: |start| <= k < |noted| ==> !noted[k].DescribeService? && !noted[k].Paused?
    requires AllRolling(p, id, |noted|, t)
    ensures InVain(p, start[..|start| - 1], t)
  {
    var j := |start| - 1;
    var from := j + 1;
    assert t[j] == start[j];
    forall k: nat | from <= k < |t| ensures RollingAt(p, id, from, t, k) {
      if k < |noted| { assert t[k] == noted[k]; } else { assert RollingAt(p, id, |noted|, t, k); }
    }
  }

  lemma CauseEarlier(p: Plan, s: Trace, t: Trace, u: Trace, late: bool, later: bool)
    requires s <= t && |t| < |u| && (late ==> later) && StopsBy(p, t, u, late)
    ensures StopsBy(p, s, u, later)
  {}

  /** The release was cut short at `failed`, and the rollback after it went on to u. */
  lemma Undoing(p: Plan, id: Option<string>, start: Trace, moving: Trace, failed: Trace, u: Trace,
                late: bool, later: bool, stopped: bool)
    requires start <= moving <= failed <= u && |moving| < |failed| < |u| && IsFailureReceipt(u[|failed|])
    requires StopsBy(p, moving, failed, late) && (late ==> later)
    requires stopped ==> RollbackStopped(p, id, failed, u, later)
    ensures CutShort(p, start, u, later)
    ensures stopped ==> GaveUpForCause(p, start, u, later)
  {
    assert u[..|failed|] == failed;
    CauseEarlier(p, start, moving, failed, late, later);
  }
}
