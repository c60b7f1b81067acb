/**
  The two live acceptance collectors.  Both read every Worker, do long work, and read every Worker
  again.  The account that they read is a timeline that nobody here controls; only its clock moves,
  by any amount, between and during the reads.
 */
module LiveAcceptance {
  import opened Outcomes
  import opened ByteOrder
  import opened Multipart
  import opened Timeline

  type Worker = string

  type Role = string

  datatype Traffic = Traffic(versionId: string, percentage: int)

  /** A deployment document; `rest` stands for its other fields. */
  datatype Deployment = Deployment(id: string, versions: seq<Traffic>, rest: string)

  datatype VersionView = VersionView(id: string, rest: string)

  /** What the account shows at one time.  Absent keys are failing reads. */
  datatype Account = Account(deployments: map<Worker, Deployment>, views: map<string, VersionView>,
      surfaces: map<Worker, string>)

  function Lookup<K, V>(m: map<K, V>, k: K): Option<V> {
    if k in m then Some(m[k]) else None
  }

  ghost function DeploymentsOf(timeline: seq<Account>, worker: Worker): (h: seq<Option<Deployment>>)
    ensures |h| == |timeline| && forall t | 0 <= t < |h| :: h[t] == Lookup(timeline[t].deployments, worker)
  {
    seq(|timeline|, t requires 0 <= t < |timeline| => Lookup(timeline[t].deployments, worker))
  }

  function DeploymentId(d: Option<Deployment>): seq<string> {
    if d.Some? then [d.value.id] else []
  }

  /** Every change of a Worker's deployment yields a deployment id that this Worker never had. */
  ghost predicate FreshIds(timeline: seq<Account>) {
    forall worker :: Stamped(DeploymentsOf(timeline, worker), DeploymentId)
  }

  /** A deployment that replaces another has an id that no earlier one of the Worker had. */
  ghost predicate FreshFor(timeline: seq<Account>, worker: Worker) {
    forall i, j | 0 <= i < j < |timeline| && worker in timeline[j].deployments
                  && Lookup(timeline[j - 1].deployments, worker) != Some(timeline[j].deployments[worker]) ::
      worker in timeline[i].deployments ==> timeline[i].deployments[worker].id != timeline[j].deployments[worker].id
  }

  /** The assumption in full. */
  lemma FreshIdsIff(timeline: seq<Account>)
    ensures FreshIds(timeline) <==> forall worker :: FreshFor(timeline, worker)
  {
    forall worker ensures Stamped(DeploymentsOf(timeline, worker), DeploymentId) <==> FreshFor(timeline, worker) {
      var h := DeploymentsOf(timeline, worker);
      assert forall t | 0 <= t < |h| :: h[t] == Lookup(timeline[t].deployments, worker);
    }
  }

  ghost predicate Live(timeline: seq<Account>, worker: Worker, d: Deployment, t: nat) {
    t < |timeline| && Lookup(timeline[t].deployments, worker) == Some(d)
  }

  ghost predicate Seen(timeline: seq<Account>, worker: Worker, d: Deployment, from: nat, to: nat) {
    exists t | from <= t <= to :: Live(timeline, worker, d, t)
  }

  /** The same deployment read before and after a window was live throughout the window. */
  lemma LiveThroughout(timeline: seq<Account>, worker: Worker, d: Deployment, from: nat, opening: nat, closing: nat,
                       to: nat)
    requires FreshIds(timeline) && from <= opening <= closing <= to
    requires Seen(timeline, worker, d, from, opening) && Seen(timeline, worker, d, closing, to)
    ensures forall t | opening <= t <= closing :: Live(timeline, worker, d, t)
  {
    var i :| from <= i <= opening && Live(timeline, worker, d, i);
    var k :| closing <= k <= to && Live(timeline, worker, d, k);
    var h := DeploymentsOf(timeline, worker);
    assert Stamped(h, DeploymentId);
    forall t | opening <= t <= closing ensures Live(timeline, worker, d, t) {
      NoReturn(h, DeploymentId, i, t, k);
    }
  }

  ghost function SurfacesOf(timeline: seq<Account>, worker: Worker): (h: seq<Option<string>>)
    ensures |h| == |timeline| && forall t | 0 <= t < |h| :: h[t] == Lookup(timeline[t].surfaces, worker)
  {
    seq(|timeline|, t requires 0 <= t < |timeline| => Lookup(timeline[t].surfaces, worker))
  }

  /** Public surfaces carry no id; this says that nevertheless, from one instant to another, the Worker's
      surface does not return to an earlier value. */
  ghost predicate NoComeback(timeline: seq<Account>, worker: Worker, from: nat, to: nat) {
    && from <= to < |timeline|
    && Stamped(SurfacesOf(timeline, worker)[from..to + 1], (surface: Option<string>) => [surface])
  }

  /** What one read told. */
  datatype Fact =
    | DeploymentIs(worker: Worker, deployment: Deployment)
    | ViewIs(versionId: string, view: VersionView)
    | SurfaceIs(worker: Worker, surface: string)

  predicate Shows(account: Account, fact: Fact) {
    match fact
    case DeploymentIs(worker, deployment) => Lookup(account.deployments, worker) == Some(deployment)
    case ViewIs(versionId, view) => Lookup(account.views, versionId) == Some(view)
    case SurfaceIs(worker, surface) => Lookup(account.surfaces, worker) == Some(surface)
  }

  datatype Reading = Reading(at: nat, fact: Fact)

  /** Successful reads, one after the other. */
  ghost predicate Recorded(timeline: seq<Account>, log: seq<Reading>) {
    && (forall i | 0 <= i < |log| :: log[i].at < |timeline| && Shows(timeline[log[i].at], log[i].fact))
    && forall i, j | 0 <= i < j < |log| :: log[i].at <= log[j].at
  }

  predicate HexDigit(c: char) {
    '0' <= c <= '9' || 'a' <= c <= 'f'
  }

  /** `_UUID` */
  predicate Uuid(s: string) {
    |s| == 36 && forall i | 0 <= i < 36 :: if i == 8 || i == 13 || i == 18 || i == 23 then s[i] == '-' else HexDigit(s[i])
  }

  ghost predicate HexText(s: string, n: nat) {
    |s| == n && forall i | 0 <= i < n :: s[i] in "0123456789abcdef"
  }

  lemma HexDigitIff(c: char)
    ensures HexDigit(c) <==> c in "0123456789abcdef"
  {
    var digits := "0123456789abcdef";
    if '0' <= c <= '9' { assert digits[c as int - '0' as int] == c; }
    if 'a' <= c <= 'f' { assert digits[10 + (c as int - 'a' as int)] == c; }
  }

  /** Five groups of small hexadecimal digits, of lengths 8, 4, 4, 4 and 12, with dashes between them. */
  lemma UuidIff(s: string)
    ensures Uuid(s) <==>
      && |s| == 36 && s[8] == s[13] == s[18] == s[23] == '-'
      && HexText(s[..8], 8) && HexText(s[9..13], 4) && HexText(s[14..18], 4) && HexText(s[19..23], 4)
      && HexText(s[24..], 12)
  {
    forall c { HexDigitIff(c); }
    hide HexDigit;
    if |s| == 36 {
      assert forall i | 0 <= i < 8 :: s[..8][i] == s[i];
      assert forall i | 9 <= i < 13 :: s[9..13][i - 9] == s[i];
      assert forall i | 14 <= i < 18 :: s[14..18][i - 14] == s[i];
      assert forall i | 19 <= i < 23 :: s[19..23][i - 19] == s[i];
      assert forall i | 24 <= i < 36 :: s[24..][i - 24] == s[i];
    }
  }

  /** The read-only view of the account.  Module bytes belong to a version and never change. */
  class Remote<D> {
    const timeline: seq<Account>
    const modules: map<string, Inventory<D>>
    var now: nat
    ghost var log: seq<Reading>

    ghost predicate Valid()
      reads this
    {
      now < |timeline| && Recorded(timeline, log) && forall i | 0 <= i < |log| :: log[i].at <= now
    }

    constructor (timeline: seq<Account>, modules: map<string, Inventory<D>>)
      requires timeline != []
      ensures Valid() && now == 0 && log == [] && this.timeline == timeline && this.modules == modules
    {
      this.timeline, this.modules, this.now, this.log := timeline, modules, 0, [];
    }

    method Pass()
      requires Valid()
      modifies this`now
      ensures Valid() && old(now) <= now
    {
      var later: int := *;
      if now <= later < |timeline| { now := later; }
    }

    method ReadDeployment(worker: Worker) returns (d: Option<Deployment>)
      requires Valid()
      modifies this
      ensures Valid() && old(now) <= now
      ensures d.Some? ==> Live(timeline, worker, d.value, now)
      ensures log == if d.Some? then old(log) + [Reading(now, DeploymentIs(worker, d.value))] else old(log)
    {
      Pass();
      var reached: bool := *;
      d := if reached then Lookup(timeline[now].deployments, worker) else None;
      if d.Some? { log := log + [Reading(now, DeploymentIs(worker, d.value))]; }
    }

    method ReadVersion(versionId: string) returns (view: Option<VersionView>)
      requires Valid()
      modifies this
      ensures Valid() && old(now) <= now
      ensures view.Some? ==> Lookup(timeline[now].views, versionId) == view
      ensures log == if view.Some? then old(log) + [Reading(now, ViewIs(versionId, view.value))] else old(log)
    {
      Pass();
      var reached: bool := *;
      view := if reached then Lookup(timeline[now].views, versionId) else None;
      if view.Some? { log := log + [Reading(now, ViewIs(versionId, view.value))]; }
    }

    method ReadSurface(worker: Worker) returns (surface: Option<string>)
      requires Valid()
      modifies this
      ensures Valid() && old(now) <= now
      ensures surface.Some? ==> Lookup(timeline[now].surfaces, worker) == surface
      ensures log == if surface.Some? then old(log) + [Reading(now, SurfaceIs(worker, surface.value))] else old(log)
    {
      Pass();
      var reached: bool := *;
      surface := if reached then Lookup(timeline[now].surfaces, worker) else None;
      if surface.Some? { log := log + [Reading(now, SurfaceIs(worker, surface.value))]; }
    }

    method ReadModules(versionId: string) returns (inventory: Option<Inventory<D>>)
      requires Valid()
      modifies this`now
      ensures Valid() && old(now) <= now
      ensures inventory.Some? ==> Lookup(modules, versionId) == inventory
    {
      Pass();
      var reached: bool := *;
      inventory := if reached then Lookup(modules, versionId) else None;
    }
  }

  /** The locally built upload bundle of a Worker, with the codecs to read it. */
  datatype Build<!D(==)> = Build(bundle: Worker -> Bytes, json: Bytes -> Option<Metadata>, sha: Bytes -> D)

  /** A version whose modules are those of the local build. */
  ghost predicate Reproduced<D>(build: Build<D>, modules: map<string, Inventory<D>>, worker: Worker,
                                versionId: string, inventory: Inventory<D>) {
    && Bundle(build.bundle(worker), build.json, build.sha).Some?
    && inventory.mainModule == Bundle(build.bundle(worker), build.json, build.sha).value.0
    && Listing(inventory.modules, Bundle(build.bundle(worker), build.json, build.sha).value.1)
    && versionId in modules && Verified(modules[versionId]) == Some(inventory)
  }

  /** `_source_provenance` */
  method SourceProvenance<D(==)>(remote: Remote<D>, build: Build<D>, worker: Worker, versionId: string)
    returns (r: Option<Inventory<D>>)
    requires remote.Valid()
    modifies remote`now
    ensures remote.Valid() && old(remote.now) <= remote.now
    ensures r.Some? ==> Reproduced(build, remote.modules, worker, versionId, r.value) && Uuid(versionId)
    ensures r.Some? ==> versionId in remote.modules && Verified(remote.modules[versionId]) == r
    ensures r.Some? ==> var local := Bundle(build.bundle(worker), build.json, build.sha);
                        local.Some? && r.value.mainModule == local.value.0 && Listing(r.value.modules, local.value.1)
  {
    hide Bundle, Verified, Listing;
    if !Uuid(versionId) { return None; }
    var local := ParseWorkerUploadBundle(build.bundle(worker), build.json, build.sha);
    if local.None? { return None; }
    var live := remote.ReadModules(versionId);
    if live.None? { return None; }
    r := Compared(local.value, live.value);
    ParsedIsVerified(build.bundle(worker), build.json, build.sha, local.value);
  }

  // ----- the receipt chain

  const CHAIN: seq<(Role, Worker)> :=
    [("acquisition", "ingestion-secrets"), ("authority", "receipt-evidence-authority"), ("caller", "ingestion-premium")]

  datatype Evidence<D> = Evidence(
    deployments: map<Role, Deployment>, versions: map<Role, VersionView>,
    surfaces: map<Role, string>, provenance: map<Role, Inventory<D>>)

  // The reads of a successful collection, in order, as far as the first n roles; o is where they begin.

  ghost predicate Opened(log: seq<Reading>, o: nat, deployments: map<Role, Deployment>, surfaces: map<Role, string>, n: nat)
    requires n <= |CHAIN|
  {
    && o + 2 * n <= |log|
    && forall i | 0 <= i < n ::
        var (role, worker) := CHAIN[i];
        && role in deployments && role in surfaces
        && OpenedRole(log, o + 2 * i, worker, deployments[role], surfaces[role])
  }

  ghost predicate OpenedRole(log: seq<Reading>, o: nat, worker: Worker, deployment: Deployment, surface: string) {
    && o + 2 <= |log|
    && log[o].fact == DeploymentIs(worker, deployment) && log[o + 1].fact == SurfaceIs(worker, surface)
  }

  ghost predicate Inspected(log: seq<Reading>, o: nat, deployments: map<Role, Deployment>, surfaces: map<Role, string>,
                            versions: map<Role, VersionView>, n: nat)
    requires n <= |CHAIN|
  {
    && o + 4 * n <= |log|
    && forall i | 0 <= i < n ::
        var (role, worker) := CHAIN[i];
        && role in deployments && role in surfaces && role in versions
        && InspectedRole(log, o + 4 * i, worker, deployments[role], surfaces[role], versions[role])
  }

  ghost predicate InspectedRole(log: seq<Reading>, o: nat, worker: Worker, deployment: Deployment, surface: string,
                                view: VersionView)
  {
    && o + 4 <= |log| && |deployment.versions| == 1 && Uuid(deployment.versions[0].versionId)
    && log[o].fact == log[o + 2].fact == ViewIs(deployment.versions[0].versionId, view)
    && log[o + 1].fact == SurfaceIs(worker, surface)
    && log[o + 3].fact == DeploymentIs(worker, deployment)
  }

  ghost predicate Closed(log: seq<Reading>, o: nat, deployments: map<Role, Deployment>, surfaces: map<Role, string>,
                         versions: map<Role, VersionView>, n: nat)
    requires n <= |CHAIN|
  {
    && o + 3 * n <= |log|
    && forall i | 0 <= i < n ::
        var (role, worker) := CHAIN[i];
        && role in deployments && role in surfaces && role in versions
        && ClosedRole(log, o + 3 * i, worker, deployments[role], surfaces[role], versions[role])
  }

  ghost predicate ClosedRole(log: seq<Reading>, o: nat, worker: Worker, deployment: Deployment, surface: string,
                             view: VersionView)
  {
    && o + 3 <= |log| && Uuid(view.id)
    && log[o].fact == DeploymentIs(worker, deployment) && log[o + 1].fact == ViewIs(view.id, view)
    && log[o + 2].fact == SurfaceIs(worker, surface)
  }

  ghost predicate ChainReads<D>(log: seq<Reading>, o: nat, e: Evidence<D>) {
    && |log| == o + 27
    && Opened(log, o, e.deployments, e.surfaces, |CHAIN|)
    && Inspected(log, o + 6, e.deployments, e.surfaces, e.versions, |CHAIN|)
    && Closed(log, o + 18, e.deployments, e.surfaces, e.versions, |CHAIN|)
  }

  /** Later reads only add to the log. */
  ghost predicate Extends(before: seq<Reading>, after: seq<Reading>, from: nat) {
    && before <= after
    && forall i | |before| <= i < |after| :: from <= after[i].at
  }

  ghost predicate LiveAt(timeline: seq<Account>, deployments: map<Role, Deployment>, t: nat) {
    forall i | 0 <= i < |CHAIN| ::
      var (role, worker) := CHAIN[i];
      role in deployments && Live(timeline, worker, deployments[role], t)
  }

  ghost predicate SurfacesAt(timeline: seq<Account>, surfaces: map<Role, string>, t: nat) {
    && t < |timeline|
    && forall i | 0 <= i < |CHAIN| ::
        var (role, worker) := CHAIN[i];
        role in surfaces && Lookup(timeline[t].surfaces, worker) == Some(surfaces[role])
  }

  /** Of no Worker of the chain does the surface come back between the opening and the closing read of it. */
  ghost predicate NeverBack(timeline: seq<Account>, log: seq<Reading>, o: nat) {
    && o + 27 <= |log|
    && forall i | 0 <= i < |CHAIN| ::
        NoComeback(timeline, CHAIN[i].1, log[o + 2 * i + 1].at, log[o + 20 + 3 * i].at)
  }

  /** From the last opening read to the first closing read all recorded deployments were live together;
      so were all recorded surfaces, if none comes back between the reads of it. */
  lemma ChainTogether<D>(timeline: seq<Account>, log: seq<Reading>, o: nat, e: Evidence<D>, t: nat)
    requires Recorded(timeline, log) && ChainReads(log, o, e) && FreshIds(timeline)
    requires log[o + 5].at <= t <= log[o + 18].at
    ensures LiveAt(timeline, e.deployments, t)
    ensures NeverBack(timeline, log, o) ==> SurfacesAt(timeline, e.surfaces, t)
  {
    hide FreshIds, NoComeback, Inspected, OpenedRole, ClosedRole, Shows;
    assert t < |timeline|;
    forall i | 0 <= i < |CHAIN|
      ensures Live(timeline, CHAIN[i].1, e.deployments[CHAIN[i].0], t)
      ensures NeverBack(timeline, log, o) ==> Lookup(timeline[t].surfaces, CHAIN[i].1) == Some(e.surfaces[CHAIN[i].0])
    {
      var (role, worker) := CHAIN[i];
      assert log[o + 2 * i + 1].at <= log[o + 5].at && log[o + 18].at <= log[o + 18 + 3 * i].at;
      RoleTogether(timeline, log, o + 2 * i, o + 18 + 3 * i, worker, e.deployments[role], e.surfaces[role],
                   e.versions[role], t);
    }
  }

  lemma RoleTogether(timeline: seq<Account>, log: seq<Reading>, i: nat, k: nat, worker: Worker, deployment: Deployment,
                     surface: string, view: VersionView, t: nat)
    requires Recorded(timeline, log) && FreshIds(timeline)
    requires i + 2 <= k && OpenedRole(log, i, worker, deployment, surface)
    requires ClosedRole(log, k, worker, deployment, surface, view)
    requires log[i + 1].at <= t <= log[k].at
    ensures Live(timeline, worker, deployment, t)
    ensures NoComeback(timeline, worker, log[i + 1].at, log[k + 2].at) ==>
              Lookup(timeline[t].surfaces, worker) == Some(surface)
  {
    hide FreshIds, NoComeback;
    HeldBetween(timeline, log, i, t, k);
    HeldBetween(timeline, log, i + 1, t, k + 2);
  }

  /** What two reads told alike held at every instant between them, for facts that do not come back. */
  lemma HeldBetween(timeline: seq<Account>, log: seq<Reading>, i: nat, t: nat, k: nat)
    requires Recorded(timeline, log) && i <= k < |log| && log[i].fact == log[k].fact && log[i].at <= t <= log[k].at
    ensures log[i].fact.DeploymentIs? && FreshIds(timeline) ==> Shows(timeline[t], log[i].fact)
    ensures log[i].fact.SurfaceIs? && NoComeback(timeline, log[i].fact.worker, log[i].at, log[k].at) ==>
              Shows(timeline[t], log[i].fact)
  {
    hide Stamped, NoComeback;
    match log[i].fact
    case DeploymentIs(worker, deployment) =>
      if FreshIds(timeline) {
        NoReturn(DeploymentsOf(timeline, worker), DeploymentId, log[i].at, t, log[k].at);
      }
    case SurfaceIs(worker, surface) =>
      if NoComeback(timeline, worker, log[i].at, log[k].at) {
        SurfaceHeld(timeline, worker, log[i].at, t, log[k].at);
      }
    case ViewIs(_, _) =>
  }

  lemma SurfaceHeld(timeline: seq<Account>, worker: Worker, from: nat, t: nat, to: nat)
    requires NoComeback(timeline, worker, from, to) && from <= t <= to
    requires Lookup(timeline[from].surfaces, worker) == Lookup(timeline[to].surfaces, worker)
    ensures Lookup(timeline[t].surfaces, worker) == Lookup(timeline[from].surfaces, worker)
  {
    hide Stamped;
    var h := SurfacesOf(timeline, worker);
    NoReturn(h[from..to + 1], (surface: Option<string>) => [surface], 0, t - from, to - from);
  }

  method OpenRole<D>(remote: Remote<D>, worker: Worker) returns (r: Option<(Deployment, string)>)
    requires remote.Valid()
    modifies remote
    ensures remote.Valid() && old(remote.now) <= remote.now
    ensures Extends(old(remote.log), remote.log, old(remote.now))
    ensures r.Some? ==> |remote.log| == |old(remote.log)| + 2
    ensures r.Some? ==> OpenedRole(remote.log, |old(remote.log)|, worker, r.value.0, r.value.1)
  {
    hide Recorded, Live, Lookup, Uuid;
    var deployment := remote.ReadDeployment(worker);
    if deployment.None? { return None; }
    var surface := remote.ReadSurface(worker);
    r := if surface.Some? then Some((deployment.value, surface.value)) else None;
  }

  method OpenChain<D>(remote: Remote<D>) returns (r: Option<(map<Role, Deployment>, map<Role, string>)>)
    requires remote.Valid()
    modifies remote
    ensures remote.Valid() && old(remote.now) <= remote.now
    ensures Extends(old(remote.log), remote.log, old(remote.now))
    ensures r.Some? ==> |remote.log| == |old(remote.log)| + 6
    ensures r.Some? ==> Opened(remote.log, |old(remote.log)|, r.value.0, r.value.1, |CHAIN|)
  {
    hide Recorded, Live, Lookup, Uuid;
    var deployments: map<Role, Deployment>, surfaces: map<Role, string> := map[], map[];
    for n := 0 to |CHAIN|
      invariant remote.Valid() && old(remote.now) <= remote.now
      invariant Extends(old(remote.log), remote.log, old(remote.now))
      invariant |remote.log| == |old(remote.log)| + 2 * n
      invariant Opened(remote.log, |old(remote.log)|, deployments, surfaces, n)
    {
      var (role, worker) := CHAIN[n];
      var facts := OpenRole(remote, worker);
      if facts.None? { return None; }
      deployments, surfaces := deployments[role := facts.value.0], surfaces[role := facts.value.1];
    }
    r := Some((deployments, surfaces));
  }

  method Reread<D>(remote: Remote<D>, worker: Worker, deployment: Deployment, surface: string, view: VersionView)
    returns (ok: bool)
    requires remote.Valid() && deployment.versions != []
    modifies remote
    ensures remote.Valid() && old(remote.now) <= remote.now
    ensures Extends(old(remote.log), remote.log, old(remote.now))
    ensures ok ==> |remote.log| == |old(remote.log)| + 3
    ensures ok ==> remote.log[|old(remote.log)|].fact == SurfaceIs(worker, surface)
    ensures ok ==> remote.log[|old(remote.log)| + 1].fact == ViewIs(deployment.versions[0].versionId, view)
    ensures ok ==> remote.log[|old(remote.log)| + 2].fact == DeploymentIs(worker, deployment)
  {
    hide Recorded, Live, Lookup;
    var surfaceDuring := remote.ReadSurface(worker);
    if surfaceDuring.None? { return false; }
    var versionAfter := remote.ReadVersion(deployment.versions[0].versionId);
    if versionAfter.None? { return false; }
    var deploymentAfter := remote.ReadDeployment(worker);
    ok := deploymentAfter == Some(deployment) && versionAfter.value == view && surfaceDuring.value == surface;
  }

  /** The work on one role: its version, its modules, its surface, and its deployment once more. */
  method InspectRole<D(==)>(remote: Remote<D>, build: Build<D>, worker: Worker, deployment: Deployment, surface: string)
    returns (r: Option<(VersionView, Inventory<D>)>)
    requires remote.Valid()
    modifies remote
    ensures remote.Valid() && old(remote.now) <= remote.now
    ensures Extends(old(remote.log), remote.log, old(remote.now))
    ensures r.Some? ==> |remote.log| == |old(remote.log)| + 4
    ensures r.Some? ==> InspectedRole(remote.log, |old(remote.log)|, worker, deployment, surface, r.value.0)
    ensures r.Some? ==> Reproduced(build, remote.modules, worker, deployment.versions[0].versionId, r.value.1)
  {
    hide Reproduced, Recorded, Live, Lookup, Uuid, Verified, Bundle, Listing;
    if |deployment.versions| != 1 { return None; }
    var versionId := deployment.versions[0].versionId;
    if !Uuid(versionId) { return None; }
    var version := remote.ReadVersion(versionId);
    if version.None? { return None; }
    var provenance := SourceProvenance(remote, build, worker, versionId);
    if provenance.None? { return None; }
    var same := Reread(remote, worker, deployment, surface, version.value);
    r := if same then Some((version.value, provenance.value)) else None;
  }

  method CloseRole<D>(remote: Remote<D>, worker: Worker, deployment: Deployment, surface: string, view: VersionView)
    returns (ok: bool)
    requires remote.Valid()
    modifies remote
    ensures remote.Valid() && old(remote.now) <= remote.now
    ensures Extends(old(remote.log), remote.log, old(remote.now))
    ensures ok ==> |remote.log| == |old(remote.log)| + 3
    ensures ok ==> ClosedRole(remote.log, |old(remote.log)|, worker, deployment, surface, view)
  {
    hide Recorded, Live, Lookup, Uuid;
    var deploymentAfter := remote.ReadDeployment(worker);
    if deploymentAfter.None? || !Uuid(view.id) { return false; }
    var viewAfter := remote.ReadVersion(view.id);
    if viewAfter.None? { return false; }
    var surfaceAfter := remote.ReadSurface(worker);
    ok := deploymentAfter.value == deployment && viewAfter.value == view && surfaceAfter == Some(surface);
  }

  method CloseChain<D>(remote: Remote<D>, deployments: map<Role, Deployment>, versions: map<Role, VersionView>,
                       surfaces: map<Role, string>)
    returns (ok: bool)
    requires remote.Valid() && forall i | 0 <= i < |CHAIN| ::
             CHAIN[i].0 in deployments && CHAIN[i].0 in versions && CHAIN[i].0 in surfaces
    modifies remote
    ensures remote.Valid() && old(remote.now) <= remote.now
    ensures Extends(old(remote.log), remote.log, old(remote.now))
    ensures ok ==> |remote.log| == |old(remote.log)| + 9
    ensures ok ==> Closed(remote.log, |old(remote.log)|, deployments, surfaces, versions, |CHAIN|)
  {
    hide Recorded, Live, Lookup, Uuid;
    for n := 0 to |CHAIN|
      invariant remote.Valid() && old(remote.now) <= remote.now
      invariant Extends(old(remote.log), remote.log, old(remote.now))
      invariant |remote.log| == |old(remote.log)| + 3 * n
      invariant Closed(remote.log, |old(remote.log)|, deployments, surfaces, versions, n)
    {
      var (role, worker) := CHAIN[n];
      var same := CloseRole(remote, worker, deployments[role], surfaces[role], versions[role]);
      if !same { return false; }
    }
    ok := true;
  }

  /** The evidence that held at one instant: the deployments, and the modules of the versions they select. */
  ghost predicate ChainAt<D>(remote: Remote<D>, build: Build<D>, e: Evidence<D>, t: nat) {
    LiveAt(remote.timeline, e.deployments, t) && AllReproduced(remote, build, e.deployments, e.provenance, |CHAIN|)
  }

  ghost predicate AllReproduced<D>(remote: Remote<D>, build: Build<D>, deployments: map<Role, Deployment>,
                                   provenance: map<Role, Inventory<D>>, n: nat)
    requires n <= |CHAIN|
  {
    forall i | 0 <= i < n ::
      var (role, worker) := CHAIN[i];
      && role in deployments && role in provenance && |deployments[role].versions| == 1
      && Reproduced(build, remote.modules, worker, deployments[role].versions[0].versionId, provenance[role])
  }

  /** A window of the collection in which the evidence held at every instant, the surfaces included if none comes back. */
  ghost predicate ChainDuring<D>(remote: Remote<D>, build: Build<D>, e: Evidence<D>, log: seq<Reading>, o: nat,
                                 opening: nat, closing: nat)
  {
    forall t | opening <= t <= closing ::
      && ChainAt(remote, build, e, t)
      && (NeverBack(remote.timeline, log, o) ==> SurfacesAt(remote.timeline, e.surfaces, t))
  }

  method InspectChain<D(==)>(remote: Remote<D>, build: Build<D>, deployments: map<Role, Deployment>,
                             surfaces: map<Role, string>)
    returns (r: Option<(map<Role, VersionView>, map<Role, Inventory<D>>)>)
    requires remote.Valid() && forall i | 0 <= i < |CHAIN| :: CHAIN[i].0 in deployments && CHAIN[i].0 in surfaces
    modifies remote
    ensures remote.Valid() && old(remote.now) <= remote.now
    ensures Extends(old(remote.log), remote.log, old(remote.now))
    ensures r.Some? ==> |remote.log| == |old(remote.log)| + 12
    ensures r.Some? ==> Inspected(remote.log, |old(remote.log)|, deployments, surfaces, r.value.0, |CHAIN|)
    ensures r.Some? ==> AllReproduced(remote, build, deployments, r.value.1, |CHAIN|)
  {
    hide Reproduced, Recorded;
    var versions: map<Role, VersionView>, provenance: map<Role, Inventory<D>> := map[], map[];
    for n := 0 to |CHAIN|
      invariant remote.Valid() && old(remote.now) <= remote.now
      invariant Extends(old(remote.log), remote.log, old(remote.now))
      invariant |remote.log| == |old(remote.log)| + 4 * n
      invariant Inspected(remote.log, |old(remote.log)|, deployments, surfaces, versions, n)
      invariant AllReproduced(remote, build, deployments, provenance, n)
    {
      var (role, worker) := CHAIN[n];
      var facts := InspectRole(remote, build, worker, deployments[role], surfaces[role]);
      if facts.None? { return None; }
      versions, provenance := versions[role := facts.value.0], provenance[role := facts.value.1];
    }
    r := Some((versions, provenance));
  }

  lemma ReadsJoined<D>(first: seq<Reading>, second: seq<Reading>, log: seq<Reading>, o: nat, e: Evidence<D>)
    requires first <= second <= log && |first| == o + 6 && |second| == o + 18 && |log| == o + 27
    requires Opened(first, o, e.deployments, e.surfaces, |CHAIN|)
    requires Inspected(second, o + 6, e.deployments, e.surfaces, e.versions, |CHAIN|)
    requires Closed(log, o + 18, e.deployments, e.surfaces, e.versions, |CHAIN|)
    ensures ChainReads(log, o, e)
  {
  }

  lemma ChainWindow<D>(remote: Remote<D>, build: Build<D>, log: seq<Reading>, o: nat, e: Evidence<D>)
    requires Recorded(remote.timeline, log) && ChainReads(log, o, e) && FreshIds(remote.timeline)
    requires AllReproduced(remote, build, e.deployments, e.provenance, |CHAIN|)
    ensures log[o].at <= log[o + 5].at <= log[o + 18].at <= log[o + 26].at
    ensures ChainDuring(remote, build, e, log, o, log[o + 5].at, log[o + 18].at)
  {
    hide AllReproduced, FreshIds, NeverBack, LiveAt, SurfacesAt, Opened, Inspected, Closed;
    forall t | log[o + 5].at <= t <= log[o + 18].at
      ensures ChainAt(remote, build, e, t)
      ensures NeverBack(remote.timeline, log, o) ==> SurfacesAt(remote.timeline, e.surfaces, t)
    {
      ChainTogether(remote.timeline, log, o, e, t);
    }
  }

  /** `collect_live_pending_receipt_chain`: the evidence returned was read in this order, and held at one
      instant, in fact during a whole window of the collection, for every Worker of the chain at once. */
  method CollectChain<D(==)>(remote: Remote<D>, build: Build<D>, reviewed: Evidence<D> -> bool)
    returns (r: Option<Evidence<D>>)
    requires remote.Valid() && FreshIds(remote.timeline)
    modifies remote
    ensures remote.Valid() && old(remote.now) <= remote.now
    ensures Extends(old(remote.log), remote.log, old(remote.now))
    ensures r.Some? ==> reviewed(r.value) && ChainReads(remote.log, |old(remote.log)|, r.value)
    ensures r.Some? ==> exists opening, closing ::
                          old(remote.now) <= opening <= closing <= remote.now
                          && ChainDuring(remote, build, r.value, remote.log, |old(remote.log)|, opening, closing)
  {
    hide Reproduced, FreshIds, Recorded, InspectedRole, OpenedRole, ClosedRole;
    ghost var o := |remote.log|;
    var begin := OpenChain(remote);
    if begin.None? { return None; }
    var (deployments, surfaces) := begin.value;
    ghost var first := remote.log;
    var facts := InspectChain(remote, build, deployments, surfaces);
    if facts.None? { return None; }
    var (versions, provenance) := facts.value;
    ghost var second := remote.log;
    var same := CloseChain(remote, deployments, versions, surfaces);
    var evidence := Evidence(deployments, versions, surfaces, provenance);
    if !same || !reviewed(evidence) { return None; }
    ReadsJoined(first, second, remote.log, o, evidence);
    ChainWindow(remote, build, remote.log, o, evidence);
    r := Some(evidence);
  }

  // ----- Quant Ops

  const QUANT_OPS: Worker := "quant-ops-mcp"

  /** `_selected_version` */
  function SelectedVersion(d: Deployment): Option<string> {
    if |d.versions| == 1 && d.versions[0].percentage == 100 && Uuid(d.versions[0].versionId)
    then Some(d.versions[0].versionId)
    else None
  }

  /** Exactly the deployments that route everything to one well-named version select it. */
  lemma SelectedIff(d: Deployment, v: string)
    ensures SelectedVersion(d) == Some(v) <==> d.versions == [Traffic(v, 100)] && Uuid(v)
  {
    if SelectedVersion(d) == Some(v) { assert d.versions == [d.versions[0]]; }
  }

  ghost predicate WorkersSeen(timeline: seq<Account>, workers: seq<Worker>, deployments: map<Worker, Deployment>,
                              from: nat, to: nat) {
    forall w | w in workers :: w in deployments && Seen(timeline, w, deployments[w], from, to)
  }

  method ReadDeployments<D>(remote: Remote<D>, workers: seq<Worker>) returns (r: Option<map<Worker, Deployment>>)
    requires remote.Valid()
    modifies remote
    ensures remote.Valid() && old(remote.now) <= remote.now
    ensures r.Some? ==> WorkersSeen(remote.timeline, workers, r.value, old(remote.now), remote.now)
  {
    var deployments: map<Worker, Deployment> := map[];
    for n := 0 to |workers|
      invariant remote.Valid() && old(remote.now) <= remote.now
      invariant WorkersSeen(remote.timeline, workers[..n], deployments, old(remote.now), remote.now)
    {
      var deployment := remote.ReadDeployment(workers[n]);
      if deployment.None? { return None; }
      deployments := deployments[workers[n] := deployment.value];
      assert Seen(remote.timeline, workers[n], deployment.value, old(remote.now), remote.now);
      assert workers[..n + 1] == workers[..n] + [workers[n]];
    }
    assert workers[..|workers|] == workers;
    r := Some(deployments);
  }

  method ReadVersions<D>(remote: Remote<D>, workers: seq<Worker>, deployments: map<Worker, Deployment>)
    returns (r: Option<map<Worker, VersionView>>)
    requires remote.Valid() && forall w | w in workers :: w in deployments
    modifies remote
    ensures remote.Valid() && old(remote.now) <= remote.now
    ensures r.Some? ==> forall w | w in workers :: w in r.value && SelectedVersion(deployments[w]).Some?
  {
    var versions: map<Worker, VersionView> := map[];
    for n := 0 to |workers|
      invariant remote.Valid() && old(remote.now) <= remote.now
      invariant forall w | w in workers[..n] :: w in versions && SelectedVersion(deployments[w]).Some?
    {
      var versionId := SelectedVersion(deployments[workers[n]]);
      if versionId.None? { return None; }
      var version := remote.ReadVersion(versionId.value);
      if version.None? { return None; }
      versions := versions[workers[n] := version.value];
      assert workers[..n + 1] == workers[..n] + [workers[n]];
    }
    assert workers[..|workers|] == workers;
    r := Some(versions);
  }

  /** Everything that the Quant Ops report says of one instant. */
  ghost predicate QuantAt<D>(remote: Remote<D>, build: Build<D>, workers: seq<Worker>, deployments: map<Worker, Deployment>,
                             inventory: Inventory<D>, t: nat)
  {
    && (forall w | w in workers ::
        w in deployments && |deployments[w].versions| == 1 && deployments[w].versions[0].percentage == 100
        && Live(remote.timeline, w, deployments[w], t))
    && QUANT_OPS in deployments && |deployments[QUANT_OPS].versions| == 1
    && Reproduced(build, remote.modules, QUANT_OPS, deployments[QUANT_OPS].versions[0].versionId, inventory)
  }

  ghost predicate QuantDuring<D>(remote: Remote<D>, build: Build<D>, workers: seq<Worker>,
                                 deployments: map<Worker, Deployment>,
                                 inventory: Inventory<D>, opening: nat, closing: nat)
  {
    forall t | opening <= t <= closing :: QuantAt(remote, build, workers, deployments, inventory, t)
  }

  method SameBrackets(workers: seq<Worker>, deployments: map<Worker, Deployment>, deployments': map<Worker, Deployment>,
                      versions: map<Worker, VersionView>, versions': map<Worker, VersionView>) returns (same: bool)
    requires forall w | w in workers :: w in deployments && w in deployments' && w in versions && w in versions'
    ensures same <==> forall w | w in workers :: deployments[w] == deployments'[w] && versions[w] == versions'[w]
  {
    for n := 0 to |workers|
      invariant forall w | w in workers[..n] :: deployments[w] == deployments'[w] && versions[w] == versions'[w]
    {
      var w := workers[n];
      if deployments[w] != deployments'[w] || versions[w] != versions'[w] { return false; }
      assert workers[..n + 1] == workers[..n] + [w];
    }
    assert workers[..|workers|] == workers;
    same := true;
  }

  /** `collect_live_quant_ops_module` with the deployment and version comparison of
      `validate_live_quant_ops_module`; `reviewed` is the rest of the validation. */
  method CollectQuantOps<D(==)>(remote: Remote<D>, build: Build<D>, workers: seq<Worker>,
                                reviewed: (map<Worker, Deployment>, map<Worker, VersionView>, Inventory<D>) -> bool)
    returns (r: Option<(map<Worker, Deployment>, Inventory<D>)>, ghost versions: map<Worker, VersionView>)
    requires remote.Valid() && FreshIds(remote.timeline) && QUANT_OPS in workers
    modifies remote
    ensures remote.Valid() && old(remote.now) <= remote.now
    ensures r.Some? ==> reviewed(r.value.0, versions, r.value.1)
    ensures r.Some? ==> exists opening, closing ::
                          old(remote.now) <= opening <= closing <= remote.now
                          && QuantDuring(remote, build, workers, r.value.0, r.value.1, opening, closing)
  {
    hide Reproduced, FreshIds, Seen, SelectedVersion, Live, Verified, Bundle, Listing;
    r, versions := None, map[];
    var before := ReadDeployments(remote, workers);
    if before.None? { return; }
    ghost var opening := remote.now;
    var versionsBefore := ReadVersions(remote, workers, before.value);
    if versionsBefore.None? { return; }
    versions := versionsBefore.value;
    var provenance := SourceProvenance(remote, build, QUANT_OPS, SelectedVersion(before.value[QUANT_OPS]).value);
    if provenance.None? { return; }
    var versionsAfter := ReadVersions(remote, workers, before.value);
    if versionsAfter.None? { return; }
    ghost var closing := remote.now;
    var after := ReadDeployments(remote, workers);
    if after.None? { return; }
    var same := SameBrackets(workers, before.value, after.value, versionsBefore.value, versionsAfter.value);
    if !same { return; }
    forall w | w in workers
      ensures |before.value[w].versions| == 1 && before.value[w].versions[0].percentage == 100
      ensures SelectedVersion(before.value[w]) == Some(before.value[w].versions[0].versionId)
    {
      SelectedIff(before.value[w], SelectedVersion(before.value[w]).value);
    }
    forall w, t | w in workers && opening <= t <= closing ensures Live(remote.timeline, w, before.value[w], t) {
      LiveThroughout(remote.timeline, w, before.value[w], old(remote.now), opening, closing, remote.now);
    }
    if !reviewed(before.value, versionsBefore.value, provenance.value) { return; }
    assert QuantDuring(remote, build, workers, before.value, provenance.value, opening, closing);
    r := Some((before.value, provenance.value));
  }

  // ----- what comes back

  /** Evidence with a surface, a deployment of one version and that version's document for every role. */
  ghost predicate Complete<D>(e: Evidence<D>) {
    && (forall i | 0 <= i < |CHAIN| ::
        var role := CHAIN[i].0;
        && role in e.deployments && role in e.surfaces && role in e.versions
        && |e.deployments[role].versions| == 1 && Uuid(e.versions[role].id)
        && e.deployments[role].versions[0].versionId == e.versions[role].id)
    && forall i, j | 0 <= i < j < |CHAIN| :: e.versions[CHAIN[i].0].id != e.versions[CHAIN[j].0].id
  }

  /** An account with the evidence's deployments and versions. */
  function AccountOf<D>(e: Evidence<D>, surfaces: map<Worker, string>): Account
    requires Complete(e)
  {
    var (a, b, c) := (CHAIN[0], CHAIN[1], CHAIN[2]);
    Account(map[a.1 := e.deployments[a.0], b.1 := e.deployments[b.0], c.1 := e.deployments[c.0]],
            map[e.versions[a.0].id := e.versions[a.0], e.versions[b.0].id := e.versions[b.0],
                e.versions[c.0].id := e.versions[c.0]],
            surfaces)
  }

  /** What read k of a successful collection tells. */
  function FactOf<D>(e: Evidence<D>, k: nat): Fact
    requires Complete(e) && k < 27
  {
    if k < 6 then
      if k % 2 == 0 then DeploymentOf(e, k / 2) else SurfaceOf(e, k / 2)
    else if k < 18 then
      if k % 4 == 1 then DeploymentOf(e, (k - 6) / 4) else if k % 4 == 3 then SurfaceOf(e, (k - 6) / 4)
      else ViewOf(e, (k - 6) / 4)
    else
      if k % 3 == 0 then DeploymentOf(e, (k - 18) / 3) else if k % 3 == 1 then ViewOf(e, (k - 18) / 3)
      else SurfaceOf(e, (k - 18) / 3)
  }

  function DeploymentOf<D>(e: Evidence<D>, i: nat): Fact
    requires Complete(e) && i < |CHAIN|
  {
    DeploymentIs(CHAIN[i].1, e.deployments[CHAIN[i].0])
  }

  function ViewOf<D>(e: Evidence<D>, i: nat): Fact
    requires Complete(e) && i < |CHAIN|
  {
    ViewIs(e.versions[CHAIN[i].0].id, e.versions[CHAIN[i].0])
  }

  function SurfaceOf<D>(e: Evidence<D>, i: nat): Fact
    requires Complete(e) && i < |CHAIN|
  {
    SurfaceIs(CHAIN[i].1, e.surfaces[CHAIN[i].0])
  }

  /** The surfaces while the first two Workers take turns in showing the accepted one. */
  function Turns<D>(e: Evidence<D>, other: string, t: nat): map<Worker, string>
    requires Complete(e)
  {
    map[CHAIN[0].1 := if t % 2 == 0 then e.surfaces[CHAIN[0].0] else other,
        CHAIN[1].1 := if t % 2 == 1 then e.surfaces[CHAIN[1].0] else other,
        CHAIN[2].1 := e.surfaces[CHAIN[2].0]]
  }

  /** The instant of read k: the first Worker is read at even instants, the others at odd ones. */
  function Instant(k: nat): (t: nat)
    ensures t < 6
  {
    if k < 2 then 0 else if k < 6 then 1 else if k < 10 then 2 else if k < 18 then 3 else if k < 21 then 4 else 5
  }

  /** Without that assumption there is no common instant of the surfaces: any complete evidence can be read, in
      the collector's order and with every comparison succeeding, from an account whose deployments never
      change and that never shows the accepted surfaces together. */
  lemma SurfacesNeverTogether<D>(e: Evidence<D>, other: string) returns (timeline: seq<Account>, log: seq<Reading>)
    requires Complete(e) && other != e.surfaces[CHAIN[0].0] && other != e.surfaces[CHAIN[1].0]
    ensures FreshIds(timeline) && Recorded(timeline, log) && ChainReads(log, 0, e)
    ensures forall t: nat :: !SurfacesAt(timeline, e.surfaces, t)
  {
    hide AccountOf, Turns, FactOf, Shows, FreshIds, Instant, ChainReads, SurfacesAt;
    timeline := seq(6, t requires 0 <= t < 6 => AccountOf(e, Turns(e, other, t)));
    log := seq(27, k requires 0 <= k < 27 => Reading(Instant(k), FactOf(e, k)));
    forall k | 0 <= k < 27 ensures Shows(timeline[log[k].at], log[k].fact) {
      ReadInTurn(e, other, k);
    }
    OneByOne();
    InOrderOfChain(e, log);
    SameDeployments(e, other, timeline);
    forall t: nat ensures !SurfacesAt(timeline, e.surfaces, t) {
      NotTogether(e, other, timeline, t);
    }
  }

  lemma NotTogether<D>(e: Evidence<D>, other: string, timeline: seq<Account>, t: nat)
    requires Complete(e) && other != e.surfaces[CHAIN[0].0] && other != e.surfaces[CHAIN[1].0]
    requires forall t | 0 <= t < |timeline| :: timeline[t] == AccountOf(e, Turns(e, other, t))
    ensures !SurfacesAt(timeline, e.surfaces, t)
  {
    if t < |timeline| {
      var (role, worker) := CHAIN[1 - t % 2];
      assert Lookup(timeline[t].surfaces, worker) == Some(other);
    }
  }

  lemma OneByOne()
    ensures forall i, j | 0 <= i < j < 27 :: Instant(i) <= Instant(j)
  {
  }

  lemma SameDeployments<D>(e: Evidence<D>, other: string, timeline: seq<Account>)
    requires Complete(e) && forall t | 0 <= t < |timeline| :: timeline[t] == AccountOf(e, Turns(e, other, t))
    ensures FreshIds(timeline)
  {
  }

  lemma InOrderOfChain<D>(e: Evidence<D>, log: seq<Reading>)
    requires Complete(e) && |log| == 27 && forall k | 0 <= k < 27 :: log[k].fact == FactOf(e, k)
    ensures ChainReads(log, 0, e)
  {
    hide FactOf, OpenedRole, InspectedRole, ClosedRole;
    forall i | 0 <= i < |CHAIN| { RoleInOrder(e, log, i); }
  }

  lemma RoleInOrder<D>(e: Evidence<D>, log: seq<Reading>, i: nat)
    requires Complete(e) && i < |CHAIN| && |log| == 27 && forall k | 0 <= k < 27 :: log[k].fact == FactOf(e, k)
    ensures OpenedRole(log, 2 * i, CHAIN[i].1, e.deployments[CHAIN[i].0], e.surfaces[CHAIN[i].0])
    ensures InspectedRole(log, 6 + 4 * i, CHAIN[i].1, e.deployments[CHAIN[i].0], e.surfaces[CHAIN[i].0],
                          e.versions[CHAIN[i].0])
    ensures ClosedRole(log, 18 + 3 * i, CHAIN[i].1, e.deployments[CHAIN[i].0], e.surfaces[CHAIN[i].0],
                       e.versions[CHAIN[i].0])
  {
    hide FactOf;
    FactsInOrder(e, i);
  }

  lemma FactsInOrder<D>(e: Evidence<D>, i: nat)
    requires Complete(e) && i < |CHAIN|
    ensures FactOf(e, 2 * i) == FactOf(e, 9 + 4 * i) == FactOf(e, 18 + 3 * i) == DeploymentOf(e, i)
    ensures FactOf(e, 2 * i + 1) == FactOf(e, 7 + 4 * i) == FactOf(e, 20 + 3 * i) == SurfaceOf(e, i)
    ensures FactOf(e, 6 + 4 * i) == FactOf(e, 8 + 4 * i) == FactOf(e, 19 + 3 * i) == ViewOf(e, i)
  {
    hide Complete;
  }

  lemma ReadInTurn<D>(e: Evidence<D>, other: string, k: nat)
    requires Complete(e) && k < 27
    ensures Shows(AccountOf(e, Turns(e, other, Instant(k))), FactOf(e, k))
  {
    hide AccountOf, Turns, Shows, Complete, ViewOf, SurfaceOf, DeploymentOf;
    var i := if k < 6 then k / 2 else if k < 18 then (k - 6) / 4 else (k - 18) / 3;
    RoleInTurn(e, other, i, Instant(k));
  }

  lemma RoleInTurn<D>(e: Evidence<D>, other: string, i: nat, t: nat)
    requires Complete(e) && i < |CHAIN|
    ensures Shows(AccountOf(e, Turns(e, other, t)), DeploymentOf(e, i))
    ensures Shows(AccountOf(e, Turns(e, other, t)), ViewOf(e, i))
    ensures i == 2 || t % 2 == i ==> Shows(AccountOf(e, Turns(e, other, t)), SurfaceOf(e, i))
  {
  }
}
