/**
  `--prepare-staging-schema`: stop Cron, drain, pause the Queue, migrate under the lease, then put the
  surfaces back and release.  Any outside call may fail, before or after it took effect; the lease is
  the protocol of `LeaseProtocol` with everybody else interfering.
 */
module StagingPrep {
  import opened Outcomes
  import opened LeaseRow
  import opened LeaseProtocol
  import opened LeaseClient

  datatype ControlPhase = Bridge | V3Active

  datatype Version = Version(versionId: string, deploymentId: string, tag: string)

  /** One `_observe()`: the surface together with migration, job and control state. */
  datatype Observation = Observation(
    schedules: seq<string>, paused: bool, version: Version,
    backlog: nat, jobs: seq<Option<nat>>,
    applied: seq<string>, pending: seq<string>, missingTables: seq<string>,
    control: Option<ControlPhase>)

  datatype Intent = Intent(priorSchedules: seq<string>, priorPaused: bool, priorVersion: Version, token: Token)

  datatype Result = Prepared(exact: Observation) | Refused

  /** `_require_drained`: a table that does not exist yet is accepted before the migration only. */
  ghost predicate Drained(o: Observation, afterMigration: bool, names: seq<string>) {
    && o.backlog == 0
    && (forall i | 0 <= i < |o.jobs| :: o.jobs[i] == Some(0) || (o.jobs[i].None? && !afterMigration))
    && (afterMigration ==> ExactMigrations(o, names))
  }

  ghost predicate ExactMigrations(o: Observation, names: seq<string>) {
    o.pending == [] && o.applied == names && o.missingTables == []
  }

  method RequireDrained(o: Observation, afterMigration: bool, names: seq<string>) returns (ok: bool)
    ensures ok <==> Drained(o, afterMigration, names)
  {
    if o.backlog != 0 { return false; }
    for i := 0 to |o.jobs|
      invariant forall k | 0 <= k < i :: o.jobs[k] == Some(0) || (o.jobs[k].None? && !afterMigration)
    {
      if o.jobs[i].None? && !afterMigration { continue; }
      if o.jobs[i] != Some(0) { return false; }
    }
    ok := !(afterMigration && (o.pending != [] || o.applied != names || o.missingTables != []));
  }

  class Site {
    const remote: Remote
    const identity: Identity
    const names: seq<string>
    var cron: seq<string>
    var paused: bool
    var intent: Option<Intent>
    var receipt: bool

    constructor (remote: Remote, identity: Identity, names: seq<string>, cron: seq<string>, paused: bool)
      ensures this.remote == remote && this.cron == cron && this.paused == paused && intent.None?
    {
      this.remote, this.identity, this.names := remote, identity, names;
      this.cron, this.paused, this.intent, this.receipt := cron, paused, None, false;
    }

    /** Nobody else touches this Worker's Cron and Queue; everything else is as the world has it. */
    method Observe() returns (o: Option<Observation>)
      ensures o.Some? ==> o.value.schedules == cron && o.value.paused == paused
    {
      var readable: bool := *;
      if !readable { return None; }
      var seen: Observation := *;
      o := Some(seen.(schedules := cron, paused := paused));
    }

    /** What the reply says of a request is not trusted; only reading back tells. */
    method SetSchedules(schedules: seq<string>) returns (ok: bool)
      modifies this`cron
      ensures cron == schedules || cron == old(cron)
    {
      var reached: bool := *;
      if reached { cron := schedules; }
      ok := *;
    }

    method QueueAction(pause: bool) returns (ok: bool)
      modifies this`paused
      ensures paused == pause || paused == old(paused)
    {
      var reached: bool := *;
      if reached { paused := pause; }
      ok := *;
    }

    /** `_control_intent`: created once from the observed surface, loaded ever after. */
    method ControlIntent(baseline: Observation, token: Token) returns (ok: bool)
      modifies this`intent
      ensures old(intent).Some? ==> intent == old(intent)
      ensures old(intent).None? ==>
                intent.None? || intent == Some(Intent(baseline.schedules, baseline.paused, baseline.version, token))
      ensures ok ==> intent.Some? && IsToken(intent.value.token)
    {
      if intent.None? {
        var linked: bool := *;
        if !linked { return false; }
        intent := Some(Intent(baseline.schedules, baseline.paused, baseline.version, token));
      }
      var sound: bool := *;
      ok := sound && IsToken(intent.value.token);
    }

    /** `_restore_jsda_surface`: both halves are tried, each is read back; true when no error was collected. */
    method Restore() returns (ok: bool)
      requires intent.Some?
      modifies this`cron, this`paused
      ensures ok ==> cron == intent.value.priorSchedules && paused == intent.value.priorPaused
    {
      ok := QueueAction(intent.value.priorPaused);
      if ok {
        var o := Observe();
        ok := o.Some? && o.value.paused == intent.value.priorPaused;
      }
      var cronOk := SetSchedules(intent.value.priorSchedules);
      if cronOk {
        var o := Observe();
        cronOk := o.Some? && o.value.schedules == intent.value.priorSchedules;
      }
      ok := ok && cronOk;
    }

    /** The read of the lease on which the cutover decides whether it may go on. */
    method ReadLease(t: Token) returns (row: Option<Row>)
      requires remote.Valid() && IsToken(t) && At(remote.s, t).pc.Idle?
      modifies remote
      ensures remote.Valid() && old(remote.run) <= remote.run && At(remote.s, t).pc.Idle?
      ensures row.Some? ==>
                At(remote.s, t).armed ==
                (row.value.phase.Vacant? || (row.value.token == t && row.value.phase.Acquired? && !row.value.spawned))
    {
      row := remote.ObserveLease(t);
      if row.Some? { remote.Take(ReadGuard(t)); }
    }

    /** `bootstrap_mutation_lease_authority`: the row exists, and is vacant or the caller's own unspawned one. */
    method Bootstrap(t: Token) returns (ok: bool)
      requires remote.Valid() && IsToken(t) && At(remote.s, t).pc.Idle?
      modifies remote
      ensures remote.Valid() && old(remote.run) <= remote.run && At(remote.s, t).pc.Idle?
      ensures ok ==> At(remote.s, t).armed
    {
      var row := ReadLease(t);
      if row.None? {
        var created: bool := *;
        if !created { return false; }
        row := ReadLease(t);
      }
      ok := row.Some? &&
            (row.value.phase.Vacant? || (row.value.token == t && row.value.phase.Acquired? && !row.value.spawned));
    }

    /** Stop Cron, look twice, pause the Queue, and look again. */
    method Quiesce() returns (quiesced: Option<Observation>, ghost looks: seq<Observation>)
      requires intent.Some?
      modifies this`cron, this`paused
      ensures quiesced.Some? ==> cron == [] && paused
      ensures quiesced.Some? ==> |looks| == 3 && looks[2] == quiesced.value
                                 && forall i | 0 <= i < 3 :: Drained(looks[i], false, names)
      ensures quiesced.Some? ==> looks[2].schedules == [] && looks[2].paused
    {
      hide Drained;
      looks := [];
      if intent.value.priorSchedules != [] {
        var stopped := SetSchedules([]);
        if !stopped { return None, []; }
      }
      var first := Observe();
      var second := Observe();
      if first.None? || second.None? { return None, []; }
      var drained := RequireDrained(first.value, false, names);
      if !drained { return None, []; }
      drained := RequireDrained(second.value, false, names);
      if !drained { return None, []; }
      if !second.value.paused {
        var halted := QueueAction(true);
        if !halted { return None, []; }
      }
      quiesced := Observe();
      if quiesced.None? || quiesced.value.schedules != [] || !quiesced.value.paused { return None, []; }
      drained := RequireDrained(quiesced.value, false, names);
      if !drained { return None, []; }
      looks := [first.value, second.value, quiesced.value];
    }

    /** The body of the `try` up to the migration: quiesce, record the bookmark, take the lease, migrate. */
    method QuiesceAndMigrate(t: Token, owned: bool) returns (ok: bool, acquired: bool)
      requires remote.Valid() && IsToken(t) && At(remote.s, t).pc.Idle? && intent.Some?
      requires owned ==> At(remote.s, t).armed
      modifies remote, this`cron, this`paused, this`receipt
      ensures remote.Valid() && old(remote.run) <= remote.run && At(remote.s, t).pc.Idle?
      ensures ok ==> acquired && receipt
      ensures ok ==> cron == [] && paused
    {
      hide Drained;
      acquired := owned;
      ghost var looks: seq<Observation>;
      var quiesced: Option<Observation>;
      quiesced, looks := Quiesce();
      if quiesced.None? { return false, acquired; }
      if !receipt {
        var saved: bool := *;
        if !saved { return false, acquired; }
        receipt := true;
      }
      if !owned {
        ok := Bootstrap(t);
        if !ok { return; }
        ok := remote.AcquireAuthorized(t, identity);
        if !ok { return; }
        acquired := true;
      }
      ok := true;
      if quiesced.value.pending != [] {
        var p: nat;
        ok, p := remote.ApplyRemoteMigrations(t, identity);
      }
    }

    /** The checks after the migration. */
    method VerifyBridge() returns (exact: Option<Observation>, ghost probed: bool)
      ensures exact.Some? ==> Drained(exact.value, true, names) && exact.value.control == Some(Bridge) && probed
    {
      exact := Observe();
      probed := false;
      if exact.Some? {
        var present: bool := *;
        probed := present;
        var drained := RequireDrained(exact.value, true, names);
        if !drained || exact.value.control != Some(Bridge) || !present { exact := None; }
      }
    }

    /** `_execute_staging_schema_prep`, without the incident repair.  `admitted` is what was read of surface and
        lease when the preparation went ahead; otherwise the surface is not touched. */
    method Prepare(token: Token)
      returns (result: Result, t: Token, ghost admitted: Option<(Observation, Option<Row>)>)
      requires remote.Valid() && (intent.None? ==> IsToken(token))
      requires At(remote.s, if intent.Some? then intent.value.token else token).pc.Idle?
      modifies this, remote
      ensures remote.Valid() && old(remote.run) <= remote.run
      ensures result.Prepared? ==> ExactMigrations(result.exact, names) && result.exact.control == Some(Bridge)
      ensures result.Prepared? ==> cron == old(cron) && paused == old(paused)
      ensures result.Prepared? ==> (Vacant, false) in At(remote.s, t).during && intent.None?
      ensures UnfinishedHolds(remote.s, t)
      ensures admitted.None? ==> result.Refused? && cron == old(cron) && paused == old(paused)
      ensures admitted.Some? ==>
                var (baseline, lease) := admitted.value;
                && baseline.schedules == old(cron) && baseline.paused == old(paused)
                && baseline.control != Some(V3Active)
                && (old(intent).Some? ==>
                      && old(intent).value.priorSchedules == baseline.schedules
                      && old(intent).value.priorPaused == baseline.paused
                      && old(intent).value.priorVersion == baseline.version)
                && (lease.Some? ==>
                      || lease.value.phase == Vacant
                      || (lease.value.token == t && lease.value.phase in {Acquired, Verifying} && !lease.value.spawned))
                && (lease.Some? && lease.value.phase == Verifying ==> baseline.pending == [] && old(receipt))
    {
      admitted := None;
      t := if intent.Some? then intent.value.token else token;
      result := Refused;
      UnfinishedHeld(remote.run, remote.s, t);
      var baseline := Observe();
      if baseline.None? || baseline.value.control == Some(V3Active) { return; }
      var ok := ControlIntent(baseline.value, token);
      if !ok { return; }
      if intent.value.priorSchedules != baseline.value.schedules || intent.value.priorVersion != baseline.value.version
         || intent.value.priorPaused != baseline.value.paused { return; }
      var lease := ReadLease(t);
      UnfinishedHeld(remote.run, remote.s, t);
      var owned := && lease.Some? && lease.value.token == t
                   && (lease.value.phase.Acquired? || lease.value.phase.Verifying?) && !lease.value.spawned;
      if lease.Some? && !lease.value.phase.Vacant? && !owned { return; }
      var skipApply := owned && lease.value.phase.Verifying?;
      if skipApply && (baseline.value.pending != [] || !receipt) { return; }
      admitted := Some((baseline.value, lease));
      result := Attempt(t, owned, skipApply);
      UnfinishedHeld(remote.run, remote.s, t);
    }

    /** The `try` with its `finally`: restore in any case, release what was acquired, and only then report. */
    method Attempt(t: Token, owned: bool, skipApply: bool) returns (result: Result)
      requires remote.Valid() && IsToken(t) && At(remote.s, t).pc.Idle? && intent.Some?
      requires owned && !skipApply ==> At(remote.s, t).armed
      requires skipApply ==> owned && receipt
      modifies this, remote
      ensures remote.Valid() && old(remote.run) <= remote.run
      ensures result.Prepared? ==> ExactMigrations(result.exact, names) && result.exact.control == Some(Bridge)
      ensures result.Prepared? ==> cron == old(intent).value.priorSchedules && paused == old(intent).value.priorPaused
      ensures result.Prepared? ==> (Vacant, false) in At(remote.s, t).during && intent.None?
    {
      var primary := false;
      var acquired := false;
      var exact: Option<Observation> := None;
      if owned {
        acquired := remote.ResumeOwned(t, identity);
        primary := !acquired;
      }
      if !primary && !skipApply {
        var ok: bool;
        ok, acquired := QuiesceAndMigrate(t, owned);
        primary := !ok;
      }
      if !primary {
        ghost var probed: bool;
        exact, probed := VerifyBridge();
        primary := exact.None?;
      }
      var clean := Restore();
      if acquired {
        var released := remote.ReleaseLease(t, false);
        clean := clean && released;
      }
      if !primary && clean && receipt {
        var removed: bool := *;
        if removed { intent := None; }
        clean := removed;
      }
      result := if !primary && clean then Prepared(exact.value) else Refused;
    }
  }
}
