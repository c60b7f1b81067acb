/**
  The capability objects and the two private registries.  Anybody may hold, copy or forge the objects;
  only registered ones are honoured.  Every method is tied to the call sequences of `ExportProtocol`.
 */
module ExportAuthority {
  import opened Outcomes
  import opened ExportProtocol
  import opened Fingerprint

  /** `_PinnedWranglerExport`.  `intact` stands for what the identity checks of file and connection say. */
  class Pinned {
    ghost const id: nat
    const exportDigest: string
    const baseline: Reading
    var claimed: bool
    var authenticated: bool
    var closed: bool
    var intact: bool

    constructor (ghost id: nat, exportDigest: string, baseline: Reading)
      ensures this.id == id && this.exportDigest == exportDigest && this.baseline == baseline
      ensures !claimed && !authenticated && !closed && intact
    {
      this.id, this.exportDigest, this.baseline := id, exportDigest, baseline;
      claimed, authenticated, closed, intact := false, false, false, true;
    }
  }

  /** `_AuthenticatedWranglerExport` */
  class Certificate {
    ghost const id: nat
    const facts: Facts
    var consumed: bool

    constructor (ghost id: nat, facts: Facts)
      ensures this.id == id && this.facts == facts && !consumed
    {
      this.id, this.facts := id, facts;
      consumed := false;
    }
  }

  /** Source and local mirror as the reconciliation finds them, with the hashes it uses. */
  datatype Databases<!V(==), !S, !D(==)> = Databases(
    h: Hashing<V, D>, replicate: Replicate<S>, digest: map<string, (nat, D)> -> string, shadowed: bool,
    source: map<string, Table<V, S>>, local: map<string, Table<V, S>>, tables: seq<string>,
    sourceSchema: string, localSchema: string, sourceCursor: nat, localCursor: nat)

  ghost predicate Readable<V, S, D>(d: Databases<V, S, D>) {
    Wellformed(d.source) && Wellformed(d.local) && CollisionFree(d.h, d.source, d.local)
  }

  /** All governed tables are reconciled. */
  ghost predicate AllReconciled<V, S, D>(d: Databases<V, S, D>)
    requires Readable(d)
  {
    !d.shadowed && forall i | 0 <= i < |d.tables| :: Reconciled(d.h, d.replicate, d.source, d.local, d.tables[i])
  }

  function CountsOf<D>(inventory: map<string, (nat, D)>): map<string, nat> {
    map name | name in inventory :: inventory[name].0
  }

  /** The reconciliation of source and local mirror: the readings of both, when all tables agree. */
  method Reconcile<V, S(==), D>(d: Databases<V, S, D>) returns (r: Option<(Reading, Reading)>)
    requires Readable(d)
    ensures r.Some? <==> AllReconciled(d)
    ensures r.Some? ==> r.value.0.content == r.value.1.content && r.value.0.counts == r.value.1.counts
    ensures r.Some? ==> r.value.0.schema == d.sourceSchema && r.value.0.cursor == d.sourceCursor
    ensures r.Some? ==> r.value.1.schema == d.localSchema && r.value.1.cursor == d.localCursor
  {
    hide Reconciled, CollisionFree, Wellformed;
    var inventory := ExactReconciliation(d.h, d.replicate, d.shadowed, d.source, d.local, d.tables);
    if inventory.Err? { return None; }
    var content, counts := d.digest(inventory.value), CountsOf(inventory.value);
    r := Some((Reading(content, d.sourceSchema, counts, d.sourceCursor),
               Reading(content, d.localSchema, counts, d.localCursor)));
  }

  class Authority {
    var acquired: set<Pinned>
    var certified: set<Certificate>
    ghost var pinned: seq<Pinned>
    ghost var minted: seq<Certificate>
    ghost var calls: seq<Call>

    /** The state that the calls so far lead to. */
    ghost function Now(): State
      reads this
    {
      Ran(START, calls)
    }

    ghost predicate ExportShown(i: nat)
      requires i < |pinned|
      reads this, pinned
    {
      && i < |Now().exports| && pinned[i].id == i
      && Now().exports[i] == Export(pinned[i].exportDigest, pinned[i].baseline, pinned[i] in acquired,
                                    pinned[i].claimed, pinned[i].authenticated, pinned[i].closed, pinned[i].intact)
    }

    ghost predicate CertShown(i: nat)
      requires i < |minted|
      reads this, minted
    {
      && i < |Now().certs| && minted[i].id == i && Now().certs[i].facts == minted[i].facts
      && Now().certs[i].registered == (minted[i] in certified) && Now().certs[i].consumed == minted[i].consumed
    }

    /** The objects show exactly what the call sequence leads to. */
    ghost predicate Valid()
      reads this, pinned, minted
    {
      && |pinned| == |Now().exports| && |minted| == |Now().certs|
      && (forall i | 0 <= i < |pinned| :: ExportShown(i)) && (forall i | 0 <= i < |minted| :: CertShown(i))
      && (forall e | e in acquired :: e in pinned) && (forall c | c in certified :: c in minted)
    }

    constructor ()
      ensures Valid() && calls == []
    {
      acquired, certified, pinned, minted, calls := {}, {}, [], [], [];
    }

    ghost method Note(call: Call)
      modifies `calls
      ensures calls == old(calls) + [call] && Now() == Apply(old(Now()), call)
    {
      assert (calls + [call])[..|calls|] == calls;
      calls := calls + [call];
    }

    /** The governed acquisition, at its end. */
    method Acquire(exportDigest: string, baseline: Reading) returns (e: Pinned)
      requires Valid()
      modifies this
      ensures Valid() && fresh(e) && e in acquired && e.id == |old(pinned)| && pinned == old(pinned) + [e]
      ensures calls == old(calls) + [Call.Acquire(exportDigest, baseline)]
    {
      e := new Pinned(|pinned|, exportDigest, baseline);
      acquired := acquired + {e};
      pinned := pinned + [e];
      Note(Call.Acquire(exportDigest, baseline));
      forall i | 0 <= i < |pinned| ensures ExportShown(i) {
        if i < |old(pinned)| { assert old(ExportShown(i)); }
      }
      forall i | 0 <= i < |minted| ensures CertShown(i) {
        assert old(CertShown(i));
      }
    }

    /** File or connection lose their identity, or get it back. */
    method Disturb(e: Pinned, intact: bool)
      requires Valid() && e in pinned
      modifies this, e
      ensures Valid() && calls == old(calls) + [Call.Disturb(e.id, intact)]
    {
      NumberOf(e);
      e.intact := intact;
      Note(Call.Disturb(e.id, intact));
      forall i | 0 <= i < |pinned| ensures ExportShown(i) {
        assert old(ExportShown(i));
      }
      forall i | 0 <= i < |minted| ensures CertShown(i) {
        assert old(CertShown(i));
      }
    }

    lemma NumberOf(e: Pinned)
      requires Valid() && e in pinned
      ensures e.id < |pinned| && pinned[e.id] == e && ExportShown(e.id)
    {
      var i :| 0 <= i < |pinned| && pinned[i] == e;
      assert ExportShown(i);
    }

    /** `_require_acquired`, as the first part of a call: a failed identity check revokes the export. */
    method RequireAcquired(e: Pinned) returns (outcome: Outcome)
      modifies `acquired, e`closed
      ensures outcome == if e !in old(acquired) then NotAcquired else if !e.intact then IdentityLost else Granted
      ensures acquired == if outcome.IdentityLost? then old(acquired) - {e} else old(acquired)
      ensures e.closed == (old(e.closed) || outcome.IdentityLost?)
    {
      if e !in acquired { return NotAcquired; }
      if e.intact { return Granted; }
      acquired := acquired - {e};
      e.closed := true;
      outcome := IdentityLost;
    }

    /** `open_source`: once. */
    method OpenSource(e: Pinned) returns (outcome: Outcome)
      requires Valid()
      modifies this, e
      ensures Valid()
      ensures e in old(pinned) ==>
                outcome == OutcomeOf(old(Now()), Call.OpenSource(e.id)) && calls == old(calls) + [Call.OpenSource(e.id)]
      ensures e !in old(pinned) ==> outcome == NotAcquired && calls == old(calls)
    {
      if e in pinned { NumberOf(e); }
      outcome := RequireAcquired(e);
      if outcome.Granted? {
        if e.claimed {
          outcome := Refused;
        } else {
          e.claimed := true;
        }
      }
      if e in pinned { Note(Call.OpenSource(e.id)); }
      forall i | 0 <= i < |pinned| ensures ExportShown(i) {
        assert old(ExportShown(i));
      }
      forall i | 0 <= i < |minted| ensures CertShown(i) {
        assert old(CertShown(i));
      }
    }

    /** The checks of `authenticate_local` between its two identity checks, and what they were told. */
    method Examine<V, S(==), D>(e: Pinned, d: Databases<V, S, D>) returns (ok: bool, a: Answers)
      requires Readable(d)
      ensures ok <==> Passes(e.baseline, a)
      ensures a.localCursor == d.localCursor && (a.reconciled.Some? ==> AllReconciled(d))
    {
      hide AllReconciled, Readable;
      a := *;
      a := a.(localCursor := d.localCursor, reconciled := None);
      if a.first != e.baseline || a.first.cursor != d.localCursor { return false, a; }
      var both := Reconcile(d);
      if both.None? { return false, a; }
      a := a.(reconciled := both);
      var (source, local) := both.value;
      ok := a.final == e.baseline && source.content == e.baseline.content && source.schema == e.baseline.schema
            && source.counts == e.baseline.counts;
    }

    /** Minting a certificate and retiring the export. */
    method Certify(e: Pinned, syncKind: string, a: Answers) returns (c: Certificate)
      requires a.reconciled.Some?
      modifies this, e
      ensures fresh(c) && c.id == |old(minted)| && !c.consumed && minted == old(minted) + [c]
      ensures c.facts ==
              FactsOf(Export(e.exportDigest, e.baseline, true, e.claimed, e.authenticated, e.closed, e.intact), syncKind, a)
      ensures acquired == old(acquired) - {e} && certified == old(certified) + {c}
      ensures pinned == old(pinned) && calls == old(calls)
      ensures e.authenticated && e.claimed == old(e.claimed) && e.closed == old(e.closed) && e.intact == old(e.intact)
    {
      var (source, local) := a.reconciled.value;
      c := new Certificate(|minted|, Facts(syncKind, e.exportDigest, a.first.cursor, a.localCursor, source.content,
                                           source.content, source.schema, local.schema, source.counts));
      certified := certified + {c};
      minted := minted + [c];
      e.authenticated := true;
      acquired := acquired - {e};
    }

    /** `authenticate_local` after its first identity check. */
    method Decide<V, S(==), D>(e: Pinned, canonicalTables: bool, syncKind: string, d: Databases<V, S, D>)
      returns (outcome: Outcome, a: Answers, c: Certificate?)
      requires Readable(d) && e.intact
      modifies this, e
      ensures pinned == old(pinned) && calls == old(calls) && e.claimed == old(e.claimed) && e.closed == old(e.closed)
      ensures outcome == if old(e.authenticated) || !e.claimed || !canonicalTables || !Passes(e.baseline, a) then Refused
                         else if !a.lateIntact then LateIdentityFailure
                         else if !a.policyUnchanged then Refused else Granted
      ensures a.localCursor == d.localCursor && (a.reconciled.Some? ==> AllReconciled(d))
      ensures e.intact == !outcome.LateIdentityFailure? && e.authenticated == (old(e.authenticated) || outcome.Granted?)
      ensures outcome.Granted? <==> c != null
      ensures c == null ==> acquired == old(acquired) && certified == old(certified) && minted == old(minted)
      ensures c != null ==>
                && acquired == old(acquired) - {e} && certified == old(certified) + {c} && minted == old(minted) + [c]
                && fresh(c) && c.id == |old(minted)| && !c.consumed && a.reconciled.Some?
                && c.facts ==
                   FactsOf(Export(e.exportDigest, e.baseline, true, e.claimed, false, e.closed, true), syncKind, a)
    {
      hide AllReconciled, Readable, Passes;
      a := *;
      a := a.(localCursor := d.localCursor, reconciled := None);
      NothingReconciled(e.baseline, a);
      if e.authenticated || !e.claimed || !canonicalTables { return Refused, a, null; }
      var ok: bool;
      ok, a := Examine(e, d);
      if !ok { return Refused, a, null; }
      e.intact := a.lateIntact;
      if !e.intact { return LateIdentityFailure, a, null; }
      if !a.policyUnchanged { return Refused, a, null; }
      PassedReconciled(e.baseline, a);
      var certificate := Certify(e, syncKind, a);
      outcome, c := Granted, certificate;
    }

    /** `authenticate_local` as far as the objects go. */
    method Attempt<V, S(==), D>(e: Pinned, canonicalTables: bool, syncKind: string, d: Databases<V, S, D>)
      returns (outcome: Outcome, a: Answers, c: Certificate?)
      requires Readable(d)
      modifies this, e
      ensures pinned == old(pinned) && calls == old(calls) && e.claimed == old(e.claimed)
      ensures outcome == if e !in old(acquired) then NotAcquired
                         else if !old(e.intact) then IdentityLost
                         else if old(e.authenticated) || !e.claimed || !canonicalTables || !Passes(e.baseline, a)
                              then Refused
                         else if !a.lateIntact then LateIdentityFailure
                         else if !a.policyUnchanged then Refused else Granted
      ensures a.localCursor == d.localCursor && (a.reconciled.Some? ==> AllReconciled(d))
      ensures e.closed == (old(e.closed) || outcome.IdentityLost?)
      ensures e.intact == (old(e.intact) && !outcome.LateIdentityFailure?)
      ensures e.authenticated == (old(e.authenticated) || outcome.Granted?)
      ensures acquired == if outcome.IdentityLost? || outcome.Granted? then old(acquired) - {e} else old(acquired)
      ensures outcome.Granted? <==> c != null
      ensures c == null ==> certified == old(certified) && minted == old(minted)
      ensures c != null ==>
                && certified == old(certified) + {c} && minted == old(minted) + [c]
                && fresh(c) && c.id == |old(minted)| && !c.consumed && a.reconciled.Some?
                && c.facts ==
                   FactsOf(Export(e.exportDigest, e.baseline, true, e.claimed, false, e.closed, true), syncKind, a)
    {
      hide AllReconciled, Readable, Passes, FactsOf;
      outcome := RequireAcquired(e);
      c := null;
      a := *;
      a := a.(localCursor := d.localCursor, reconciled := None);
      if outcome.Granted? {
        outcome, a, c := Decide(e, canonicalTables, syncKind, d);
      }
    }

    /** The call was made, with answers under which a grant needs all governed tables reconciled. */
    ghost predicate Authenticated<V, S, D>(before: seq<Call>, e: Pinned, canonicalTables: bool, syncKind: string,
                                           d: Databases<V, S, D>, outcome: Outcome)
      requires Readable(d)
      reads this
    {
      exists a: Answers ::
        && calls == before + [Authenticate(e.id, canonicalTables, syncKind, a)]
        && outcome == OutcomeOf(Ran(START, before), Authenticate(e.id, canonicalTables, syncKind, a))
        && a.localCursor == d.localCursor && (a.reconciled.Some? ==> AllReconciled(d))
    }

    /** `authenticate_local`: once, after the opening.  The identity can be lost while it runs; the check at
        the end then fails the call and, unlike the one at the start, leaves the export registered. */
    method AuthenticateLocal<V, S(==), D>(e: Pinned, canonicalTables: bool, syncKind: string, d: Databases<V, S, D>)
      returns (outcome: Outcome, c: Certificate?)
      requires Valid() && Readable(d)
      modifies this, e
      ensures Valid()
      ensures e in old(pinned) ==> Authenticated(old(calls), e, canonicalTables, syncKind, d, outcome)
      ensures e !in old(pinned) ==> outcome == NotAcquired && calls == old(calls)
      ensures outcome.Granted? <==> c != null
      ensures outcome.Granted? ==> c != null && fresh(c) && c in certified && AllReconciled(d)
    {
      hide AllReconciled, Readable, Passes, FactsOf;
      if e in pinned { NumberOf(e); }
      var a: Answers;
      outcome, a, c := Attempt(e, canonicalTables, syncKind, d);
      if e in pinned { Note(Authenticate(e.id, canonicalTables, syncKind, a)); }
      forall i | 0 <= i < |pinned| ensures ExportShown(i) {
        assert old(ExportShown(i));
      }
      forall i | 0 <= i < |minted| ensures CertShown(i) {
        if i < |old(minted)| { assert old(CertShown(i)); }
      }
    }

    /** `_consume_for_signing`: once. */
    method Consume(c: Certificate) returns (r: Option<Facts>)
      requires Valid()
      modifies this, c
      ensures Valid()
      ensures c in old(minted) ==>
                && calls == old(calls) + [Call.Consume(c.id)]
                && (r.Some? <==> OutcomeOf(old(Now()), Call.Consume(c.id)).Granted?)
                && c.id < |old(Now()).certs| && (r.Some? ==> r.value == old(Now()).certs[c.id].facts)
      ensures c !in old(minted) ==> r.None? && calls == old(calls)
    {
      if c in minted { CertNumberOf(c); }
      r := None;
      if c in certified && !c.consumed {
        c.consumed := true;
        certified := certified - {c};
        r := Some(c.facts);
      }
      if c in minted { Note(Call.Consume(c.id)); }
      forall i | 0 <= i < |pinned| ensures ExportShown(i) {
        assert old(ExportShown(i));
      }
      forall i | 0 <= i < |minted| ensures CertShown(i) {
        assert old(CertShown(i));
      }
    }

    lemma CertNumberOf(c: Certificate)
      requires Valid() && c in minted
      ensures c.id < |minted| && minted[c.id] == c && CertShown(c.id)
    {
      var i :| 0 <= i < |minted| && minted[i] == c;
      assert CertShown(i);
    }
  }

  lemma NothingReconciled(baseline: Reading, a: Answers)
    requires a.reconciled.None?
    ensures !Passes(baseline, a)
  {}

  lemma PassedReconciled(baseline: Reading, a: Answers)
    requires Passes(baseline, a)
    ensures a.reconciled.Some?
  {}
}
