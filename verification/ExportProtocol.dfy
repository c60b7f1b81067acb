/**
  Every sequence of calls on pinned exports and their certificates.  A call names an export or a
  certificate by its number, whoever makes it; what the file system, the source, the local mirror and
  the snapshot policy answer is part of the call, so it is arbitrary at every call.
 */
module ExportProtocol {
  import opened Outcomes

  /** What `governed_content_identity` and the change cursor say of a database. */
  datatype Reading = Reading(content: string, schema: string, counts: map<string, nat>, cursor: nat)

  datatype Facts = Facts(
    syncKind: string, exportDigest: string, sourceCursor: nat, appliedCursor: nat,
    sourceContent: string, localContent: string, sourceSchema: string, localSchema: string, counts: map<string, nat>)

  /** `registered` is membership in the registry of acquired exports; `intact` says that file and
      connection still have the identity they were acquired with. */
  datatype Export = Export(
    exportDigest: string, baseline: Reading,
    registered: bool, claimed: bool, authenticated: bool, closed: bool, intact: bool)

  /** A certificate with the export it came from and the readings that it was minted after. */
  datatype Cert = Cert(origin: nat, facts: Facts, source: Reading, local: Reading, registered: bool, consumed: bool)

  datatype State = State(exports: seq<Export>, certs: seq<Cert>)

  const START := State([], [])

  /** What the outside answers while a local mirror is authenticated, in this order. */
  datatype Answers = Answers(
    first: Reading, localCursor: nat, reconciled: Option<(Reading, Reading)>, final: Reading,
    lateIntact: bool, policyUnchanged: bool)

  datatype Call =
    | Acquire(exportDigest: string, baseline: Reading)
    | Disturb(e: nat, intact: bool)
    | OpenSource(e: nat)
    | Authenticate(e: nat, canonicalTables: bool, syncKind: string, answers: Answers)
    | Consume(c: nat)

  datatype Outcome = Done | Granted | NotAcquired | IdentityLost | Refused | LateIdentityFailure

  predicate Live(s: State, e: nat) {
    e < |s.exports| && s.exports[e].registered
  }

  /** The readings fit the baseline and each other. */
  predicate Passes(baseline: Reading, a: Answers) {
    && a.first == baseline && a.first.cursor == a.localCursor && a.final == baseline
    && a.reconciled.Some?
    && var (source, local) := a.reconciled.value;
       && source.content == local.content == baseline.content
       && source.counts == local.counts == baseline.counts
       && source.schema == baseline.schema
  }

  function OutcomeOf(s: State, call: Call): Outcome {
    match call
    case Acquire(_, _) => Done
    case Disturb(_, _) => Done
    case OpenSource(e) =>
      if !Live(s, e) then NotAcquired
      else if !s.exports[e].intact then IdentityLost
      else if s.exports[e].claimed then Refused else Granted
    case Authenticate(e, canonicalTables, _, a) =>
      if !Live(s, e) then NotAcquired
      else
        var x := s.exports[e];
        if !x.intact then IdentityLost
        else if x.authenticated || !x.claimed || !canonicalTables || !Passes(x.baseline, a) then Refused
        else if !a.lateIntact then LateIdentityFailure
        else if !a.policyUnchanged then Refused else Granted
    case Consume(c) =>
      if c < |s.certs| && s.certs[c].registered && !s.certs[c].consumed then Granted else Refused
  }

  function FactsOf(x: Export, syncKind: string, a: Answers): Facts
    requires a.reconciled.Some?
  {
    var (source, local) := a.reconciled.value;
    Facts(syncKind, x.exportDigest, a.first.cursor, a.localCursor, source.content, source.content,
          source.schema, local.schema, source.counts)
  }

  function Apply(s: State, call: Call): State {
    match call
    case Acquire(digest, baseline) => s.(exports := s.exports + [Export(digest, baseline, true, false, false, false, true)])
    case Disturb(e, intact) =>
      if e < |s.exports| then s.(exports := s.exports[e := s.exports[e].(intact := intact)]) else s
    case OpenSource(e) =>
      match OutcomeOf(s, call) {
        case IdentityLost => s.(exports := s.exports[e := s.exports[e].(registered := false, closed := true)])
        case Granted => s.(exports := s.exports[e := s.exports[e].(claimed := true)])
        case _ => s
      }
    case Authenticate(e, _, syncKind, a) =>
      match OutcomeOf(s, call) {
        case IdentityLost => s.(exports := s.exports[e := s.exports[e].(registered := false, closed := true)])
        case LateIdentityFailure => s.(exports := s.exports[e := s.exports[e].(intact := false)])
        case Granted =>
          var x := s.exports[e];
          var (source, local) := a.reconciled.value;
          State(s.exports[e := x.(authenticated := true, registered := false)],
                s.certs + [Cert(e, FactsOf(x, syncKind, a), source, local.(cursor := a.localCursor), true, false)])
        case _ => s
      }
    case Consume(c) =>
      if OutcomeOf(s, call).Granted?
      then s.(certs := s.certs[c := s.certs[c].(registered := false, consumed := true)]) else s
  }

  /** The state after a sequence of calls. */
  function Ran(s: State, calls: seq<Call>): State {
    if calls == [] then s else Apply(Ran(s, calls[..|calls| - 1]), calls[|calls| - 1])
  }

  function At(calls: seq<Call>, n: nat): State
    requires n <= |calls|
  {
    Ran(START, calls[..n])
  }

  function OutcomeAt(calls: seq<Call>, n: nat): Outcome
    requires n < |calls|
  {
    OutcomeOf(At(calls, n), calls[n])
  }

  lemma AtNext(calls: seq<Call>, n: nat)
    requires n < |calls|
    ensures At(calls, n + 1) == Apply(At(calls, n), calls[n])
  {
    assert calls[..n + 1][..n] == calls[..n];
  }

  // ----- what never comes back

  /** Numbers stay, facts and baselines stay, registration is only lost, claims are only added. */
  ghost predicate Ages(s: State, s': State) {
    && |s.exports| <= |s'.exports| && |s.certs| <= |s'.certs|
    && (forall e | 0 <= e < |s.exports| ::
          && s'.exports[e].exportDigest == s.exports[e].exportDigest && s'.exports[e].baseline == s.exports[e].baseline
          && (s'.exports[e].registered ==> s.exports[e].registered)
          && (s.exports[e].claimed ==> s'.exports[e].claimed))
    && (forall c | 0 <= c < |s.certs| ::
          && s'.certs[c].origin == s.certs[c].origin && s'.certs[c].facts == s.certs[c].facts
          && s'.certs[c].source == s.certs[c].source && s'.certs[c].local == s.certs[c].local
          && (s'.certs[c].registered ==> s.certs[c].registered))
  }

  lemma StepAges(s: State, call: Call)
    ensures Ages(s, Apply(s, call))
  {
    hide Passes;
  }

  lemma {:induction false} RanAges(s: State, calls: seq<Call>)
    ensures Ages(s, Ran(s, calls))
  {
    hide Apply;
    if calls != [] {
      RanAges(s, calls[..|calls| - 1]);
      StepAges(Ran(s, calls[..|calls| - 1]), calls[|calls| - 1]);
    }
  }

  lemma {:induction false} AtAges(calls: seq<Call>, i: nat, j: nat)
    requires i <= j <= |calls|
    ensures Ages(At(calls, i), At(calls, j))
    decreases j
  {
    hide Apply, At;
    if i < j {
      AtAges(calls, i, j - 1);
      AtNext(calls, j - 1);
      StepAges(At(calls, j - 1), calls[j - 1]);
    }
  }

  /** The call hands out the source of `e` or a certificate for it. */
  predicate Grants(s: State, call: Call, e: nat) {
    (call.OpenSource? || call.Authenticate?) && call.e == e && OutcomeOf(s, call).Granted?
  }

  /** Over every call sequence: an export is opened at most once, certified at most once, not opened after
      it was certified, and a certificate is consumed at most once. */
  lemma OneShot(calls: seq<Call>, i: nat, j: nat)
    requires i < j < |calls| && OutcomeAt(calls, i).Granted? && OutcomeAt(calls, j).Granted?
    ensures calls[i].OpenSource? && calls[j].OpenSource? ==> calls[i].e != calls[j].e
    ensures calls[i].Authenticate? && (calls[j].OpenSource? || calls[j].Authenticate?) ==> calls[i].e != calls[j].e
    ensures calls[i].Consume? && calls[j].Consume? ==> calls[i].c != calls[j].c
  {
    hide Passes, At;
    AtNext(calls, i);
    AtAges(calls, i + 1, j);
  }

  /** A call on a registered export whose identity is lost before the call is final: nothing is granted on
      this export again, whether or not the identity comes back. */
  lemma EntryFailureIsFinal(calls: seq<Call>, i: nat, j: nat)
    requires i < j < |calls| && (calls[i].OpenSource? || calls[i].Authenticate?)
    requires Live(At(calls, i), calls[i].e) && !At(calls, i).exports[calls[i].e].intact
    ensures !Grants(At(calls, j), calls[j], calls[i].e)
  {
    hide Passes, At;
    AtNext(calls, i);
    AtAges(calls, i + 1, j);
  }

  // ----- where grants come from

  /** Claimed exports were opened. */
  lemma {:induction false} ClaimedWasOpened(calls: seq<Call>, n: nat, e: nat) returns (h: nat)
    requires n <= |calls| && e < |At(calls, n).exports| && At(calls, n).exports[e].claimed
    ensures h < n && calls[h] == OpenSource(e) && OutcomeAt(calls, h).Granted?
  {
    hide Passes;
    if n > 0 {
      AtNext(calls, n - 1);
      var s := At(calls, n - 1);
      if e < |s.exports| && s.exports[e].claimed { h := ClaimedWasOpened(calls, n - 1, e); } else { h := n - 1; }
    }
  }

  /** Certificates were granted, and with the readings that they carry. */
  lemma {:induction false} CertWasGranted(calls: seq<Call>, n: nat, c: nat) returns (i: nat)
    requires n <= |calls| && c < |At(calls, n).certs|
    ensures i < n && calls[i].Authenticate? && OutcomeAt(calls, i).Granted? && |At(calls, i).certs| == c
    ensures calls[i].e == At(calls, n).certs[c].origin && calls[i].e < |At(calls, i).exports|
    ensures calls[i].syncKind == At(calls, n).certs[c].facts.syncKind
    ensures Proven(At(calls, i).exports[calls[i].e], At(calls, n).certs[c])
  {
    hide Apply, Passes, At;
    if n > 0 {
      AtNext(calls, n - 1);
      if c < |At(calls, n - 1).certs| {
        i := CertWasGranted(calls, n - 1, c);
        StepAges(At(calls, n - 1), calls[n - 1]);
      } else {
        i := n - 1;
        NewCert(At(calls, n - 1), calls[n - 1], c);
      }
    } else {
      StartEmpty(calls);
    }
  }

  lemma StartEmpty(calls: seq<Call>)
    ensures At(calls, 0) == START
  {
    assert calls[..0] == [];
  }

  lemma NewCert(s: State, call: Call, c: nat)
    requires |s.certs| <= c < |Apply(s, call).certs|
    ensures call.Authenticate? && OutcomeOf(s, call).Granted? && c == |s.certs| && call.e < |s.exports|
    ensures Apply(s, call).certs[c].origin == call.e && Proven(s.exports[call.e], Apply(s, call).certs[c])
    ensures Apply(s, call).certs[c].facts.syncKind == call.syncKind
  {}

  /** The facts are those that were read from source and local mirror, and those of the baseline. */
  ghost predicate Proven(x: Export, c: Cert) {
    && c.facts.sourceContent == c.source.content == c.local.content == c.facts.localContent == x.baseline.content
    && c.facts.sourceCursor == c.facts.appliedCursor == c.local.cursor == x.baseline.cursor
    && c.facts.counts == c.source.counts == c.local.counts == x.baseline.counts
    && c.facts.sourceSchema == c.source.schema == x.baseline.schema && c.facts.localSchema == c.local.schema
    && c.facts.exportDigest == x.exportDigest
  }

  /** Over every call sequence: a consumption was preceded by the opening and then the authentication of
      one export, and hands out facts that carry the content digest of source, local mirror and
      acquisition baseline alike. */
  lemma ConsumptionHistory(calls: seq<Call>, k: nat) returns (h: nat, i: nat)
    requires k < |calls| && calls[k].Consume? && OutcomeAt(calls, k).Granted?
    ensures calls[k].c < |At(calls, k).certs|
    ensures var c := At(calls, k).certs[calls[k].c];
            && h < i < k && calls[h] == OpenSource(c.origin) && OutcomeAt(calls, h).Granted?
            && calls[i].Authenticate? && calls[i].e == c.origin && OutcomeAt(calls, i).Granted?
            && |At(calls, i).certs| == calls[k].c && calls[i].syncKind == c.facts.syncKind
            && c.origin < |At(calls, i).exports| && Proven(At(calls, i).exports[c.origin], c)
  {
    hide Apply, At, Passes, Proven;
    i := CertWasGranted(calls, k, calls[k].c);
    h := ClaimedWasOpened(calls, i, calls[i].e);
  }

  /** At most one consumption for one export, over every call sequence. */
  lemma OneConsumption(calls: seq<Call>, k: nat, l: nat)
    requires k < l < |calls| && calls[k].Consume? && OutcomeAt(calls, k).Granted?
    requires calls[l].Consume? && OutcomeAt(calls, l).Granted?
    ensures calls[k].c < |At(calls, k).certs| && calls[l].c < |At(calls, l).certs|
    ensures At(calls, k).certs[calls[k].c].origin != At(calls, l).certs[calls[l].c].origin
  {
    hide Apply, At, Passes, Proven;
    var h, i := ConsumptionHistory(calls, k);
    var i' := CertWasGranted(calls, l, calls[l].c);
    OneShot(calls, k, l);
    if i < i' {
      OneShot(calls, i, i');
    } else if i' < i {
      OneShot(calls, i', i);
    }
  }

  // ----- what a failed identity check does

  /** Whatever calls follow, nothing is granted on this export. */
  ghost predicate NeverAgain(s: State, e: nat) {
    forall more: seq<Call>, k | 0 <= k < |more| :: !Grants(Ran(s, more[..k]), more[k], e)
  }

  ghost predicate Sound(s: State) {
    forall e | 0 <= e < |s.exports| :: s.exports[e].registered ==> !s.exports[e].authenticated
  }

  lemma {:induction false} AtSound(calls: seq<Call>, n: nat)
    requires n <= |calls|
    ensures Sound(At(calls, n))
  {
    hide At, Passes;
    if n == 0 {
      StartEmpty(calls);
    } else {
      AtSound(calls, n - 1);
      AtNext(calls, n - 1);
    }
  }

  /** Answers on which an opened, intact, registered export is certified. */
  function GoodAnswers(x: Export): Answers {
    Answers(x.baseline, x.baseline.cursor, Some((x.baseline, x.baseline)), x.baseline, true, true)
  }

  lemma RanTwo(s: State, a: Call, b: Call)
    ensures Ran(s, [a, b][..0]) == s && Ran(s, [a, b][..1]) == Apply(s, a)
  {
    assert [a, b][..0] == [] && [a, b][..1] == [a] && [a][..0] == [];
  }

  /** Exactly the exports that are no longer registered are out for good. */
  lemma NeverAgainIff(s: State, e: nat)
    requires Sound(s) && e < |s.exports|
    ensures NeverAgain(s, e) <==> !s.exports[e].registered
  {
    if s.exports[e].registered {
      var call := if s.exports[e].claimed then Authenticate(e, true, "", GoodAnswers(s.exports[e])) else OpenSource(e);
      var more := [Disturb(e, true), call];
      RanTwo(s, Disturb(e, true), call);
      assert Grants(Ran(s, more[..1]), more[1], e);
    } else {
      forall more: seq<Call>, k | 0 <= k < |more| ensures !Grants(Ran(s, more[..k]), more[k], e) {
        RanAges(s, more[..k]);
      }
    }
  }

  /** The outcome reports a failed identity check of this export. */
  predicate FailedCheck(s: State, call: Call, e: nat) {
    && (call.OpenSource? || call.Authenticate?) && call.e == e
    && (OutcomeOf(s, call).IdentityLost? || OutcomeOf(s, call).LateIdentityFailure?)
  }

  /** Over every call sequence: a failed identity check ends the export for good if and only if the identity
      was lost already before the call. */
  lemma FailedCheckIsFinalIffAtEntry(calls: seq<Call>, i: nat, e: nat)
    requires i < |calls| && FailedCheck(At(calls, i), calls[i], e)
    ensures Live(At(calls, i), e)
    ensures NeverAgain(At(calls, i + 1), e) <==> !At(calls, i).exports[e].intact
  {
    hide At, Passes, NeverAgain;
    AtSound(calls, i + 1);
    AtNext(calls, i);
    NeverAgainIff(At(calls, i + 1), e);
  }

  predicate Concerns(call: Call, e: nat) {
    (call.OpenSource? || call.Authenticate?) && call.e == e
  }

  lemma {:induction false} StaysRegistered(calls: seq<Call>, i: nat, j: nat, e: nat)
    requires i <= j <= |calls| && Live(At(calls, i), e) && forall k | i <= k < j :: !Concerns(calls[k], e)
    ensures Live(At(calls, j), e)
    decreases j
  {
    hide At, Passes;
    if i < j {
      StaysRegistered(calls, i, j - 1, e);
      AtNext(calls, j - 1);
    }
  }

  /** After a late failure the next call on the export decides: it ends the export, unless it certifies it,
      if and only if the identity is still lost then. */
  lemma NextCallDecides(calls: seq<Call>, i: nat, j: nat, e: nat)
    requires i < j < |calls| && Concerns(calls[i], e) && OutcomeAt(calls, i).LateIdentityFailure?
    requires Concerns(calls[j], e) && forall k | i < k < j :: !Concerns(calls[k], e)
    ensures Live(At(calls, j), e)
    ensures !OutcomeAt(calls, j).Granted? ==> (NeverAgain(At(calls, j + 1), e) <==> !At(calls, j).exports[e].intact)
  {
    hide At, Passes, NeverAgain;
    AtNext(calls, i);
    StaysRegistered(calls, i + 1, j, e);
    AtSound(calls, j + 1);
    AtNext(calls, j);
    NeverAgainIff(At(calls, j + 1), e);
  }

  /** A history in which an export is certified after an identity check on it had failed: acquired, opened,
      the identity lost during the authentication, restored, authenticated again. */
  lemma CertifiedAfterFailure(exportDigest: string, baseline: Reading) returns (calls: seq<Call>)
    ensures |calls| == 5 && FailedCheck(At(calls, 2), calls[2], 0) && Grants(At(calls, 4), calls[4], 0)
  {
    var x := Export(exportDigest, baseline, true, true, false, false, true);
    var good := GoodAnswers(x);
    calls := [Acquire(exportDigest, baseline), OpenSource(0), Authenticate(0, true, "", good.(lateIntact := false)),
              Disturb(0, true), Authenticate(0, true, "", good)];
    StartEmpty(calls);
    AtNext(calls, 0);
    AtNext(calls, 1);
    AtNext(calls, 2);
    AtNext(calls, 3);
    hide Ran;
    assert At(calls, 2) == State([x], []);
    assert At(calls, 3) == State([x.(intact := false)], []);
    assert At(calls, 4) == State([x], []);
  }
}
