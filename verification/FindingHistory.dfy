/** The evidence store's findings: a table of current records beside an append-only history in which
    every revision names the digest of the one before. */
module FindingHistory {
  import opened Results

  // ---- records -----------------------------------------------------------------------------

  datatype Status = Candidate | Supported | Verified | Refuted | Duplicate | Submitted | Resolved

  /** The fields that may not change from one revision to the next. */
  datatype Identity = Identity(
    campaign: string, task: Option<string>, target: string, playbook: string, title: string, createdAt: int)

  /** Everything the digest of a finding covers: all of it but the update time. */
  datatype Content = Content(
    id: string, revision: nat, previous: Option<Digest>, identity: Identity, status: Status,
    evidence: seq<string>, body: string)

  /** SHA-256 of the canonical JSON of a finding. */
  datatype Digest = DigestOf(content: Content)

  datatype Finding = Finding(content: Content, updatedAt: int)

  /** What a typed finding already satisfies. */
  predicate FindingOk(f: Finding) {
    && f.content.revision >= 1
    && (f.content.revision == 1 <==> f.content.previous.None?)
    && f.content.identity.createdAt <= f.updatedAt
    && (forall i, j :: 0 <= i < j < |f.content.evidence| ==> f.content.evidence[i] != f.content.evidence[j])
    && (f.content.status.Supported? || f.content.status.Verified? ==> f.content.evidence != [])
  }

  /** An evidence record; `metadata` is what its digest covers besides the two fields. */
  datatype Evidence = Evidence(campaign: string, task: Option<string>, metadata: string)

  /** The tables; revisions are keyed by finding id and revision number. */
  datatype Store = Store(
    evidence: map<string, Evidence>, findings: map<string, Finding>, revisions: map<(string, nat), Finding>)

  const EMPTY: Store := Store(map[], map[], map[])

  datatype Error =
    | UnknownEvidence | ForeignCampaign | ForeignTask | RevisionGap | BrokenLink | IdentityChanged
    | NotFirstRevision | PrimaryKeyTaken | DifferentMetadata | UnknownFinding | BadLimit

  // ---- operations --------------------------------------------------------------------------

  predicate EvidenceFits(evidence: map<string, Evidence>, id: string, who: Identity) {
    && id in evidence && evidence[id].campaign == who.campaign
    && (who.task.Some? && who.task.value != "" ==> evidence[id].task.None? || evidence[id].task == who.task)
  }

  function EvidenceError(evidence: map<string, Evidence>, id: string, who: Identity): (r: Option<Error>)
    ensures r.None? <==> EvidenceFits(evidence, id, who)
    ensures r != Some(PrimaryKeyTaken)
  {
    if id !in evidence then Some(UnknownEvidence)
    else if evidence[id].campaign != who.campaign then Some(ForeignCampaign)
    else if who.task.Some? && who.task.value != "" && evidence[id].task.Some? && evidence[id].task != who.task then
      Some(ForeignTask)
    else None
  }

  /** The error of the first piece of evidence that does not fit. */
  function EvidenceErrors(evidence: map<string, Evidence>, ids: seq<string>, who: Identity): (r: Option<Error>)
    ensures r.None? <==> forall i :: 0 <= i < |ids| ==> EvidenceFits(evidence, ids[i], who)
    ensures r != Some(PrimaryKeyTaken)
  {
    if ids == [] then None
    else
      var before := EvidenceErrors(evidence, ids[..|ids| - 1], who);
      if before.Some? then before else EvidenceError(evidence, ids[|ids| - 1], who)
  }

  function RevisionError(previous: Finding, current: Finding): Option<Error> {
    if current.content.revision != previous.content.revision + 1 then Some(RevisionGap)
    else if current.content.previous != Some(DigestOf(previous.content)) then Some(BrokenLink)
    else if current.content.identity != previous.content.identity then Some(IdentityChanged)
    else None
  }

  /** Writes a new current record and its history row, or rolls back on a taken primary key. */
  function Record(s: Store, f: Finding): (Store, Result<Finding, Error>) {
    var key := (f.content.id, f.content.revision);
    if key in s.revisions then (s, Err(PrimaryKeyTaken))
    else (s.(findings := s.findings[f.content.id := f], revisions := s.revisions[key := f]), Ok(f))
  }

  function AddFinding(s: Store, f: Finding): (Store, Result<Finding, Error>) {
    var error := EvidenceErrors(s.evidence, f.content.evidence, f.content.identity);
    if error.Some? then (s, Err(error.value))
    else if f.content.id in s.findings then
      var existing := s.findings[f.content.id];
      if DigestOf(existing.content) == DigestOf(f.content) then (s, Ok(f))
      else
        var revision := RevisionError(existing, f);
        if revision.Some? then (s, Err(revision.value)) else Record(s, f)
    else if f.content.revision != 1 || f.content.previous.Some? then (s, Err(NotFirstRevision))
    else Record(s, f)
  }

  function RegisterEvidence(s: Store, id: string, e: Evidence): (Store, Option<Error>) {
    if id in s.evidence then (s, if s.evidence[id] == e then None else Some(DifferentMetadata))
    else (s.(evidence := s.evidence[id := e]), None)
  }

  // ---- the invariant -----------------------------------------------------------------------

  /** Row `k` of a finding: numbered, well-typed, backed by evidence, and linked to row `k - 1`. */
  ghost predicate RowOk(s: Store, id: string, k: nat) {
    && (id, k) in s.revisions
    && var f := s.revisions[(id, k)];
       && FindingOk(f) && f.content.id == id && f.content.revision == k
       && (forall i :: 0 <= i < |f.content.evidence| ==>
             EvidenceFits(s.evidence, f.content.evidence[i], f.content.identity))
       && (k > 1 ==>
             && (id, k - 1) in s.revisions
             && f.content.previous == Some(DigestOf(s.revisions[(id, k - 1)].content))
             && f.content.identity == s.revisions[(id, k - 1)].content.identity)
  }

  /** The revisions of the finding are exactly 1 to n, and the current record is revision n. */
  ghost predicate ChainOk(s: Store, id: string)
    requires id in s.findings
  {
    var n := s.findings[id].content.revision;
    && n >= 1
    && (forall k :: 1 <= k <= n ==> RowOk(s, id, k))
    && RowOk(s, id, n) && s.revisions[(id, n)] == s.findings[id]
  }

  ghost predicate NoOtherRows(s: Store) {
    forall id, k :: (id, k) in s.revisions ==> id in s.findings && 1 <= k <= s.findings[id].content.revision
  }

  ghost predicate Inv(s: Store) {
    (forall id :: id in s.findings ==> ChainOk(s, id)) && NoOtherRows(s)
  }

  /** History rows and evidence are never changed or removed, and a current record only moves on. */
  ghost predicate Extends(s: Store, t: Store) {
    && (forall id :: id in s.evidence ==> id in t.evidence && t.evidence[id] == s.evidence[id])
    && (forall id, k :: (id, k) in s.revisions ==>
          (id, k) in t.revisions && t.revisions[(id, k)] == s.revisions[(id, k)])
    && (forall id :: id in s.findings ==>
          id in t.findings && s.findings[id].content.revision <= t.findings[id].content.revision)
  }

  lemma RowIsKept(s: Store, t: Store, id: string, k: nat)
    requires RowOk(s, id, k) && Extends(s, t)
    ensures RowOk(t, id, k)
  {
    var f := s.revisions[(id, k)];
    forall i | 0 <= i < |f.content.evidence|
      ensures EvidenceFits(t.evidence, f.content.evidence[i], f.content.identity)
    {
      assert EvidenceFits(s.evidence, f.content.evidence[i], f.content.identity);
    }
  }

  lemma ChainIsKept(s: Store, t: Store, id: string)
    requires id in s.findings && ChainOk(s, id) && Extends(s, t) && t.findings[id] == s.findings[id]
    ensures ChainOk(t, id)
  {
    assert RowOk(s, id, s.findings[id].content.revision);
    forall k | 1 <= k <= s.findings[id].content.revision
      ensures RowOk(t, id, k)
    {
      RowIsKept(s, t, id, k);
    }
  }

  /** What `Record` needs of the record it writes. */
  ghost predicate Writable(s: Store, f: Finding) {
    && FindingOk(f)
    && (forall i :: 0 <= i < |f.content.evidence| ==>
          EvidenceFits(s.evidence, f.content.evidence[i], f.content.identity))
    && if f.content.id in s.findings then RevisionError(s.findings[f.content.id], f).None? else f.content.revision == 1
  }

  lemma KeyIsFree(s: Store, f: Finding)
    requires Inv(s) && Writable(s, f)
    ensures (f.content.id, f.content.revision) !in s.revisions
  {
  }

  lemma RecordExtends(s: Store, f: Finding)
    requires Inv(s) && Writable(s, f)
    ensures Extends(s, Record(s, f).0) && Record(s, f).1 == Ok(f)
  {
    KeyIsFree(s, f);
  }

  lemma NewRowIsOk(s: Store, f: Finding, t: Store)
    requires Inv(s) && Writable(s, f) && t == Record(s, f).0
    ensures RowOk(t, f.content.id, f.content.revision)
  {
    KeyIsFree(s, f);
    if f.content.id in s.findings {
      var n := s.findings[f.content.id].content.revision;
      assert ChainOk(s, f.content.id) && RowOk(s, f.content.id, n);
      assert (f.content.id, n) in t.revisions;
    }
  }

  lemma OldRowsAreKept(s: Store, f: Finding, t: Store)
    requires Inv(s) && Writable(s, f) && t == Record(s, f).0 && Extends(s, t)
    ensures forall k :: 1 <= k < f.content.revision ==> RowOk(t, f.content.id, k)
  {
    forall k | 1 <= k < f.content.revision
      ensures RowOk(t, f.content.id, k)
    {
      assert ChainOk(s, f.content.id) && RowOk(s, f.content.id, k);
      RowIsKept(s, t, f.content.id, k);
    }
  }

  lemma RecordKeepsInv(s: Store, f: Finding, t: Store)
    requires Inv(s) && Writable(s, f) && t == Record(s, f).0
    ensures Inv(t)
  {
    KeyIsFree(s, f);
    RecordExtends(s, f);
    NewRowIsOk(s, f, t);
    forall id | id in t.findings
      ensures ChainOk(t, id)
    {
      if id != f.content.id {
        ChainIsKept(s, t, id);
      } else {
        OldRowsAreKept(s, f, t);
      }
    }
  }

  /** Adding a finding keeps the history a chain, never loses anything, and never meets a taken key. */
  lemma AddFindingKeepsInv(s: Store, f: Finding, t: Store, reply: Result<Finding, Error>)
    requires Inv(s) && FindingOk(f) && (t, reply) == AddFinding(s, f)
    ensures Inv(t) && Extends(s, t) && reply != Err(PrimaryKeyTaken)
    ensures reply.Err? ==> t == s
    ensures reply.Ok? ==> f.content.id in t.findings && t.findings[f.content.id].content == f.content
  {
    if (t, reply) == Record(s, f) && Writable(s, f) {
      RecordExtends(s, f);
      RecordKeepsInv(s, f, t);
    } else {
      assert t == s;
    }
  }

  lemma RegisterEvidenceKeepsInv(s: Store, id: string, e: Evidence, t: Store)
    requires Inv(s) && t == RegisterEvidence(s, id, e).0
    ensures Inv(t) && Extends(s, t)
  {
    forall x | x in t.findings
      ensures ChainOk(t, x)
    {
      ChainIsKept(s, t, x);
    }
  }

  /** Adding a record that differs from the current one at most in its update time changes nothing. */
  lemma ReAddingIsNoOp(s: Store, f: Finding)
    requires Inv(s) && f.content.id in s.findings && f.content == s.findings[f.content.id].content
    ensures AddFinding(s, f) == (s, Ok(f))
  {
    var id := f.content.id;
    assert ChainOk(s, id) && RowOk(s, id, f.content.revision);
  }

  // ---- what is accepted --------------------------------------------------------------------

  /** The evidence is known, of the campaign, and of the task if both name one. */
  predicate Belongs(evidence: map<string, Evidence>, id: string, who: Identity) {
    && id in evidence && evidence[id].campaign == who.campaign
    && (who.task in {None, Some("")} || evidence[id].task in {None, who.task})
  }

  /** What is wrong with a piece of evidence that does not belong. */
  predicate Disowned(evidence: map<string, Evidence>, id: string, who: Identity, error: Error) {
    error == if id !in evidence then UnknownEvidence
             else if evidence[id].campaign != who.campaign then ForeignCampaign else ForeignTask
  }

  /** The evidence is refused for the first piece that does not belong. */
  lemma {:induction false} FirstForeign(evidence: map<string, Evidence>, ids: seq<string>, who: Identity)
    returns (i: nat)
    requires exists k :: 0 <= k < |ids| && !Belongs(evidence, ids[k], who)
    ensures i < |ids| && !Belongs(evidence, ids[i], who) && forall j :: 0 <= j < i ==> Belongs(evidence, ids[j], who)
    ensures EvidenceErrors(evidence, ids, who).Some?
            && Disowned(evidence, ids[i], who, EvidenceErrors(evidence, ids, who).value)
  {
    var n := |ids| - 1;
    if k :| 0 <= k < n && !Belongs(evidence, ids[k], who) {
      assert ids[..n][k] == ids[k];
      i := FirstForeign(evidence, ids[..n], who);
    } else {
      i := n;
      assert forall j :: 0 <= j < n ==> EvidenceFits(evidence, ids[..n][j], who);
    }
  }

  lemma BelongingFits(evidence: map<string, Evidence>, ids: seq<string>, who: Identity)
    ensures EvidenceErrors(evidence, ids, who).None? <==> forall i :: 0 <= i < |ids| ==> Belongs(evidence, ids[i], who)
  {
  }

  /** What is wrong with a record as the successor of the current one, if anything: its number, its link, or a
      field that may not change. */
  function Misfit(current: Content, next: Content): Option<Error> {
    var a, b := current.identity, next.identity;
    if next.revision != current.revision + 1 then Some(RevisionGap)
    else if next.previous.None? || next.previous.value.content != current then Some(BrokenLink)
    else if a.campaign != b.campaign || a.task != b.task || a.target != b.target || a.playbook != b.playbook
            || a.title != b.title || a.createdAt != b.createdAt then Some(IdentityChanged)
    else None
  }

  /** A record joins the tables exactly if its evidence belongs and it is a first revision or fits on the current one;
      one that is current already is accepted and changes nothing. */
  lemma AddIsAnswered(s: Store, f: Finding, t: Store, reply: Result<Finding, Error>)
    requires Inv(s) && FindingOk(f) && (t, reply) == AddFinding(s, f)
    requires forall i :: 0 <= i < |f.content.evidence| ==>
               Belongs(s.evidence, f.content.evidence[i], f.content.identity)
    ensures var id, c := f.content.id, f.content;
            var known := id in s.findings;
            var same := known && s.findings[id].content == c;
            var error := if same then None
                         else if known then Misfit(s.findings[id].content, c)
                         else if c.revision == 1 then None else Some(NotFirstRevision);
            && reply == (if error.None? then Ok(f) else Err(error.value))
            && t == if same || error.Some? then s
                    else Store(s.evidence, s.findings[id := f], s.revisions[(id, c.revision) := f])
  {
    BelongingFits(s.evidence, f.content.evidence, f.content.identity);
    if (t, reply) == Record(s, f) && Writable(s, f) {
      KeyIsFree(s, f);
    }
  }

  // ---- runs --------------------------------------------------------------------------------

  datatype Step = Register(id: string, evidence: Evidence) | Add(finding: Finding)

  predicate WellTyped(step: Step) {
    step.Add? ==> FindingOk(step.finding)
  }

  function Perform(s: Store, step: Step): Store {
    match step
    case Register(id, e) => RegisterEvidence(s, id, e).0
    case Add(f) => AddFinding(s, f).0
  }

  function After(steps: seq<Step>): Store {
    if steps == [] then EMPTY else Perform(After(steps[..|steps| - 1]), steps[|steps| - 1])
  }

  lemma PerformKeepsInv(s: Store, step: Step, t: Store)
    requires Inv(s) && WellTyped(step) && t == Perform(s, step)
    ensures Inv(t) && Extends(s, t)
  {
    match step
    case Register(id, e) => RegisterEvidenceKeepsInv(s, id, e, t);
    case Add(f) => AddFindingKeepsInv(s, f, t, AddFinding(s, f).1);
  }

  ghost predicate WellTypedRun(steps: seq<Step>) {
    forall i :: 0 <= i < |steps| ==> WellTyped(steps[i])
  }

  /** After any run every history is a linked chain 1 to n that ends in the current record. */
  lemma {:induction false} RunKeepsInv(steps: seq<Step>)
    requires WellTypedRun(steps)
    ensures Inv(After(steps))
  {
    if steps != [] {
      var n := |steps| - 1;
      RunKeepsInv(steps[..n]);
      PerformKeepsInv(After(steps[..n]), steps[n], After(steps));
    }
  }

  /** The history is append-only: what a prefix of a run stored, the whole run still has. */
  lemma {:induction false} RunExtends(steps: seq<Step>, k: nat)
    requires WellTypedRun(steps) && k <= |steps|
    ensures Extends(After(steps[..k]), After(steps))
  {
    if k == |steps| {
      assert steps[..k] == steps;
    } else {
      var n := |steps| - 1;
      RunKeepsInv(steps[..n]);
      assert steps[..n][..k] == steps[..k];
      RunExtends(steps[..n], k);
      PerformKeepsInv(After(steps[..n]), steps[n], After(steps));
    }
  }

  /** Step `j` was accepted with this record. */
  predicate AcceptedAt(steps: seq<Step>, j: nat, f: Finding) {
    j < |steps| && steps[j] == Add(f) && AddFinding(After(steps[..j]), f).1.Ok?
  }

  lemma AcceptedEarlier(steps: seq<Step>, n: nat, j: nat, f: Finding)
    requires n <= |steps| && AcceptedAt(steps[..n], j, f)
    ensures AcceptedAt(steps, j, f)
  {
    assert steps[..n][..j] == steps[..j];
  }

  lemma RowComesFromAdd(s: Store, step: Step, t: Store, id: string, k: nat)
    requires t == Perform(s, step) && (id, k) in t.revisions && (id, k) !in s.revisions
    ensures step == Add(t.revisions[(id, k)]) && AddFinding(s, t.revisions[(id, k)]).1.Ok?
  {
  }

  /** Every revision in the history was added, as it stands there, by an accepted step of the run. */
  lemma {:induction false} HistoryWasAdded(steps: seq<Step>, id: string, k: nat) returns (j: nat)
    requires WellTypedRun(steps) && (id, k) in After(steps).revisions
    ensures AcceptedAt(steps, j, After(steps).revisions[(id, k)])
  {
    var n := |steps| - 1;
    var s, t := After(steps[..n]), After(steps);
    RunKeepsInv(steps[..n]);
    PerformKeepsInv(s, steps[n], t);
    if (id, k) in s.revisions {
      j := HistoryWasAdded(steps[..n], id, k);
      AcceptedEarlier(steps, n, j, t.revisions[(id, k)]);
    } else {
      RowComesFromAdd(s, steps[n], t, id, k);
      j := n;
    }
  }

  /** What was accepted is in the history, under its number, for the rest of the run. */
  lemma AcceptedIsInHistory(steps: seq<Step>, j: nat, f: Finding)
    requires WellTypedRun(steps) && AcceptedAt(steps, j, f)
    ensures var key := (f.content.id, f.content.revision);
            key in After(steps).revisions && After(steps).revisions[key].content == f.content
  {
    var s, t := After(steps[..j]), After(steps[..j + 1]);
    assert steps[..j + 1][..j] == steps[..j];
    RunKeepsInv(steps[..j]);
    RunKeepsInv(steps[..j + 1]);
    AddFindingKeepsInv(s, f, t, AddFinding(s, f).1);
    assert ChainOk(t, f.content.id);
    RunExtends(steps, j + 1);
  }

  /** The identity fields of a finding are the same in all its revisions. */
  lemma {:induction false} IdentityIsFixed(s: Store, id: string, k: nat)
    requires Inv(s) && id in s.findings && 1 <= k <= s.findings[id].content.revision
    ensures (id, k) in s.revisions && (id, 1) in s.revisions
    ensures s.revisions[(id, k)].content.identity == s.revisions[(id, 1)].content.identity
    decreases k
  {
    assert ChainOk(s, id) && RowOk(s, id, k) && RowOk(s, id, 1);
    if k > 1 {
      IdentityIsFixed(s, id, k - 1);
    }
  }

  /** The digest of the current record commits to the whole history: two stores that agree on it agree on
      every revision. */
  lemma {:induction false} DigestCommitsToHistory(s: Store, t: Store, id: string, k: nat, m: nat)
    requires Inv(s) && Inv(t) && id in s.findings && id in t.findings
    requires 1 <= m <= k <= s.findings[id].content.revision && k <= t.findings[id].content.revision
    requires (id, k) in s.revisions && (id, k) in t.revisions
    requires DigestOf(s.revisions[(id, k)].content) == DigestOf(t.revisions[(id, k)].content)
    ensures (id, m) in s.revisions && (id, m) in t.revisions
    ensures s.revisions[(id, m)].content == t.revisions[(id, m)].content
    decreases k
  {
    if m < k {
      assert ChainOk(s, id) && RowOk(s, id, k) && RowOk(s, id, k - 1);
      assert ChainOk(t, id) && RowOk(t, id, k) && RowOk(t, id, k - 1);
      DigestCommitsToHistory(s, t, id, k - 1, m);
    }
  }

  lemma SameDigestSameHistory(s: Store, t: Store, id: string)
    requires Inv(s) && Inv(t) && id in s.findings && id in t.findings
    requires DigestOf(s.findings[id].content) == DigestOf(t.findings[id].content)
    ensures forall m :: 1 <= m <= s.findings[id].content.revision ==>
              (id, m) in s.revisions && (id, m) in t.revisions
              && s.revisions[(id, m)].content == t.revisions[(id, m)].content
    ensures forall m :: (id, m) in s.revisions <==> (id, m) in t.revisions
  {
    var n := s.findings[id].content.revision;
    assert ChainOk(s, id) && ChainOk(t, id) && RowOk(s, id, n) && RowOk(t, id, n);
    forall m | 1 <= m <= n
      ensures (id, m) in s.revisions && (id, m) in t.revisions
      ensures s.revisions[(id, m)].content == t.revisions[(id, m)].content
    {
      DigestCommitsToHistory(s, t, id, n, m);
    }
  }

  // ---- the store ---------------------------------------------------------------------------

  class EvidenceStore {
    var evidence: map<string, Evidence>
    var findings: map<string, Finding>
    var revisions: map<(string, nat), Finding>

    function Snapshot(): Store
      reads this
    {
      Store(evidence, findings, revisions)
    }

    ghost predicate Valid()
      reads this
    {
      Inv(Snapshot())
    }

    constructor ()
      ensures Valid() && Snapshot() == EMPTY
    {
      evidence, findings, revisions := map[], map[], map[];
    }

    method RegisterRecord(id: string, e: Evidence) returns (error: Option<Error>)
      requires Valid()
      modifies this`evidence
      ensures Valid() && (Snapshot(), error) == RegisterEvidence(old(Snapshot()), id, e)
    {
      RegisterEvidenceKeepsInv(Snapshot(), id, e, RegisterEvidence(Snapshot(), id, e).0);
      if id in evidence {
        return if evidence[id] == e then None else Some(DifferentMetadata);
      }
      evidence := evidence[id := e];
      return None;
    }

    method CheckEvidence(ids: seq<string>, who: Identity) returns (error: Option<Error>)
      ensures error == EvidenceErrors(evidence, ids, who)
    {
      for i := 0 to |ids|
        invariant EvidenceErrors(evidence, ids[..i], who).None?
      {
        assert ids[..i + 1][..i] == ids[..i];
        error := EvidenceError(evidence, ids[i], who);
        if error.Some? {
          FirstErrorStays(evidence, ids, i + 1, who);
          return;
        }
      }
      assert ids[..|ids|] == ids;
      return None;
    }

    /** The checks of `add_finding`: an answer without a change, or nothing if the revision is to be stored. */
    method Decide(f: Finding) returns (verdict: Option<Result<Finding, Error>>)
      requires Valid() && FindingOk(f)
      ensures verdict != Some(Err(PrimaryKeyTaken))
      ensures verdict.Some? ==> AddFinding(Snapshot(), f) == (Snapshot(), verdict.value)
      ensures verdict.None? ==> AddFinding(Snapshot(), f) == Record(Snapshot(), f)
    {
      AddFindingKeepsInv(Snapshot(), f, AddFinding(Snapshot(), f).0, AddFinding(Snapshot(), f).1);
      var error := CheckEvidence(f.content.evidence, f.content.identity);
      if error.Some? {
        return Some(Err(error.value));
      }
      var id := f.content.id;
      if id in findings {
        if DigestOf(findings[id].content) == DigestOf(f.content) {
          return Some(Ok(f));
        }
        var revision := RevisionError(findings[id], f);
        if revision.Some? {
          return Some(Err(revision.value));
        }
      } else if f.content.revision != 1 || f.content.previous.Some? {
        return Some(Err(NotFirstRevision));
      }
      return None;
    }

    /** The two writes; the key of the new row is always free. */
    method Write(f: Finding)
      requires Valid() && FindingOk(f) && AddFinding(Snapshot(), f) == Record(Snapshot(), f)
      modifies this`findings, this`revisions
      ensures Valid() && (Snapshot(), Ok(f)) == AddFinding(old(Snapshot()), f)
    {
      ghost var s := Snapshot();
      ghost var (t, reply) := Record(s, f);
      AddFindingKeepsInv(s, f, t, reply);
      findings := findings[f.content.id := f];
      revisions := revisions[(f.content.id, f.content.revision) := f];
      assert Snapshot() == t;
    }

    method Add(f: Finding) returns (reply: Result<Finding, Error>)
      requires Valid() && FindingOk(f)
      modifies this`findings, this`revisions
      ensures Valid() && (Snapshot(), reply) == AddFinding(old(Snapshot()), f)
      ensures reply != Err(PrimaryKeyTaken)
    {
      var verdict := Decide(f);
      if verdict.Some? {
        return verdict.value;
      }
      Write(f);
      return Ok(f);
    }

    /** The revision numbers with a row for the finding. */
    function Numbers(id: string): set<nat>
      reads this
    {
      set key | key in revisions && key.0 == id :: key.1
    }

    lemma NumbersAreARange(id: string)
      requires Valid()
      ensures forall k :: k in Numbers(id) <==> id in findings && 1 <= k <= findings[id].content.revision
      ensures id in findings ==> findings[id].content.revision >= 1
    {
      if id in findings {
        forall k | 1 <= k <= findings[id].content.revision
          ensures k in Numbers(id)
        {
          assert ChainOk(Snapshot(), id) && RowOk(Snapshot(), id, k);
          assert (id, k) in revisions;
        }
        assert ChainOk(Snapshot(), id);
      }
    }

    /** The ordered query: rows by ascending revision number until the limit is reached. */
    method Oldest(id: string, numbers: set<nat>, limit: nat, ghost n: nat) returns (rows: seq<Finding>)
      requires forall k :: k in numbers <==> 1 <= k <= n
      requires forall k :: k in numbers ==> (id, k) in revisions
      ensures |rows| == (if limit <= n then limit else n)
      ensures forall k :: 1 <= k <= |rows| ==> (id, k) in revisions && rows[k - 1] == revisions[(id, k)]
    {
      var left := numbers;
      rows := [];
      while left != {} && |rows| < limit
        invariant |rows| <= limit && |rows| <= n && forall k :: k in left <==> |rows| < k <= n
        invariant forall k :: 1 <= k <= |rows| ==> (id, k) in revisions && rows[k - 1] == revisions[(id, k)]
        decreases left
      {
        assert |rows| + 1 in left;
        var least :| least in left && forall k :: k in left ==> least <= k;
        assert least in numbers;
        rows := rows + [revisions[(id, least)]];
        left := left - {least};
      }
      assert left == {} ==> |rows| == n by {
        assert |rows| < n ==> n in left;
      }
    }

    /** The rows of a finding in the order of their revision numbers, the oldest first, at most `limit` of
        them: the first min(limit, n) revisions. */
    method History(id: string, limit: nat) returns (reply: Result<seq<Finding>, Error>)
      requires Valid()
      ensures reply == Err(BadLimit) <==> limit < 1 || limit > 1000
      ensures 1 <= limit <= 1000 ==> (reply == Err(UnknownFinding) <==> id !in findings)
      ensures reply.Ok? ==>
                && id in findings
                && |reply.value| == (if limit <= findings[id].content.revision then limit
                   else findings[id].content.revision)
                && forall k :: 1 <= k <= |reply.value| ==>
                                 (id, k) in revisions && reply.value[k - 1] == revisions[(id, k)]
    {
      if limit < 1 || limit > 1000 {
        return Err(BadLimit);
      }
      NumbersAreARange(id);
      ghost var n := if id in findings then findings[id].content.revision else 0;
      var rows := Oldest(id, Numbers(id), limit, n);
      if rows == [] {
        return Err(UnknownFinding);
      }
      return Ok(rows);
    }
  }

  lemma {:induction false} FirstErrorStays(evidence: map<string, Evidence>, ids: seq<string>, n: nat, who: Identity)
    requires n <= |ids| && EvidenceErrors(evidence, ids[..n], who).Some?
    ensures EvidenceErrors(evidence, ids, who) == EvidenceErrors(evidence, ids[..n], who)
    decreases |ids|
  {
    if n == |ids| {
      assert ids[..n] == ids;
    } else {
      assert ids[..|ids| - 1][..n] == ids[..n];
      FirstErrorStays(evidence, ids[..|ids| - 1], n, who);
    }
  }
}
