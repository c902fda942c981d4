/** The per-repository FIFO merge queue of the parallel development coordinator. */
module MergeQueue {
  import opened Outcomes
  import opened Ordering
  import opened PythonText

  const AUTHORITY_PREFIX := "authority:"
  const ENTRY_PREFIX := "merge-queue:"
  const HEAD_DRIFTED := "integration-head-drift:"
  const HEAD_OBSERVED := "integration-head-observed:"
  const HEAD_REVALIDATED := "integration-head-revalidated:"
  const MERGE_QUEUE_AUTHORITY_REFERENCE_REQUIRED := "MERGE_QUEUE_AUTHORITY_REFERENCE_REQUIRED"
  const MERGE_QUEUE_ENTRY_ALREADY_INTEGRATED := "MERGE_QUEUE_ENTRY_ALREADY_INTEGRATED"
  const MERGE_QUEUE_ENTRY_NOT_FOUND := "MERGE_QUEUE_ENTRY_NOT_FOUND"
  const MERGE_QUEUE_ENTRY_NOT_READY := "MERGE_QUEUE_ENTRY_NOT_READY"
  const MERGE_QUEUE_INTEGRATED_HEAD_INVALID := "MERGE_QUEUE_INTEGRATED_HEAD_INVALID"
  const MERGE_QUEUE_INTEGRATION_EVIDENCE_REQUIRED := "MERGE_QUEUE_INTEGRATION_EVIDENCE_REQUIRED"
  const MERGE_QUEUE_INTEGRATION_HEAD_DRIFT := "MERGE_QUEUE_INTEGRATION_HEAD_DRIFT"
  const MERGE_QUEUE_INTEGRATION_HEAD_INVALID := "MERGE_QUEUE_INTEGRATION_HEAD_INVALID"
  const MERGE_QUEUE_NOT_AT_FRONT := "MERGE_QUEUE_NOT_AT_FRONT"
  const MERGE_QUEUE_POST_INTEGRATION_HEAD_MISMATCH := "MERGE_QUEUE_POST_INTEGRATION_HEAD_MISMATCH"
  const MERGE_QUEUE_REMOTE_CHECKPOINT_REQUIRED := "MERGE_QUEUE_REMOTE_CHECKPOINT_REQUIRED"
  const MERGE_QUEUE_TASK_ALREADY_ENQUEUED := "MERGE_QUEUE_TASK_ALREADY_ENQUEUED"

  datatype QueueStatus = Queued | Ready | ReconciliationRequired | Integrated

  datatype Entry = Entry(entryId: string, taskId: string, projectId: string, repository: string, taskBranch: string,
                         candidateSha: string, expectedHead: string, scope: seq<string>, status: QueueStatus,
                         enqueuedAt: int, updatedAt: int, integratedHead: Option<string>, evidence: seq<string>)

  /** What the queue reads of an engineering task. */
  datatype MergeTask = MergeTask(taskId: string, projectId: string, repository: string, taskBranch: string,
                                 latestRemoteSha: Option<string>, integratedHeadAtCreation: string, scope: seq<string>)

  predicate IsSha(s: string) {
    |s| == 40 && forall i :: 0 <= i < 40 ==> '0' <= s[i] <= '9' || 'a' <= s[i] <= 'f' || 'A' <= s[i] <= 'F'
  }

  ghost predicate IsHexDigit(c: char) {
    c in {'0', '1', '2', '3', '4', '5', '6', '7', '8', '9', 'a', 'b', 'c', 'd', 'e', 'f'}
  }

  /** A commit id is forty hexadecimal digits in either letter case. */
  lemma ShaIsHex(s: string)
    ensures IsSha(s) <==> |s| == 40 && forall k :: 0 <= k < |s| ==> IsHexDigit(Lower(s)[k])
  {
    forall k | 0 <= k < |s|
      ensures IsHexDigit(Lower(s)[k]) <==> '0' <= s[k] <= '9' || 'a' <= s[k] <= 'f' || 'A' <= s[k] <= 'F'
    {
    }
    hide IsHexDigit, Lower;
  }

  /** A head as the resolver reports it after normalization. */
  predicate IsHead(s: string) { IsSha(s) && Lower(s) == s }

  lemma LowerIsHead(s: string)
    requires IsSha(s)
    ensures IsHead(Lower(s))
  {
    assert Lower(Lower(s)) == Lower(s);
  }

  /** Queue order: enqueue time, then entry id. */
  predicate EntryLeq(a: Entry, b: Entry) {
    a.enqueuedAt < b.enqueuedAt || (a.enqueuedAt == b.enqueuedAt && TextLeq(a.entryId, b.entryId))
  }

  lemma EntryOrder()
    ensures TotalPreorder(EntryLeq)
  {
    forall a, b ensures EntryLeq(a, b) || EntryLeq(b, a) {
      TextLeqTotal(a.entryId, b.entryId);
    }
    forall a, b, c | EntryLeq(a, b) && EntryLeq(b, c) ensures EntryLeq(a, c) {
      if a.enqueuedAt == c.enqueuedAt { TextLeqTransitive(a.entryId, b.entryId, c.entryId); }
    }
  }

  // ---------------------------------------------------------------- invariants

  ghost predicate Front(q: seq<Entry>, k: nat)
    requires k < |q|
  {
    forall i :: 0 <= i < k && q[i].repository == q[k].repository ==> q[i].status == Integrated
  }

  /** Integrated and ready entries have only integrated entries of their repository before them. */
  ghost predicate Ordered(q: seq<Entry>) {
    forall k :: 0 <= k < |q| && (q[k].status == Integrated || q[k].status == Ready) ==> Front(q, k)
  }

  ghost predicate OneOpenPerTask(q: seq<Entry>) {
    forall i, j :: 0 <= i < j < |q| && q[i].taskId == q[j].taskId ==>
      q[i].status == Integrated || q[j].status == Integrated
  }

  /** The consequence a reader relies on: at most one ready entry per repository. */
  lemma OneReadyPerRepository(q: seq<Entry>, i: nat, j: nat)
    requires Ordered(q) && i < j < |q| && q[i].repository == q[j].repository
    ensures !(q[i].status == Ready && q[j].status == Ready)
    ensures q[j].status == Integrated ==> q[i].status == Integrated
  {
    if q[j].status == Ready || q[j].status == Integrated {
      assert Front(q, j);
    }
  }

  // ------------------------------------------------------------- transitions

  /** An update keeps what was enqueued and changes only the progress fields. */
  ghost predicate SameRequest(a: Entry, b: Entry) {
    b == a.(status := b.status, updatedAt := b.updatedAt, integratedHead := b.integratedHead, evidence := b.evidence)
  }

  function Drifted(e: Entry, seen: string, now: int): Entry {
    e.(status := ReconciliationRequired, updatedAt := now, evidence := e.evidence + [HEAD_DRIFTED + seen])
  }

  function Readied(e: Entry, seen: string, now: int): Entry {
    e.(status := Ready, updatedAt := now, evidence := e.evidence + [HEAD_REVALIDATED + seen])
  }

  function Done(e: Entry, head: string, authority: string, evidence: seq<string>, now: int): Entry {
    e.(status := Integrated, integratedHead := Some(head), updatedAt := now,
       evidence := e.evidence + [AUTHORITY_PREFIX + authority] + evidence)
  }

  ghost predicate DriftsTo(x: Entry, e: Entry, head: string, now: int) {
    IsSha(head) && Lower(head) != x.expectedHead && e == Drifted(x, Lower(head), now)
  }

  ghost predicate ReadiesTo(x: Entry, e: Entry, head: string, now: int) {
    IsSha(head) && Lower(head) == x.expectedHead && e == Readied(x, Lower(head), now)
  }

  ghost predicate IntegratesTo(x: Entry, e: Entry, head: string, authority: string, evidence: seq<string>, now: int) {
    && IsSha(head) && !IsBlank(authority) && evidence != [] && (forall item :: item in evidence ==> !IsBlank(item))
    && e == Done(x, Lower(head), authority, evidence, now)
  }

  /** What one operation makes of the first entry with its id. */
  ghost predicate Advances(q: seq<Entry>, k: nat, e: Entry) {
    && k < |q| && q[k].status != Integrated
    && (forall i :: 0 <= i < k ==> q[i].entryId != q[k].entryId)
    && (|| (exists head, now :: DriftsTo(q[k], e, head, now))
        || (Front(q, k) && exists head, now :: ReadiesTo(q[k], e, head, now))
        || (q[k].status == Ready && exists head, authority, evidence, now ::
              IntegratesTo(q[k], e, head, authority, evidence, now)))
  }

  lemma AdvanceMeans(q: seq<Entry>, k: nat, e: Entry)
    requires Advances(q, k, e)
    ensures k < |q| && q[k].status != Integrated && SameRequest(q[k], e) && e.status != Queued
    ensures forall i :: 0 <= i < k ==> q[i].entryId != q[k].entryId
    ensures e.status == Ready ==> Front(q, k) && IsHead(q[k].expectedHead)
    ensures e.status == Integrated ==> q[k].status == Ready && e.integratedHead.Some?
  {
    if head, now :| ReadiesTo(q[k], e, head, now) { LowerIsHead(head); }
  }

  /** Every earlier integrated or ready entry of the repository sorts before the newcomer. */
  ghost predicate ArrivesAfter(q: seq<Entry>, e: Entry) {
    forall x :: x in q && x.repository == e.repository && (x.status == Integrated || x.status == Ready) ==>
      EntryLeq(x, e)
  }

  ghost predicate Opens(q: seq<Entry>, e: Entry) {
    && (e.status == Queued || e.status == ReconciliationRequired)
    && forall x :: x in q && x.taskId == e.taskId ==> x.status == Integrated
  }

  lemma AdvanceKeepsOrder(q: seq<Entry>, k: nat, e: Entry)
    requires IsSorted(EntryLeq, q) && Ordered(q) && OneOpenPerTask(q) && Advances(q, k, e)
    ensures IsSorted(EntryLeq, q[k := e]) && Ordered(q[k := e]) && OneOpenPerTask(q[k := e])
  {
    AdvanceMeans(q, k, e);
    hide Advances;
    var q' := q[k := e];
    forall i, j | 0 <= i < j < |q'| ensures EntryLeq(q'[i], q'[j]) {
      assert EntryLeq(q[i], q[j]);
    }
    forall j | 0 <= j < |q'| && (q'[j].status == Integrated || q'[j].status == Ready) ensures Front(q', j) {
      assert Front(q, j) by {
        if j == k && e.status == Integrated { assert q[k].status == Ready; }
      }
    }
  }

  /**
   * Enqueueing keeps the queue ordered exactly when the newcomer sorts after every
   * integrated or ready entry of its repository. A strictly increasing clock ensures it.
   */
  lemma EnqueueKeepsOrderIff(q: seq<Entry>, e: Entry)
    requires IsSorted(EntryLeq, q) && Ordered(q) && OneOpenPerTask(q) && Opens(q, e)
    ensures var q' := Insert(EntryLeq, q, e);
            IsSorted(EntryLeq, q') && OneOpenPerTask(q') && (Ordered(q') <==> ArrivesAfter(q, e))
  {
    EntryOrder();
    InsertKeepsSorted(EntryLeq, q, e);
    var at := InsertSplits(EntryLeq, q, e);
    SplitKeepsTasks(q, e, at);
    if ArrivesAfter(q, e) {
      SplitKeepsOrder(q, e, at);
    } else {
      var x :| x in q && x.repository == e.repository && (x.status == Integrated || x.status == Ready)
      && !EntryLeq(x, e);
      LateInsertBreaksOrder(q, e, at, x);
    }
  }

  lemma SplitKeepsTasks(q: seq<Entry>, e: Entry, at: nat)
    requires OneOpenPerTask(q) && Opens(q, e) && at <= |q|
    ensures OneOpenPerTask(q[..at] + [e] + q[at..])
  {
    var q' := q[..at] + [e] + q[at..];
    forall i, j | 0 <= i < j < |q'| && q'[i].taskId == q'[j].taskId
      ensures q'[i].status == Integrated || q'[j].status == Integrated
    {
      if i != at && j != at {
        assert q'[i] == q[if i < at then i else i - 1] && q'[j] == q[if j < at then j else j - 1];
      }
    }
  }

  lemma SplitKeepsOrder(q: seq<Entry>, e: Entry, at: nat)
    requires Ordered(q) && Opens(q, e) && at <= |q| && ArrivesAfter(q, e)
    requires forall i :: at <= i < |q| ==> !EntryLeq(q[i], e)
    ensures Ordered(q[..at] + [e] + q[at..])
  {
    var q' := q[..at] + [e] + q[at..];
    forall k | 0 <= k < |q'| && (q'[k].status == Integrated || q'[k].status == Ready) ensures Front(q', k) {
      var k0 := if k < at then k else k - 1;
      assert q'[k] == q[k0] && q[k0] in q && Front(q, k0);
      var x := q[k0];
      assert x.repository == e.repository ==> EntryLeq(x, e);
      assert k0 >= at ==> !EntryLeq(x, e);
      forall i | 0 <= i < k && q'[i].repository == q'[k].repository ensures q'[i].status == Integrated {
        if i < at {
          assert q'[i] == q[i];
        } else if i > at {
          assert q'[i] == q[i - 1];
        }
      }
    }
  }

  lemma StaysInFront(q: seq<Entry>, e: Entry, at: nat, k: nat)
    requires IsSorted(EntryLeq, q) && TotalPreorder(EntryLeq) && k < at <= |q| && EntryLeq(q[at - 1], e)
    ensures EntryLeq(q[k], e)
  {
    assert k == at - 1 || EntryLeq(q[k], q[at - 1]);
  }

  lemma OrderedMeansFront(q: seq<Entry>, k: nat)
    requires k < |q|
    ensures Ordered(q) && (q[k].status == Integrated || q[k].status == Ready) ==> Front(q, k)
  {
  }

  lemma LateInsertBreaksOrder(q: seq<Entry>, e: Entry, at: nat, x: Entry)
    requires IsSorted(EntryLeq, q) && TotalPreorder(EntryLeq) && Opens(q, e) && at <= |q|
    requires at > 0 ==> EntryLeq(q[at - 1], e)
    requires x in q && x.repository == e.repository && (x.status == Integrated || x.status == Ready) && !EntryLeq(x, e)
    ensures !Ordered(q[..at] + [e] + q[at..])
  {
    var q' := q[..at] + [e] + q[at..];
    var k: nat :| k < |q| && q[k] == x;
    if k < at { StaysInFront(q, e, at, k); }
    assert q'[k + 1] == x && q'[at] == e;
    OrderedMeansFront(q', k + 1);
  }

  lemma LaterClockArrivesAfter(q: seq<Entry>, e: Entry)
    requires forall x :: x in q ==> x.enqueuedAt < e.enqueuedAt
    ensures ArrivesAfter(q, e) && Insert(EntryLeq, q, e) == q + [e]
  {
  }

  lemma {:induction false} CommonPrefix(p: string, a: string, b: string)
    ensures TextLeq(p + a, p + b) <==> TextLeq(a, b)
  {
    if p == "" {
      assert p + a == a && p + b == b;
    } else {
      assert (p + a)[1..] == p[1..] + a && (p + b)[1..] == p[1..] + b;
      CommonPrefix(p[1..], a, b);
    }
  }

  // ----------------------------------------------------------------- the queue

  function NewEntry(task: MergeTask, head: string, now: int): Entry
    requires task.latestRemoteSha.Some?
  {
    var expected := Lower(task.integratedHeadAtCreation);
    Entry(ENTRY_PREFIX + task.taskId, task.taskId, task.projectId, task.repository, task.taskBranch,
          Lower(task.latestRemoteSha.value), expected, task.scope,
          if Lower(head) == expected then Queued else ReconciliationRequired,
          now, now, None, [HEAD_OBSERVED + Lower(head)])
  }

  /** The entry carries the checkpoint to be merged and the head it was built on, and is open with a first note. */
  ghost predicate Presents(e: Entry, task: MergeTask, head: string, now: int) {
    && e.entryId == ENTRY_PREFIX + e.taskId && e.taskId == task.taskId && e.projectId == task.projectId
    && e.repository == task.repository && e.taskBranch == task.taskBranch && e.scope == task.scope
    && task.latestRemoteSha.Some? && e.candidateSha == Lower(task.latestRemoteSha.value)
    && e.expectedHead == Lower(task.integratedHeadAtCreation)
    && (Lower(head) == e.expectedHead ==> e.status == Queued)
    && (Lower(head) != e.expectedHead ==> e.status == ReconciliationRequired)
    && e.enqueuedAt == e.updatedAt == now && e.integratedHead.None? && e.evidence == [HEAD_OBSERVED + Lower(head)]
  }

  /** Progress is noted in the evidence, and only an integration records a head. */
  lemma ProgressFields(e: Entry, seen: string, authority: string, evidence: seq<string>, now: int)
    ensures var d := Drifted(e, seen, now);
            SameRequest(e, d) && d.status == ReconciliationRequired && d.updatedAt == now
            && d.integratedHead == e.integratedHead && d.evidence == e.evidence + [HEAD_DRIFTED + seen]
    ensures var d := Readied(e, seen, now);
            SameRequest(e, d) && d.status == Ready && d.updatedAt == now
            && d.integratedHead == e.integratedHead && d.evidence == e.evidence + [HEAD_REVALIDATED + seen]
    ensures var d := Done(e, seen, authority, evidence, now);
            SameRequest(e, d) && d.status == Integrated && d.updatedAt == now && d.integratedHead == Some(seen)
            && d.evidence == e.evidence + [AUTHORITY_PREFIX + authority] + evidence
  {
  }

  ghost predicate EnqueuedAs(e: Entry, task: MergeTask, head: string, now: int) {
    task.latestRemoteSha.Some? && IsSha(head) && e == NewEntry(task, head, now)
  }

  /** An entry as `enqueue` makes it. */
  ghost predicate IsNewEntry(e: Entry) { exists task, head, now :: EnqueuedAs(e, task, head, now) }

  /** The first entry with the id; a later entry with the same id is never found. */
  ghost predicate IsFirst(q: seq<Entry>, entryId: string, k: nat) {
    k < |q| && q[k].entryId == entryId && forall i :: 0 <= i < k ==> q[i].entryId != entryId
  }

  ghost predicate Missing(q: seq<Entry>, entryId: string) {
    forall x :: x in q ==> x.entryId != entryId
  }

  class Queue {
    var stored: seq<Entry>

    /** The listing every operation starts from. */
    function View(): seq<Entry>
      reads this
    {
      Sort(EntryLeq, stored)
    }

    ghost predicate Valid()
      reads this
    {
      IsSorted(EntryLeq, View()) && OneOpenPerTask(View())
    }

    constructor ()
      ensures Valid() && Ordered(View()) && View() == []
    {
      stored := [];
    }

    /** A task is appended once its earlier entries are integrated; nothing else changes the queue. */
    method Enqueue(task: MergeTask, head: string, now: int) returns (r: Result<Entry>)
      requires Valid()
      modifies this
      ensures Valid()
      ensures task.latestRemoteSha.None? ==> r == Err(MERGE_QUEUE_REMOTE_CHECKPOINT_REQUIRED)
      ensures task.latestRemoteSha.Some? && !IsSha(head) ==> r == Err(MERGE_QUEUE_INTEGRATION_HEAD_INVALID)
      ensures task.latestRemoteSha.Some? && IsSha(head) ==>
                var e := NewEntry(task, head, now);
                if Opens(old(View()), e)
                then r == Ok(e) && View() == Insert(EntryLeq, old(View()), e)
                     && (old(Ordered(View())) ==> (Ordered(View()) <==> ArrivesAfter(old(View()), e)))
                else View() == old(View()) && (if e in View() then r == Ok(e)
                                               else r == Err(MERGE_QUEUE_TASK_ALREADY_ENQUEUED))
      ensures r.Ok? ==> Presents(r.value, task, head, now) && r.value in View()
      ensures r.Err? ==> View() == old(View())
      ensures (forall x :: x in old(View()) ==> x.enqueuedAt < now) ==> Step(old(View()), View())
    {
      if task.latestRemoteSha.None? {
        return Err(MERGE_QUEUE_REMOTE_CHECKPOINT_REQUIRED);
      }
      if !IsSha(head) {
        return Err(MERGE_QUEUE_INTEGRATION_HEAD_INVALID);
      }
      hide Ordered, ArrivesAfter, Step, IsSorted, Insert, Sort, IsSha, EntryLeq;
      var entry := NewEntry(task, head, now);
      var entries := View();
      StepStays(entries);
      for i := 0 to |entries|
        invariant forall x :: x in entries[..i] && x.taskId == task.taskId ==> x.status == Integrated
      {
        var existing := entries[i];
        assert entries[..i + 1] == entries[..i] + [existing] && existing in entries;
        if existing.taskId == task.taskId {
          if existing == entry {
            return Ok(existing);
          }
          if existing.status != Integrated {
            OpenEntryIsUnique(entries, i);
            return Err(MERGE_QUEUE_TASK_ALREADY_ENQUEUED);
          }
        }
      }
      assert entries[..|entries|] == entries;
      EnqueueSteps(entries, task, head, now);
      stored := entries + [entry];
      r := Ok(entry);
    }

    method Find(entryId: string) returns (found: Option<nat>)
      ensures found.Some? ==> IsFirst(View(), entryId, found.value)
      ensures found.None? ==> Missing(View(), entryId)
    {
      var entries := View();
      for i := 0 to |entries|
        invariant forall j :: 0 <= j < i ==> entries[j].entryId != entryId
      {
        if entries[i].entryId == entryId {
          return Some(i);
        }
      }
      found := None;
    }

    method Replace(k: nat, e: Entry)
      requires Valid() && k < |View()| && SameRequest(View()[k], e) && View()[k].status != Integrated
      modifies this
      ensures Valid() && View() == old(View())[k := e]
      ensures Advances(old(View()), k, e) ==> Step(old(View()), View()) && (old(Ordered(View())) ==> Ordered(View()))
    {
      var entries := View();
      if Ordered(entries) && Advances(entries, k, e) { AdvanceKeepsOrder(entries, k, e); }
      UpdateKeepsShape(entries, k, e);
      stored := entries[k := e];
      SortedIsFixed(EntryLeq, stored);
    }

    /** Grant the merge turn to the first open entry of the repository while its head is unchanged. */
    method RequireReady(entryId: string, head: string, now: int) returns (r: Result<Entry>)
      requires Valid()
      modifies this
      ensures Valid() && (old(Ordered(View())) ==> Ordered(View())) && Step(old(View()), View())
      ensures Missing(old(View()), entryId) ==> r == Err(MERGE_QUEUE_ENTRY_NOT_FOUND) && View() == old(View())
      ensures forall k: nat :: IsFirst(old(View()), entryId, k) ==>
                var q, e, seen := old(View()), old(View())[k], Lower(head);
                if !IsSha(head) then r == Err(MERGE_QUEUE_INTEGRATION_HEAD_INVALID) && View() == q
                else if e.status == Integrated then r == Err(MERGE_QUEUE_ENTRY_ALREADY_INTEGRATED) && View() == q
                else if seen != e.expectedHead then
                  r == Err(MERGE_QUEUE_INTEGRATION_HEAD_DRIFT)
                  && View() == q[k := Drifted(e, seen, now)]
                else if !Front(q, k) then r == Err(MERGE_QUEUE_NOT_AT_FRONT) && View() == q
                else
                  r == Ok(Readied(e, seen, now)) && View() == q[k := r.value]
    {
      var found := Find(entryId);
      if found.None? {
        return Err(MERGE_QUEUE_ENTRY_NOT_FOUND);
      }
      var entries, k := View(), found.value;
      var entry := entries[k];
      FirstIsUnique(entries, entryId, k);
      if !IsSha(head) {
        return Err(MERGE_QUEUE_INTEGRATION_HEAD_INVALID);
      }
      if entry.status == Integrated {
        return Err(MERGE_QUEUE_ENTRY_ALREADY_INTEGRATED);
      }
      if Lower(head) != entry.expectedHead {
        var drifted := Drifted(entry, Lower(head), now);
        assert DriftsTo(entry, drifted, head, now);
        Replace(k, drifted);
        return Err(MERGE_QUEUE_INTEGRATION_HEAD_DRIFT);
      }
      for i := 0 to k
        invariant forall j :: 0 <= j < i && entries[j].repository == entry.repository ==>
                    entries[j].status == Integrated
      {
        if entries[i].repository == entry.repository && entries[i].status != Integrated {
          return Err(MERGE_QUEUE_NOT_AT_FRONT);
        }
      }
      var ready := Readied(entry, Lower(head), now);
      assert ReadiesTo(entry, ready, head, now);
      Replace(k, ready);
      r := Ok(ready);
    }

    /** Record the integration of a ready entry once the repository shows the integrated head. */
    method MarkIntegrated(entryId: string, integratedHead: string, authority: string, evidence: seq<string>,
                          observed: string, now: int) returns (r: Result<Entry>)
      requires Valid()
      modifies this
      ensures Valid() && (old(Ordered(View())) ==> Ordered(View())) && Step(old(View()), View())
      ensures r.Err? ==> View() == old(View())
      ensures IsBlank(authority) ==> r == Err(MERGE_QUEUE_AUTHORITY_REFERENCE_REQUIRED)
      ensures !IsBlank(authority) && (evidence == [] || exists x :: x in evidence && IsBlank(x)) ==>
                r == Err(MERGE_QUEUE_INTEGRATION_EVIDENCE_REQUIRED)
      ensures r.Ok? <==>
                && !IsBlank(authority) && evidence != [] && (forall x :: x in evidence ==> !IsBlank(x))
                && IsSha(integratedHead) && IsSha(observed) && Lower(observed) == Lower(integratedHead)
                && exists k: nat :: IsFirst(old(View()), entryId, k) && old(View())[k].status == Ready
      ensures r.Ok? ==> exists k: nat :: (IsFirst(old(View()), entryId, k) && View() == old(View())[k := r.value]
                && r.value == Done(old(View())[k], Lower(integratedHead), authority, evidence, now))
    {
      if IsBlank(authority) {
        return Err(MERGE_QUEUE_AUTHORITY_REFERENCE_REQUIRED);
      }
      if evidence == [] || exists x :: x in evidence && IsBlank(x) {
        return Err(MERGE_QUEUE_INTEGRATION_EVIDENCE_REQUIRED);
      }
      var found := Find(entryId);
      if found.None? {
        return Err(MERGE_QUEUE_ENTRY_NOT_FOUND);
      }
      var k := found.value;
      var entry := View()[k];
      FirstIsUnique(View(), entryId, k);
      if entry.status != Ready {
        return Err(MERGE_QUEUE_ENTRY_NOT_READY);
      }
      if !IsSha(integratedHead) {
        return Err(MERGE_QUEUE_INTEGRATED_HEAD_INVALID);
      }
      if !IsSha(observed) {
        return Err(MERGE_QUEUE_INTEGRATION_HEAD_INVALID);
      }
      if Lower(observed) != Lower(integratedHead) {
        return Err(MERGE_QUEUE_POST_INTEGRATION_HEAD_MISMATCH);
      }
      var done := Done(entry, Lower(integratedHead), authority, evidence, now);
      assert IntegratesTo(entry, done, integratedHead, authority, evidence, now);
      Replace(k, done);
      r := Ok(done);
    }
  }

  lemma StepStays(q: seq<Entry>)
    ensures Step(q, q)
  {
  }

  /** Everything that appending the entry and sorting means for the queue. */
  lemma EnqueueSteps(q: seq<Entry>, task: MergeTask, head: string, now: int)
    requires task.latestRemoteSha.Some? && IsSha(head) && Opens(q, NewEntry(task, head, now))
    requires IsSorted(EntryLeq, q) && OneOpenPerTask(q)
    ensures var e := NewEntry(task, head, now);
            var q' := Insert(EntryLeq, q, e);
            && Presents(e, task, head, now) && e in q'
            && Sort(EntryLeq, q + [e]) == q' && IsSorted(EntryLeq, q') && OneOpenPerTask(q')
            && (Ordered(q) ==> (Ordered(q') <==> ArrivesAfter(q, e)))
            && ((forall x :: x in q ==> x.enqueuedAt < now) ==> Step(q, q'))
  {
    var e := NewEntry(task, head, now);
    NewEntryPresents(task, head, now);
    hide NewEntry, Presents, IsSha, Ordered, ArrivesAfter, EntryLeq, Opens, Insert, Sort, Step;
    InsertSteps(q, e);
  }

  lemma NewEntryPresents(task: MergeTask, head: string, now: int)
    requires task.latestRemoteSha.Some? && IsSha(head)
    ensures var e := NewEntry(task, head, now); e.enqueuedAt == now && IsNewEntry(e) && Presents(e, task, head, now)
  {
    assert EnqueuedAs(NewEntry(task, head, now), task, head, now);
  }

  lemma InsertSteps(q: seq<Entry>, e: Entry)
    requires IsNewEntry(e) && Opens(q, e) && IsSorted(EntryLeq, q) && OneOpenPerTask(q)
    ensures var q' := Insert(EntryLeq, q, e);
            && e in q' && Sort(EntryLeq, q + [e]) == q' && IsSorted(EntryLeq, q') && OneOpenPerTask(q')
            && (Ordered(q) ==> (Ordered(q') <==> ArrivesAfter(q, e)))
            && ((forall x :: x in q ==> x.enqueuedAt < e.enqueuedAt) ==> Step(q, q'))
  {
    hide IsNewEntry, Ordered, ArrivesAfter;
    AppendIsInsert(q, e);
    InsertKeepsTasks(q, e);
    InsertKeepsElements(EntryLeq, q, e);
    assert e in multiset(Insert(EntryLeq, q, e));
    if Ordered(q) { EnqueueKeepsOrderIff(q, e); }
    if forall x :: x in q ==> x.enqueuedAt < e.enqueuedAt { LaterClockArrivesAfter(q, e); }
  }

  lemma FirstIsUnique(q: seq<Entry>, entryId: string, k: nat)
    requires IsFirst(q, entryId, k)
    ensures forall j: nat :: IsFirst(q, entryId, j) ==> j == k
  {
  }

  lemma OpenEntryIsUnique(q: seq<Entry>, i: nat)
    requires OneOpenPerTask(q) && i < |q| && q[i].status != Integrated
    ensures forall x :: x in q && x.taskId == q[i].taskId && x.status != Integrated ==> x == q[i]
  {
    forall x | x in q && x.taskId == q[i].taskId && x.status != Integrated ensures x == q[i] {
      var j :| 0 <= j < |q| && q[j] == x;
    }
  }

  lemma AppendIsInsert(q: seq<Entry>, e: Entry)
    requires IsSorted(EntryLeq, q)
    ensures Sort(EntryLeq, q + [e]) == Insert(EntryLeq, q, e)
  {
    SortedIsFixed(EntryLeq, q);
    assert (q + [e])[..|q|] == q;
  }

  lemma InsertKeepsTasks(q: seq<Entry>, e: Entry)
    requires IsSorted(EntryLeq, q) && OneOpenPerTask(q) && Opens(q, e)
    ensures IsSorted(EntryLeq, Insert(EntryLeq, q, e)) && OneOpenPerTask(Insert(EntryLeq, q, e))
  {
    EntryOrder();
    InsertKeepsSorted(EntryLeq, q, e);
    var at := InsertSplits(EntryLeq, q, e);
    SplitKeepsTasks(q, e, at);
  }

  lemma UpdateKeepsShape(q: seq<Entry>, k: nat, e: Entry)
    requires IsSorted(EntryLeq, q) && OneOpenPerTask(q) && k < |q| && SameRequest(q[k], e) && q[k].status != Integrated
    ensures IsSorted(EntryLeq, q[k := e]) && OneOpenPerTask(q[k := e])
  {
    var q' := q[k := e];
    forall i, j | 0 <= i < j < |q'| ensures EntryLeq(q'[i], q'[j]) {
      assert EntryLeq(q[i], q[j]);
    }
  }

  // ------------------------------------------------------------- whole runs

  /** One operation under a strictly increasing clock: nothing, an append, or an advance. */
  ghost predicate Step(q: seq<Entry>, q': seq<Entry>) {
    || q' == q
    || (exists e :: IsNewEntry(e) && Opens(q, e) && (forall x :: x in q ==> x.enqueuedAt < e.enqueuedAt)
                    && q' == q + [e])
    || (exists k: nat, e :: Advances(q, k, e) && q' == q[k := e])
  }

  /** Any sequence of operations. */
  ghost predicate IsChain(chain: seq<seq<Entry>>) {
    chain != [] && forall t: nat :: t < |chain| - 1 ==> StepAt(chain, t)
  }

  /** Any sequence of operations on a new queue. */
  ghost predicate IsRun(run: seq<seq<Entry>>) { IsChain(run) && run[0] == [] }

  ghost predicate StepAt(run: seq<seq<Entry>>, t: nat) {
    t + 1 < |run| && Step(run[t], run[t + 1])
  }

  lemma StepKeepsOrder(q: seq<Entry>, q': seq<Entry>)
    requires IsSorted(EntryLeq, q) && Ordered(q) && OneOpenPerTask(q) && Step(q, q')
    ensures IsSorted(EntryLeq, q') && Ordered(q') && OneOpenPerTask(q')
  {
    if q' != q {
      if e :| IsNewEntry(e) && Opens(q, e) && (forall x :: x in q ==> x.enqueuedAt < e.enqueuedAt) && q' == q + [e] {
        LaterClockArrivesAfter(q, e);
        EnqueueKeepsOrderIff(q, e);
      } else {
        var k: nat, e :| Advances(q, k, e) && q' == q[k := e];
        AdvanceKeepsOrder(q, k, e);
      }
    }
  }

  /** In every reachable state entries integrate in enqueue order, one ready entry at a time. */
  lemma {:induction false} RunsStayOrdered(run: seq<seq<Entry>>, t: nat)
    requires IsRun(run) && t < |run|
    ensures IsSorted(EntryLeq, run[t]) && Ordered(run[t]) && OneOpenPerTask(run[t])
  {
    if t > 0 {
      RunsStayOrdered(run, t - 1);
      assert StepAt(run, t - 1);
      StepKeepsOrder(run[t - 1], run[t]);
    }
  }

  lemma StepKeepsEntry(q: seq<Entry>, q': seq<Entry>, k: nat)
    requires Step(q, q') && k < |q|
    ensures k < |q'| && SameRequest(q[k], q'[k])
    ensures q[k].status == Integrated ==> q'[k] == q[k]
    ensures q'[k] != q[k] ==> forall i :: 0 <= i < k ==> q[i].entryId != q[k].entryId
  {
    if q' != q {
      if j: nat, e :| Advances(q, j, e) && q' == q[j := e] {
        AdvanceMeans(q, j, e);
        assert j == k || q'[k] == q[k];
      }
    }
  }

  /** Positions are stable and an integrated entry never changes again. */
  lemma {:induction false} IntegratedIsPermanent(run: seq<seq<Entry>>, s: nat, t: nat, k: nat)
    requires IsChain(run) && s <= t < |run| && k < |run[s]|
    ensures k < |run[t]| && SameRequest(run[s][k], run[t][k])
    ensures run[s][k].status == Integrated ==> run[t][k] == run[s][k]
  {
    if s < t {
      IntegratedIsPermanent(run, s, t - 1, k);
      assert StepAt(run, t - 1);
      StepKeepsEntry(run[t - 1], run[t], k);
    }
  }

  /** What the stored entries are checked for when they are read back, and what a turn requires. */
  ghost predicate EntryOk(e: Entry) {
    (e.status == Integrated ==> e.integratedHead.Some?)
    && (e.status == Integrated || e.status == Ready ==> IsHead(e.expectedHead))
  }

  /** Every reachable queue can be read back, and only entries with a proper expected head ever get a turn. */
  lemma {:induction false} EntriesStayOk(run: seq<seq<Entry>>, t: nat, k: nat)
    requires IsRun(run) && t < |run| && k < |run[t]|
    ensures EntryOk(run[t][k])
  {
    if t > 0 {
      assert StepAt(run, t - 1);
      hide Advances, IsHead;
      var q, q' := run[t - 1], run[t];
      if k < |q| {
        EntriesStayOk(run, t - 1, k);
        if q'[k] != q[k] {
          var j: nat, e :| Advances(q, j, e) && q' == q[j := e];
          AdvanceMeans(q, j, e);
        }
      }
    }
  }

  // -------------------------------------------------- two entries in one tick

  /** The only entry of a queue takes its turn. */
  method ReadyAlone(s: Queue, entry: Entry, head: string, now: int)
    requires s.Valid() && s.View() == [entry] && entry.status != Integrated && IsSha(head)
             && Lower(head) == entry.expectedHead
    modifies s
    ensures s.Valid() && s.View() == [Readied(entry, Lower(head), now)]
  {
    OnlyEntry(s.View(), entry);
    hide *;
    var ready := s.RequireReady(entry.entryId, head, now);
  }

  method IntegrateReady(s: Queue, entry: Entry, head: string, now: int)
    requires s.Valid() && s.View() == [entry] && entry.status == Ready && IsSha(head)
    modifies s
    ensures s.Valid() && s.View() == [Done(entry, Lower(head), "authority", ["evidence"], now)]
  {
    OnlyEntry(s.View(), entry);
    assert !IsSpace("authority"[0]) && !IsSpace("evidence"[0]);
    assert !IsBlank("authority") && !IsBlank("evidence");
    hide *;
    var done := s.MarkIntegrated(entry.entryId, head, "authority", ["evidence"], head, now);
  }

  /** Enqueue, take the turn, integrate: all within one tick. */
  method IntegrateAlone(task: MergeTask, tick: int) returns (s: Queue)
    requires task.latestRemoteSha.Some? && IsSha(task.integratedHeadAtCreation)
    ensures s.Valid() && fresh(s)
    ensures var seen := Lower(task.integratedHeadAtCreation);
            s.View() == [Done(Readied(NewEntry(task, task.integratedHeadAtCreation, tick), seen, tick), seen,
                              "authority", ["evidence"], tick)]
  {
    s := new Queue();
    var head := task.integratedHeadAtCreation;
    var entry := NewEntry(task, head, tick);
    assert Opens([], entry) && entry.status == Queued && entry.expectedHead == Lower(head);
    assert Insert(EntryLeq, [], entry) == [entry];
    hide *;
    var enqueued := s.Enqueue(task, head, tick);
    ReadyAlone(s, entry, head, tick);
    var ready := s.View()[0];
    ReadiedFields(entry, Lower(head), tick);
    IntegrateReady(s, ready, head, tick);
  }

  lemma ReadiedFields(e: Entry, seen: string, now: int)
    ensures Readied(e, seen, now).status == Ready
  {
  }

  lemma OnlyEntry(q: seq<Entry>, e: Entry)
    requires q == [e]
    ensures IsFirst(q, e.entryId, 0) && Front(q, 0)
    ensures forall k: nat :: IsFirst(q, e.entryId, k) ==> k == 0
  {
  }

  /**
   * Without a strictly increasing clock: a newcomer of the same tick with the smaller id is put in front of an
   * integrated entry.
   */
  method EqualTicksCanOvertake(task: MergeTask, smaller: MergeTask, tick: int) returns (s: Queue)
    requires task.latestRemoteSha.Some? && smaller.latestRemoteSha.Some? && IsSha(task.integratedHeadAtCreation)
    requires smaller.repository == task.repository && !TextLeq(task.taskId, smaller.taskId)
    ensures s.Valid() && |s.View()| == 2 && !Ordered(s.View())
    ensures s.View()[0].status != Integrated && s.View()[1].status == Integrated && s.View()[1].taskId == task.taskId
  {
    s := IntegrateAlone(task, tick);
    var integrated := s.View()[0];
    var entry := NewEntry(smaller, task.integratedHeadAtCreation, tick);
    Overtakes(task, smaller, tick, integrated, entry);
    hide IsSha, NewEntry, Lower, Opens, ArrivesAfter, TextLeq;
    var second := s.Enqueue(smaller, task.integratedHeadAtCreation, tick);
  }

  lemma Overtakes(task: MergeTask, smaller: MergeTask, tick: int, integrated: Entry, entry: Entry)
    requires task.latestRemoteSha.Some? && smaller.latestRemoteSha.Some? && !TextLeq(task.taskId, smaller.taskId)
    requires smaller.repository == task.repository && entry == NewEntry(smaller, task.integratedHeadAtCreation, tick)
    requires integrated.status == Integrated
             && SameRequest(NewEntry(task, task.integratedHeadAtCreation, tick), integrated)
    ensures !EntryLeq(integrated, entry) && Opens([integrated], entry) && !ArrivesAfter([integrated], entry)
            && Ordered([integrated])
    ensures Insert(EntryLeq, [integrated], entry) == [entry, integrated] && entry.status != Integrated
  {
    hide TextLeq;
    CommonPrefix(ENTRY_PREFIX, task.taskId, smaller.taskId);
    assert integrated in [integrated];
    assert [integrated][..0] == [];
  }

  // --------------------------------------------- entries nobody can find again

  /** An entry that reuses the id of an earlier one. */
  ghost predicate Shadowed(q: seq<Entry>, k: nat) {
    k < |q| && exists i :: 0 <= i < k && q[i].entryId == q[k].entryId
  }

  /** Some head of the repository is not the one an entry expects. */
  lemma OtherHead(expected: string) returns (head: string)
    ensures IsSha(head) && Lower(head) != expected
  {
    var a: string, b: string := seq(40, _ => 'a'), seq(40, _ => 'b');
    assert Lower(a)[0] == 'a' && Lower(b)[0] == 'b';
    head := if Lower(a) != expected then a else b;
  }

  /** Looking an entry up by its id finds it, and some operation can advance it, exactly when it is not shadowed. */
  lemma AdvanceableIff(q: seq<Entry>, k: nat)
    requires k < |q| && q[k].status != Integrated
    ensures IsFirst(q, q[k].entryId, k) <==> !Shadowed(q, k)
    ensures (exists e :: Advances(q, k, e)) <==> !Shadowed(q, k)
  {
    if !Shadowed(q, k) {
      var head := OtherHead(q[k].expectedHead);
      assert DriftsTo(q[k], Drifted(q[k], Lower(head), 0), head, 0);
      assert Advances(q, k, Drifted(q[k], Lower(head), 0));
    }
  }

  /** A task that is enqueued again after its integration gets a shadowed entry: the id is made of the task id alone. */
  lemma ShadowedRun(task: MergeTask, again: MergeTask, head: string, evidence: seq<string>)
    returns (run: seq<seq<Entry>>)
    requires task.latestRemoteSha.Some? && IsSha(task.integratedHeadAtCreation)
    requires again.taskId == task.taskId && again.latestRemoteSha.Some? && IsSha(head)
    requires evidence != [] && forall item :: item in evidence ==> !IsBlank(item)
    ensures var seen := Lower(task.integratedHeadAtCreation);
            var first := NewEntry(task, task.integratedHeadAtCreation, 1);
            var done := Done(Readied(first, seen, 2), Lower(head), "authority", evidence, 3);
            run == [[], [first], [Readied(first, seen, 2)], [done], [done, NewEntry(again, head, 4)]]
    ensures IsRun(run) && Shadowed(run[4], 1) && run[4][1].status != Integrated
  {
    var created := task.integratedHeadAtCreation;
    var first, second := NewEntry(task, created, 1), NewEntry(again, head, 4);
    assert first.status == Queued && first.expectedHead == Lower(created) && first.entryId == second.entryId;
    assert EnqueuedAs(first, task, created, 1) && EnqueuedAs(second, again, head, 4);
    hide NewEntry, IsSha, IsNewEntry;
    IntegratesAlone(first, created, head, evidence);
    var ready := Readied(first, Lower(created), 2);
    var done := Done(ready, Lower(head), "authority", evidence, 3);
    FollowsIntegrated(done, second);
    run := FourSteps([], [first], [ready], [done], [done, second]);
    assert run[4][0].entryId == run[4][1].entryId;
  }

  lemma FourSteps(a: seq<Entry>, b: seq<Entry>, c: seq<Entry>, d: seq<Entry>, e: seq<Entry>)
    returns (chain: seq<seq<Entry>>)
    requires Step(a, b) && Step(b, c) && Step(c, d) && Step(d, e)
    ensures chain == [a, b, c, d, e] && IsChain(chain)
  {
    hide Step;
    chain := [a, b, c, d, e];
    assert StepAt(chain, 0) && StepAt(chain, 1) && StepAt(chain, 2) && StepAt(chain, 3);
  }

  lemma IntegratesAlone(e: Entry, created: string, head: string, evidence: seq<string>)
    requires IsNewEntry(e) && e.status == Queued && IsSha(created) && Lower(created) == e.expectedHead && IsSha(head)
    requires evidence != [] && forall item :: item in evidence ==> !IsBlank(item)
    ensures var ready := Readied(e, Lower(created), 2);
            Step([], [e]) && Step([e], [ready]) && Step([ready], [Done(ready, Lower(head), "authority", evidence, 3)])
  {
    hide IsNewEntry, IsSha, Lower;
    var ready := Readied(e, Lower(created), 2);
    var done := Done(ready, Lower(head), "authority", evidence, 3);
    assert Opens([], e) && [e] == [] + [e];
    assert ReadiesTo(e, ready, created, 2) && Advances([e], 0, ready) && [ready] == [e][0 := ready];
    assert !IsBlank("authority") by { assert !IsSpace("authority"[0]); }
    hide IsBlank;
    assert IntegratesTo(ready, done, head, "authority", evidence, 3) && Advances([ready], 0, done)
           && [done] == [ready][0 := done];
  }

  lemma FollowsIntegrated(done: Entry, e: Entry)
    requires done.status == Integrated && (e.status == Queued || e.status == ReconciliationRequired)
             && done.enqueuedAt < e.enqueuedAt
    requires IsNewEntry(e)
    ensures Step([done], [done, e])
  {
    hide IsNewEntry;
    assert Opens([done], e) && [done, e] == [done] + [e];
  }

  /** An entry that reuses an earlier id never moves again. */
  lemma {:induction false} ShadowedEntryStays(run: seq<seq<Entry>>, s: nat, t: nat, k: nat)
    requires IsChain(run) && s <= t < |run| && Shadowed(run[s], k)
    ensures k < |run[t]| && run[t][k] == run[s][k] && Shadowed(run[t], k)
  {
    if s < t {
      ShadowedEntryStays(run, s, t - 1, k);
      assert StepAt(run, t - 1);
      var q, q' := run[t - 1], run[t];
      var i: nat :| i < k && q[i].entryId == q[k].entryId;
      StepKeepsEntry(q, q', k);
      StepKeepsEntry(q, q', i);
    }
  }

  /** Behind a shadowed open entry nothing of the repository ever integrates, however much later it is enqueued. */
  lemma ShadowedEntryBlocks(run: seq<seq<Entry>>, s: nat, t: nat, k: nat, j: nat)
    requires IsRun(run) && s <= t < |run| && Shadowed(run[s], k) && run[s][k].status != Integrated
    requires k < j < |run[t]| && run[t][j].repository == run[s][k].repository
    ensures run[t][j].status != Integrated
  {
    ShadowedEntryStays(run, s, t, k);
    RunsStayOrdered(run, t);
    OrderedMeansFront(run[t], j);
  }

  /** An open entry without a future: shadowed, or waiting for a head no repository can have. */
  ghost predicate Stuck(q: seq<Entry>, k: nat) {
    k < |q| && q[k].status != Integrated && (Shadowed(q, k) || (q[k].status != Ready && !IsHead(q[k].expectedHead)))
  }

  lemma StuckStays(q: seq<Entry>, q': seq<Entry>, k: nat)
    requires Step(q, q') && Stuck(q, k)
    ensures Stuck(q', k)
  {
    StepKeepsEntry(q, q', k);
    hide Advances;
    if Shadowed(q, k) {
      var chain := [q, q'];
      assert StepAt(chain, 0);
      ShadowedEntryStays(chain, 0, 1, k);
    } else if q'[k] != q[k] {
      var j: nat, e :| Advances(q, j, e) && q' == q[j := e];
      AdvanceMeans(q, j, e);
      assert j == k;
    }
  }

  lemma {:induction false} StuckForever(chain: seq<seq<Entry>>, t: nat, k: nat)
    requires IsChain(chain) && t < |chain| && Stuck(chain[0], k)
    ensures Stuck(chain[t], k)
  {
    if t > 0 {
      StuckForever(chain, t - 1, k);
      assert StepAt(chain, t - 1);
      StuckStays(chain[t - 1], chain[t], k);
    }
  }

  lemma {:induction false} ChainStaysOrdered(chain: seq<seq<Entry>>, t: nat)
    requires IsChain(chain) && t < |chain| && IsSorted(EntryLeq, chain[0]) && Ordered(chain[0])
             && OneOpenPerTask(chain[0])
    ensures IsSorted(EntryLeq, chain[t]) && Ordered(chain[t]) && OneOpenPerTask(chain[t])
  {
    if t > 0 {
      ChainStaysOrdered(chain, t - 1);
      assert StepAt(chain, t - 1);
      StepKeepsOrder(chain[t - 1], chain[t]);
    }
  }

  /** Neither the entry nor an open entry of its repository before it is stuck. */
  ghost predicate Unblocked(q: seq<Entry>, k: nat) {
    k < |q| && forall j: nat :: j <= k && q[j].repository == q[k].repository ==> !Stuck(q, j)
  }

  ghost predicate Integrates(chain: seq<seq<Entry>>, q: seq<Entry>, k: nat) {
    IsChain(chain) && chain[0] == q && var last := chain[|chain| - 1]; k < |last| && last[k].status == Integrated
  }

  /**
   * In every reachable state, an entry can still be integrated exactly when nothing up to it in its repository is
   * stuck.
   */
  lemma IntegrableIff(run: seq<seq<Entry>>, s: nat, k: nat)
    requires IsRun(run) && s < |run| && k < |run[s]|
    ensures (exists chain :: Integrates(chain, run[s], k)) <==> Unblocked(run[s], k)
  {
    var q := run[s];
    RunsStayOrdered(run, s);
    if chain :| Integrates(chain, q, k) {
      forall j: nat | j <= k && q[j].repository == q[k].repository ensures !Stuck(q, j) {
        if Stuck(q, j) { StuckBlocks(chain, j, k); }
      }
    }
    if Unblocked(q, k) {
      var chain := WorkThrough(q, 0, k);
      assert Integrates(chain, q, k);
    }
  }

  /** Nothing of the repository integrates behind a stuck entry, nor the entry itself. */
  lemma StuckBlocks(chain: seq<seq<Entry>>, j: nat, k: nat)
    requires IsChain(chain) && IsSorted(EntryLeq, chain[0]) && Ordered(chain[0]) && OneOpenPerTask(chain[0])
    requires j <= k < |chain[0]| && chain[0][j].repository == chain[0][k].repository && Stuck(chain[0], j)
    ensures k < |chain[|chain| - 1]| && chain[|chain| - 1][k].status != Integrated
  {
    var t: nat := |chain| - 1;
    StuckForever(chain, t, j);
    ChainStaysOrdered(chain, t);
    IntegratedIsPermanent(chain, 0, t, j);
    IntegratedIsPermanent(chain, 0, t, k);
    OrderedMeansFront(chain[t], k);
  }

  /** Readies and integrates the open entries of the repository one after the other. */
  lemma {:induction false} WorkThrough(q: seq<Entry>, from: nat, k: nat) returns (chain: seq<seq<Entry>>)
    requires from <= k && Unblocked(q, k)
    requires forall i :: 0 <= i < from && q[i].repository == q[k].repository ==> q[i].status == Integrated
    ensures Integrates(chain, q, k)
    decreases k - from
  {
    var q' := q;
    if q[from].repository == q[k].repository && q[from].status != Integrated {
      assert !Stuck(q, from);
      chain := IntegratesFront(q, from);
      q' := chain[2];
    } else {
      chain := [q];
    }
    if from < k {
      StillUnblocked(q, q', from, k);
      var rest := WorkThrough(q', from + 1, k);
      chain := Joined(chain, rest);
    }
  }

  /**
   * The first open entry of a repository becomes ready, if it is not yet, and is integrated with a head that is read
   * back.
   */
  lemma IntegratesFront(q: seq<Entry>, k: nat) returns (chain: seq<seq<Entry>>)
    requires k < |q| && q[k].status != Integrated && !Stuck(q, k) && Front(q, k)
    ensures |chain| == 3 && IsChain(chain) && chain[0] == q
    ensures |chain[2]| == |q| && SameRequest(q[k], chain[2][k]) && chain[2] == q[k := chain[2][k]]
            && chain[2][k].status == Integrated
  {
    var x := q[k];
    var ready := if x.status == Ready then x else Readied(x, x.expectedHead, 0);
    var head := OtherHead("");
    var done := Done(ready, Lower(head), "authority", ["evidence"], 0);
    if x.status != Ready {
      assert ReadiesTo(x, ready, x.expectedHead, 0) && Advances(q, k, ready);
    }
    assert !IsSpace("authority"[0]) && !IsSpace("evidence"[0]);
    assert IntegratesTo(ready, done, head, "authority", ["evidence"], 0);
    assert Advances(q[k := ready], k, done);
    chain := [q, q[k := ready], q[k := done]];
    assert q[k := ready][k := done] == q[k := done] && (ready == x ==> q[k := ready] == q);
    assert StepAt(chain, 0) && StepAt(chain, 1);
  }

  lemma StillUnblocked(q: seq<Entry>, q': seq<Entry>, from: nat, k: nat)
    requires from < k < |q| && Unblocked(q, k) && |q'| == |q| && SameRequest(q[from], q'[from])
             && q' == q[from := q'[from]]
    requires q'[from] == q[from] || q'[from].status == Integrated
    ensures Unblocked(q', k)
  {
    forall j: nat | j <= k && q'[j].repository == q'[k].repository ensures !Stuck(q', j) {
      assert !Stuck(q, j);
      if Shadowed(q', j) {
        var i :| 0 <= i < j && q'[i].entryId == q'[j].entryId;
        assert q[i].entryId == q[j].entryId;
      }
    }
  }

  /** One chain continuing another. */
  lemma Joined(a: seq<seq<Entry>>, b: seq<seq<Entry>>) returns (chain: seq<seq<Entry>>)
    requires IsChain(a) && IsChain(b) && a[|a| - 1] == b[0]
    ensures chain == a + b[1..] && IsChain(chain) && chain[0] == a[0] && chain[|chain| - 1] == b[|b| - 1]
  {
    chain := a + b[1..];
    forall t: nat | t < |chain| - 1 ensures StepAt(chain, t) {
      if t < |a| - 1 {
        assert StepAt(a, t);
      } else {
        assert StepAt(b, t - (|a| - 1));
      }
    }
  }
}
