/**
 * The change inbox: one durable item per event and affected project, moved along
 * its lifecycle and never back to open.
 */
module ChangeInbox {
  import opened Outcomes
  import opened PythonText
  import opened PythonSequences

  datatype Status = Open | Acknowledged | RevalidationRequired | Deferred | Resolved

  datatype EventKind =
    | DependencyChanged | ContractPublished | ContractDeprecated | ContractRetired | BoundaryChanged
    | RuntimeContractChanged

  /** `sha` covers every other field of the event. */
  datatype Event = Event(id: string, sha: string, kind: EventKind, project: string, affected: seq<string>,
                         occurredAt: int)

  datatype Item = Item(itemId: string, project: string, eventId: string, eventSha: string, source: string,
                       kind: EventKind, status: Status, createdAt: int, updatedAt: int, resolution: Option<string>,
                       lifecycle: seq<string>)

  type Hash = string -> string

  /** What an item id is the hash of. */
  function Text(project: string, eventId: string): string { project + ":" + eventId }

  function ItemId(hash: Hash, project: string, eventId: string): string { hash(Text(project, eventId)) }

  ghost predicate CollisionFree(hash: Hash) {
    forall x, y :: hash(x) == hash(y) ==> x == y
  }

  function Build(hash: Hash, e: Event, project: string): Item {
    Item(ItemId(hash, project, e.id), project, e.id, e.sha, e.project, e.kind, Open, e.occurredAt, e.occurredAt, None,
         [])
  }

  predicate MayFollow(a: Status, b: Status) {
    match a
    case Open => b != Open
    case Acknowledged => b in {RevalidationRequired, Deferred, Resolved}
    case RevalidationRequired => b in {Deferred, Resolved}
    case Deferred => b in {Acknowledged, RevalidationRequired, Resolved}
    case Resolved => false
  }

  /** Nothing reopens, leaves the resolved state or stays put; a demanded revalidation cannot be just acknowledged. */
  lemma MayFollowIff(a: Status, b: Status)
    ensures MayFollow(a, b) <==>
              a != b && b != Open && a != Resolved && !(a == RevalidationRequired && b == Acknowledged)
  {
  }

  // ---------------------------------------------------------------- invariant

  predicate SameKey(i: Item, project: string, eventId: string) { i.project == project && i.eventId == eventId }

  ghost predicate KeysUnique(items: seq<Item>) {
    forall i, j :: 0 <= i < j < |items| ==> !SameKey(items[i], items[j].project, items[j].eventId)
  }

  ghost predicate ItemOk(hash: Hash, i: Item) {
    && i.itemId == ItemId(hash, i.project, i.eventId) && i.project != i.source
    && FirstOccurrences(i.lifecycle) == i.lifecycle && (forall x :: x in i.lifecycle ==> !IsBlank(x))
    && (i.status == Resolved ==> i.resolution.Some? && i.resolution.value != "")
    && (i.status == Open ==> i.lifecycle == [])
  }

  /** What the snapshot validator demands before anything can be read. */
  predicate Readable(items: seq<Item>) {
    forall i, j :: 0 <= i < j < |items| ==> items[i].itemId != items[j].itemId
  }

  ghost function ProjectsOf(items: seq<Item>): seq<string> {
    seq(|items|, k requires 0 <= k < |items| => items[k].project)
  }

  /** The affected projects but the event's own, in order. */
  ghost function Others(affected: seq<string>, own: string): seq<string> {
    if affected == [] then []
    else
      var init, last := affected[..|affected| - 1], affected[|affected| - 1];
      Others(init, own) + if last == own then [] else [last]
  }

  ghost predicate Holds(items: seq<Item>, e: Event, project: string) {
    exists i :: i in items && SameKey(i, project, e.id) && i.eventSha == e.sha
  }

  /** Every affected project but the event's own has its item. */
  ghost predicate Delivered(items: seq<Item>, e: Event) {
    forall p :: p in e.affected && p != e.project ==> Holds(items, e, p)
  }

  /** A new item of this event, for an affected project other than its own. */
  ghost predicate IsFresh(hash: Hash, e: Event, i: Item) {
    i == Build(hash, e, i.project) && i.project in e.affected && i.project != e.project
  }

  /**
   * How the list may change: items keep their place and identity, evidence grows by extension, resolved items are
   * frozen.
   */
  ghost predicate Evolves(a: seq<Item>, b: seq<Item>) {
    |a| <= |b| && forall k :: 0 <= k < |a| ==> ItemEvolves(a[k], b[k])
  }

  ghost predicate ItemEvolves(x: Item, y: Item) {
    && y == x.(status := y.status, updatedAt := y.updatedAt, resolution := y.resolution, lifecycle := y.lifecycle)
    && x.lifecycle <= y.lifecycle
    && (x.status == Resolved ==> y == x)
    && (x.status != Open ==> y.status != Open)
  }

  ghost predicate StepAt(run: seq<seq<Item>>, t: nat)
    requires t + 1 < |run|
  {
    Evolves(run[t], run[t + 1])
  }

  /** Over any run, resolved is for ever and lifecycle evidence only grows at its end. */
  lemma {:induction false} RunsEvolve(run: seq<seq<Item>>, s: nat, t: nat)
    requires s <= t < |run| && forall u: nat :: u < |run| - 1 ==> StepAt(run, u)
    ensures Evolves(run[s], run[t])
  {
    if s < t {
      RunsEvolve(run, s, t - 1);
      assert StepAt(run, t - 1);
      forall k | 0 <= k < |run[s]| ensures ItemEvolves(run[s][k], run[t][k]) {
        assert ItemEvolves(run[s][k], run[t - 1][k]) && ItemEvolves(run[t - 1][k], run[t][k]);
      }
    }
  }

  lemma EvolvesHolds(a: seq<Item>, b: seq<Item>, e: Event, project: string)
    requires Evolves(a, b) && Holds(a, e, project)
    ensures Holds(b, e, project)
  {
    var i :| i in a && SameKey(i, project, e.id) && i.eventSha == e.sha;
    var k :| 0 <= k < |a| && a[k] == i;
    assert ItemEvolves(a[k], b[k]) && b[k] in b;
  }

  // -------------------------------------------------------- identity of an item

  /** No two items have the same `project:event` text. */
  ghost predicate TextsDiffer(items: seq<Item>) {
    forall i, j :: 0 <= i < j < |items| ==>
      Text(items[i].project, items[i].eventId) != Text(items[j].project, items[j].eventId)
  }

  /**
   * Even a perfect hash does not help: the inbox is readable iff the texts differ, and different keys can have equal
   * texts.
   */
  lemma ReadableIff(hash: Hash, items: seq<Item>)
    requires CollisionFree(hash) && forall i :: i in items ==> ItemOk(hash, i)
    ensures Readable(items) <==> TextsDiffer(items)
  {
    hide Text;
    forall i | 0 <= i < |items| ensures items[i].itemId == hash(Text(items[i].project, items[i].eventId)) {
      assert items[i] in items;
    }
  }

  /** A caller can see it coming: an affected project without an item yet, whose text some item already has. */
  ghost predicate WouldClash(items: seq<Item>, e: Event) {
    exists p, i :: p in e.affected && p != e.project && i in items && !SameKey(i, p, e.id)
                   && Text(i.project, i.eventId) == Text(p, e.id)
  }

  lemma SameSuffix(p: string, q: string, e: string)
    requires Text(p, e) == Text(q, e)
    ensures p == q
  {
    assert |p| == |q|;
    assert p == Text(p, e)[..|p|] && q == Text(q, e)[..|q|];
  }

  /** Adding the fresh items of one event: texts stay different iff none of them clashes with an old item. */
  lemma FreshTextsDiffer(hash: Hash, before: seq<Item>, after: seq<Item>, e: Event)
    requires before <= after && KeysUnique(after) && TextsDiffer(before) && Delivered(after, e)
    requires forall i :: i in after[|before|..] ==> IsFresh(hash, e, i)
    ensures TextsDiffer(after) <==> !WouldClash(before, e)
  {
    hide Text;
    if WouldClash(before, e) {
      ClashShows(before, after, e);
    } else {
      forall i, j | 0 <= i < j < |after| ensures Text(after[i].project, after[i].eventId) != Text(after[j].project,
                                                                                                  after[j].eventId) {
        NoClashSeparates(hash, before, after, e, i, j);
      }
    }
  }

  lemma ClashShows(before: seq<Item>, after: seq<Item>, e: Event)
    requires before <= after && WouldClash(before, e) && Delivered(after, e)
    ensures !TextsDiffer(after)
  {
    hide Text;
    var p, i :| p in e.affected && p != e.project && i in before && !SameKey(i, p, e.id)
    && Text(i.project, i.eventId) == Text(p, e.id);
    assert Holds(after, e, p);
    var x :| x in after && SameKey(x, p, e.id) && x.eventSha == e.sha;
    assert i in after && x != i;
    var a: nat :| a < |after| && after[a] == i;
    var b: nat :| b < |after| && after[b] == x;
    assert a < b || b < a;
  }

  lemma NoClashSeparates(hash: Hash, before: seq<Item>, after: seq<Item>, e: Event, i: nat, j: nat)
    requires before <= after && KeysUnique(after) && TextsDiffer(before) && !WouldClash(before, e) && i < j < |after|
    requires forall x :: x in after[|before|..] ==> IsFresh(hash, e, x)
    ensures Text(after[i].project, after[i].eventId) != Text(after[j].project, after[j].eventId)
  {
    hide Text, KeysUnique;
    var x, y := after[i], after[j];
    KeyAt(after, i, j);
    if j < |before| {
      assert x == before[i] && y == before[j];
    } else {
      assert y == after[|before|..][j - |before|] && y in after[|before|..];
      if i < |before| {
        assert x == before[i] && x in before;
      } else {
        assert x == after[|before|..][i - |before|] && x in after[|before|..];
        if Text(x.project, e.id) == Text(y.project, e.id) { SameSuffix(x.project, y.project, e.id); }
      }
    }
  }

  lemma KeyAt(items: seq<Item>, i: nat, j: nat)
    requires KeysUnique(items) && i < j < |items|
    ensures !SameKey(items[i], items[j].project, items[j].eventId)
  {
  }

  /** With a collision-free hash and no colon in project ids the inbox is always readable. */
  lemma NoColonIsReadable(hash: Hash, items: seq<Item>)
    requires (forall i :: i in items ==> ItemOk(hash, i)) && KeysUnique(items)
    requires CollisionFree(hash) && forall i :: i in items ==> ':' !in i.project
    ensures Readable(items)
  {
    forall i, j | 0 <= i < j < |items| ensures items[i].itemId != items[j].itemId {
      var x, y := items[i], items[j];
      assert x in items && y in items && !SameKey(x, y.project, y.eventId);
      if x.project + ":" + x.eventId == y.project + ":" + y.eventId {
        SplitAtColon(x.project, x.eventId, y.project, y.eventId);
      }
    }
  }

  lemma SplitAtColon(p: string, e: string, q: string, f: string)
    requires p + ":" + e == q + ":" + f && ':' !in p && ':' !in q
    ensures p == q && e == f
  {
    var a, b := p + ":" + e, q + ":" + f;
    assert a[|p|] == ':' && b[|q|] == ':';
    assert forall k :: 0 <= k < |p| ==> a[k] == p[k];
    assert forall k :: 0 <= k < |q| ==> b[k] == q[k];
    assert |p| == |q|;
    assert p == a[..|p|] && q == b[..|q|];
    assert e == a[|p| + 1..] && f == b[|q| + 1..];
  }

  lemma FreshIsKeyed(hash: Hash, e: Event, project: string)
    ensures Build(hash, e, project).eventId == e.id && Build(hash, e, project).project == project
  {
  }

  lemma HoldsBy(items: seq<Item>, i: Item, e: Event, project: string)
    requires i in items && SameKey(i, project, e.id) && i.eventSha == e.sha
    ensures Holds(items, e, project)
  {
  }

  lemma FrontOrFresh(before: seq<Item>, current: seq<Item>, k: nat)
    requires before <= current && k < |current|
    ensures current[k] in before || current[k] in current[|before|..]
  {
    assert current == before + current[|before|..];
    assert current[k] in before + current[|before|..];
  }

  lemma KeyDetermines(items: seq<Item>, x: Item, y: Item)
    requires KeysUnique(items) && x in items && y in items && SameKey(x, y.project, y.eventId)
    ensures x == y
  {
    var i: nat :| i < |items| && items[i] == x;
    var j: nat :| j < |items| && items[j] == y;
  }

  class ProjectChangeInboxStore {
    const hash: Hash
    var items: seq<Item>

    constructor (hash: Hash)
      ensures Valid() && items == [] && this.hash == hash
    {
      this.hash := hash;
      items := [];
    }

    ghost predicate Valid()
      reads this
    {
      KeysUnique(items) && forall i :: i in items ==> ItemOk(hash, i)
    }

    method Snapshot() returns (r: Result<seq<Item>>)
      ensures r == if Readable(items) then Ok(items) else Err("PROJECT_CHANGE_INBOX_DUPLICATE_ITEM_ID")
    {
      r := if Readable(items) then Ok(items) else Err("PROJECT_CHANGE_INBOX_DUPLICATE_ITEM_ID");
    }

    /** The item of a key, if the list has one. */
    method Lookup(current: seq<Item>, project: string, eventId: string) returns (r: Option<Item>)
      ensures r.Some? ==> r.value in current && SameKey(r.value, project, eventId)
      ensures r.None? ==> forall i :: i in current ==> !SameKey(i, project, eventId)
    {
      for k := 0 to |current|
        invariant forall i :: i in current[..k] ==> !SameKey(i, project, eventId)
      {
        assert current[..k + 1] == current[..k] + [current[k]];
        if SameKey(current[k], project, eventId) {
          return Some(current[k]);
        }
      }
      assert current[..|current|] == current;
      r := None;
    }

    /** A replayed event must be the same event; nothing is stored when it is not. */
    method IngestEvent(e: Event) returns (r: Result<seq<Item>>)
      requires Valid()
      modifies `items
      ensures Valid() && old(items) <= items && Evolves(old(items), items)
      ensures r.Err? ==> items == old(items)
      ensures !Readable(old(items)) ==> r.Err?
      ensures r.Ok? ==> Delivered(items, e) && forall i :: i in r.value ==>
                i in items && i.eventId == e.id && i.project in e.affected
      ensures r.Ok? ==> ProjectsOf(r.value) == Others(e.affected, e.project)
      ensures forall i :: i in items[|old(items)|..] ==> IsFresh(hash, e, i)
      ensures r.Ok? && CollisionFree(hash) ==> (Readable(items) <==> !WouldClash(old(items), e))
      ensures Readable(old(items)) && Delivered(old(items), e) ==> r.Ok? && items == old(items)
      ensures Readable(old(items)) && (forall i :: i in old(items) && i.eventId == e.id ==> i.eventSha == e.sha) ==>
                r.Ok?
    {
      EvolvesSame(items);
      hide Readable, Delivered, Evolves, Holds, KeysUnique, ItemOk, IsFresh, Build, Ingested, WouldClash, CollisionFree;
      var current :- Snapshot();
      var created: seq<Item> := [];
      IngestBegins(items, e);
      for k := 0 to |e.affected|
        invariant items == old(items) && Ingested(items, current, e, k)
        invariant Delivered(items, e) ==> current == items
        invariant forall i :: i in created ==> i in current && i.eventId == e.id && i.project in e.affected
        invariant ProjectsOf(created) == Others(e.affected[..k], e.project)
      {
        var project := e.affected[k];
        IngestStep(items, current, e, k);
        assert e.affected[..k + 1][..k] == e.affected[..k];
        if project == e.project {
          continue;
        }
        var existing := Lookup(current, project, e.id);
        if existing.Some? {
          if existing.value.eventSha != e.sha {
            ConflictMeans(items, current, e, k, existing.value);
            return Err("PROJECT_CHANGE_INBOX_EVENT_REPLAY_CONFLICT");
          }
          HoldsBy(current, existing.value, e, project);
          created := created + [existing.value];
        } else {
          var item := Build(hash, e, project);
          FreshIsKeyed(hash, e, project);
          current := current + [item];
          created := created + [item];
        }
      }
      IngestEnds(items, current, e);
      assert e.affected[..|e.affected|] == e.affected;
      if CollisionFree(hash) {
        ReadableIff(hash, items);
        ReadableIff(hash, current);
        FreshTextsDiffer(hash, items, current, e);
      }
      items := current;
      r := Ok(created);
    }

    /** Part way through the affected projects: the old items in front, fresh items behind. */
    ghost predicate Ingested(before: seq<Item>, current: seq<Item>, e: Event, k: nat)
      requires k <= |e.affected|
    {
      && before <= current && KeysUnique(current) && (forall i :: i in current ==> ItemOk(hash, i))
      && (forall i :: i in current[|before|..] ==> IsFresh(hash, e, i))
      && forall p :: p in e.affected[..k] && p != e.project ==> Holds(current, e, p)
    }

    lemma IngestBegins(before: seq<Item>, e: Event)
      requires KeysUnique(before) && forall i :: i in before ==> ItemOk(hash, i)
      ensures Ingested(before, before, e, 0)
    {
    }

    lemma IngestStep(before: seq<Item>, current: seq<Item>, e: Event, k: nat)
      requires k < |e.affected| && Ingested(before, current, e, k)
      ensures var p := e.affected[k];
              && (p == e.project || Holds(current, e, p) ==> Ingested(before, current, e, k + 1))
              && (p != e.project && (forall i :: i in current ==> !SameKey(i, p, e.id)) ==>
                    Ingested(before, current + [Build(hash, e, p)], e, k + 1) && !Delivered(before, e))
    {
      hide Build, KeysUnique, ItemOk, IsFresh, Holds;
      var p := e.affected[k];
      assert e.affected[..k + 1] == e.affected[..k] + [p];
      if p != e.project && forall i :: i in current ==> !SameKey(i, p, e.id) {
        IngestFresh(before, current, e, k);
      }
    }

    lemma IngestFresh(before: seq<Item>, current: seq<Item>, e: Event, k: nat)
      requires k < |e.affected| && Ingested(before, current, e, k) && e.affected[k] != e.project
      requires forall i :: i in current ==> !SameKey(i, e.affected[k], e.id)
      ensures Ingested(before, current + [Build(hash, e, e.affected[k])], e, k + 1) && !Delivered(before, e)
    {
      var p := e.affected[k];
      var item := Build(hash, e, p);
      var after := current + [item];
      assert e.affected[..k + 1] == e.affected[..k] + [p];
      assert after[|before|..] == current[|before|..] + [item];
      assert FirstOccurrences(item.lifecycle) == item.lifecycle;
      forall i, j | 0 <= i < j < |after| ensures !SameKey(after[i], after[j].project, after[j].eventId) {
        if j == |current| { assert after[i] in current; }
      }
      HoldsBy(after, item, e, p);
      forall q | q in e.affected[..k + 1] && q != e.project ensures Holds(after, e, q) {
        if q in e.affected[..k] {
          var i :| i in current && SameKey(i, q, e.id) && i.eventSha == e.sha;
          HoldsBy(after, i, e, q);
        }
      }
      assert !Holds(before, e, p) by {
        assert forall i :: i in before ==> i in current;
      }
      assert p in e.affected;
    }

    lemma ConflictMeans(before: seq<Item>, current: seq<Item>, e: Event, k: nat, existing: Item)
      requires k < |e.affected| && Ingested(before, current, e, k) && e.affected[k] != e.project
      requires existing in current && SameKey(existing, e.affected[k], e.id) && existing.eventSha != e.sha
      ensures existing in before && existing.eventId == e.id && !Delivered(before, e)
    {
      var project := e.affected[k];
      var at: nat :| at < |current| && current[at] == existing;
      FrontOrFresh(before, current, at);
      forall i | i in before && SameKey(i, project, e.id) ensures i == existing {
        assert i in current;
        KeyDetermines(current, i, existing);
      }
      assert !Holds(before, e, project);
      assert project in e.affected;
    }

    lemma IngestEnds(before: seq<Item>, current: seq<Item>, e: Event)
      requires Ingested(before, current, e, |e.affected|)
      ensures Delivered(current, e) && Evolves(before, current) && before <= current
      ensures KeysUnique(current) && (forall i :: i in current ==> ItemOk(hash, i))
      ensures forall i :: i in current[|before|..] ==> IsFresh(hash, e, i)
    {
      assert e.affected[..|e.affected|] == e.affected;
      forall k | 0 <= k < |before| ensures ItemEvolves(before[k], current[k]) {
        assert before[k] == current[k];
      }
    }

    /** Ingest every event of the registry; a second sync of the same registry changes nothing. */
    method SyncRegistry(events: seq<Event>) returns (r: Result<seq<Item>>)
      requires Valid()
      modifies `items
      ensures Valid() && old(items) <= items && Evolves(old(items), items)
      ensures r.Ok? ==> r.value == items && Readable(items) && forall e :: e in events ==> Delivered(items, e)
      ensures Readable(old(items)) && (forall e :: e in events ==> Delivered(old(items), e)) ==>
                r.Ok? && items == old(items)
    {
      EvolvesSame(items);
      for k := 0 to |events|
        invariant Valid() && old(items) <= items && Evolves(old(items), items)
        invariant forall e :: e in events[..k] ==> Delivered(items, e)
        invariant Readable(old(items)) && (forall e :: e in events ==> Delivered(old(items), e)) ==> items == old(items)
      {
        hide Delivered, Evolves, Readable, KeysUnique, ItemOk, Build;
        ghost var before := items;
        assert events[..k + 1] == events[..k] + [events[k]];
        var ingested := IngestEvent(events[k]);
        if ingested.Err? {
          EvolvesTransitive(old(items), before, items);
          return Err(ingested.code);
        }
        EvolvesTransitive(old(items), before, items);
        forall e | e in events[..k] ensures Delivered(items, e) {
          DeliveredStays(before, items, e);
        }
      }
      assert events[..|events|] == events;
      r := Snapshot();
    }

    method Transition(itemId: string, project: string, expected: Status, next: Status, evidence: seq<string>,
                      resolution: Option<string>, now: int)
      returns (r: Result<Item>)
      requires Valid()
      modifies `items
      ensures Valid() && Evolves(old(items), items)
      ensures r.Err? ==> items == old(items)
      ensures r.Ok? <==> Readable(old(items)) && exists k :: (0 <= k < |old(items)| && old(items)[k].itemId == itemId
                && MayMove(old(items)[k], project, expected, next, evidence, resolution))
      ensures r.Ok? ==> exists k :: (0 <= k < |old(items)| && old(items)[k].itemId == itemId
                                     && items == old(items)[k := r.value]
                && r.value == old(items)[k].(status := next, updatedAt := now, resolution := resolution,
                                             lifecycle := FirstOccurrences(old(items)[k].lifecycle + evidence)))
    {
      EvolvesSame(items);
      hide Evolves, KeysUnique, ItemOk, FirstOccurrences, IsBlank, MayMove, MayFollow;
      var current :- Snapshot();
      for k := 0 to |current|
        invariant forall j :: 0 <= j < k ==> current[j].itemId != itemId
      {
        if current[k].itemId == itemId {
          var item := current[k];
          var refusal := Refusal(item, project, expected, next, evidence, resolution);
          OnlyThisItem(items, k);
          if refusal.Some? { return Err(refusal.value); }
          var updated := item.(status := next, updatedAt := now, resolution := resolution,
                               lifecycle := FirstOccurrences(item.lifecycle + evidence));
          MayMoveMeans(item, project, expected, next, evidence, resolution);
          MoveKeeps(hash, items, k, updated, evidence);
          items := current[k := updated];
          return Ok(updated);
        }
      }
      r := Err("PROJECT_CHANGE_INBOX_ITEM_NOT_FOUND");
    }
  }

  /** Everything `transition` asks before it moves an item. */
  predicate MayMove(i: Item, project: string, expected: Status, next: Status, evidence: seq<string>,
                    resolution: Option<string>) {
    && i.project == project && i.status == expected && MayFollow(i.status, next)
    && evidence != [] && (forall x :: x in evidence ==> !IsBlank(x))
    && (next == Resolved ==> resolution.Some? && resolution.value != "")
  }

  /** The first check that fails. */
  function Refusal(i: Item, project: string, expected: Status, next: Status, evidence: seq<string>,
                   resolution: Option<string>): (r: Option<string>)
    ensures r.None? <==> MayMove(i, project, expected, next, evidence, resolution)
  {
    if i.project != project then Some("PROJECT_CHANGE_INBOX_PROJECT_MISMATCH")
    else if i.status != expected then Some("PROJECT_CHANGE_INBOX_STALE_STATUS")
    else if !MayFollow(i.status, next) then Some("PROJECT_CHANGE_INBOX_INVALID_TRANSITION")
    else if evidence == [] || exists x :: x in evidence && IsBlank(x)
            then Some("PROJECT_CHANGE_INBOX_LIFECYCLE_EVIDENCE_REQUIRED")
    else if next == Resolved && (resolution.None? || resolution.value == "")
            then Some("PROJECT_CHANGE_INBOX_RESOLUTION_REFERENCE_REQUIRED")
    else None
  }

  lemma MayMoveMeans(i: Item, project: string, expected: Status, next: Status, evidence: seq<string>,
                     resolution: Option<string>)
    requires MayMove(i, project, expected, next, evidence, resolution)
    ensures MayFollow(i.status, next) && (forall x :: x in evidence ==> !IsBlank(x))
    ensures next == Resolved ==> resolution.Some? && resolution.value != ""
  {
  }

  lemma OnlyThisItem(items: seq<Item>, k: nat)
    requires Readable(items) && k < |items|
    ensures forall j :: 0 <= j < |items| && items[j].itemId == items[k].itemId ==> j == k
  {
  }

  lemma MoveKeeps(hash: Hash, items: seq<Item>, k: nat, updated: Item, evidence: seq<string>)
    requires k < |items| && KeysUnique(items) && forall i :: i in items ==> ItemOk(hash, i)
    requires MayFollow(items[k].status, updated.status) && forall x :: x in evidence ==> !IsBlank(x)
    requires updated == items[k].(status := updated.status, updatedAt := updated.updatedAt,
                                  resolution := updated.resolution,
                                                lifecycle := FirstOccurrences(items[k].lifecycle + evidence))
    requires updated.status == Resolved ==> updated.resolution.Some? && updated.resolution.value != ""
    ensures var after := items[k := updated];
            KeysUnique(after) && (forall i :: i in after ==> ItemOk(hash, i)) && Evolves(items, after)
  {
    hide IsBlank, ItemId, Distinct, FirstOccurrences;
    var item, after := items[k], items[k := updated];
    assert item in items;
    FirstOccurrencesExtends(item.lifecycle, evidence);
    FirstOccurrencesIsIdempotent(item.lifecycle + evidence);
    FirstOccurrencesMeaning(item.lifecycle + evidence);
    assert ItemOk(hash, updated);
    forall i | i in after ensures ItemOk(hash, i) {
      if i != updated { assert i in items; }
    }
    forall j | 0 <= j < |items| ensures ItemEvolves(items[j], after[j]) {
      EvolvesSame(items);
    }
  }

  lemma EvolvesSame(items: seq<Item>)
    ensures Evolves(items, items)
  {
  }

  lemma EvolvesTransitive(a: seq<Item>, b: seq<Item>, c: seq<Item>)
    requires Evolves(a, b) && Evolves(b, c)
    ensures Evolves(a, c)
  {
    forall k | 0 <= k < |a| ensures ItemEvolves(a[k], c[k]) {
      assert ItemEvolves(a[k], b[k]) && ItemEvolves(b[k], c[k]);
    }
  }

  lemma DeliveredStays(a: seq<Item>, b: seq<Item>, e: Event)
    requires Evolves(a, b) && Delivered(a, e)
    ensures Delivered(b, e)
  {
    forall p | p in e.affected && p != e.project ensures Holds(b, e, p) {
      EvolvesHolds(a, b, e, p);
    }
  }

  /** Exactly one: a delivered event has one item per affected project, at one place. */
  lemma ExactlyOne(items: seq<Item>, e: Event, project: string)
    requires KeysUnique(items) && Delivered(items, e) && project in e.affected && project != e.project
    ensures exists k :: (0 <= k < |items| && SameKey(items[k], project, e.id) && items[k].eventSha == e.sha
              && forall j :: 0 <= j < |items| && SameKey(items[j], project, e.id) ==> j == k)
  {
    assert Holds(items, e, project);
    var i :| i in items && SameKey(i, project, e.id) && i.eventSha == e.sha;
    var k :| 0 <= k < |items| && items[k] == i;
    forall j | 0 <= j < |items| && SameKey(items[j], project, e.id) ensures j == k {
      assert SameKey(items[k], items[j].project, items[j].eventId)
             && SameKey(items[j], items[k].project, items[k].eventId);
    }
  }

  /**
   * Whatever the hash, two innocent events can share an item id, and from then on the inbox cannot be read or changed.
   */
  method CollidingKeysLockTheInbox(hash: Hash) returns (s: ProjectChangeInboxStore)
    ensures fresh(s) && s.Valid() && !Readable(s.items) && |s.items| == 2
  {
    s := new ProjectChangeInboxStore(hash);
    var first := Event("c", "1", BoundaryChanged, "src", ["abc:b"], 0);
    var second := Event("b:c", "2", BoundaryChanged, "src", ["abc"], 0);
    var a := s.IngestEvent(first);
    assert first.affected[0] in first.affected;
    assert Holds(s.items, first, "abc:b");
    ghost var one := s.items;
    OnlyItem(hash, one, first);
    var b := s.IngestEvent(second);
    assert second.affected[0] in second.affected;
    assert Holds(s.items, second, "abc");
    TwoItems(hash, one, s.items, first, second);
  }

  /** Two fresh items of the same event and project cannot both be there. */
  lemma TwoBuilt(hash: Hash, items: seq<Item>, from: nat, e: Event)
    requires |items| > from + 1 && |e.affected| == 1
    requires forall i :: i in items[from..] ==> IsFresh(hash, e, i)
    ensures !KeysUnique(items)
  {
    var x, y := items[from..][0], items[from..][1];
    assert x in items[from..] && y in items[from..];
    assert items[from] == x && items[from + 1] == y;
    assert x.project == e.affected[0] && y.project == e.affected[0];
    assert SameKey(items[from], items[from + 1].project, items[from + 1].eventId);
  }

  lemma OnlyItem(hash: Hash, items: seq<Item>, e: Event)
    requires KeysUnique(items) && |e.affected| == 1 && Holds(items, e, e.affected[0])
    requires forall i :: i in items[0..] ==> IsFresh(hash, e, i)
    ensures items == [Build(hash, e, e.affected[0])]
  {
    if |items| > 1 { TwoBuilt(hash, items, 0, e); }
    assert items[0..] == items;
    assert items[0] in items;
  }

  lemma TwoItems(hash: Hash, one: seq<Item>, two: seq<Item>, first: Event, second: Event)
    requires first.id == "c" && second.id == "b:c" && first.affected == ["abc:b"] && second.affected == ["abc"]
    requires one == [Build(hash, first, "abc:b")] && one <= two && KeysUnique(two) && Holds(two, second, "abc")
    requires forall i :: i in two[1..] ==> IsFresh(hash, second, i)
    ensures |two| == 2 && !Readable(two)
  {
    assert "abc:b" + ":" + "c" == "abc:b:c" == "abc" + ":" + "b:c";
    assert two[0] == one[0];
    if |two| > 2 { TwoBuilt(hash, two, 1, second); }
    assert |two| == 2;
    assert two[1] == two[1..][0] && two[1] in two[1..];
    assert two[1] == Build(hash, second, "abc");
  }
}
