/** The four editorial-room tables, each a map keyed by its primary key, and the
    pending index as the exact image of the artifacts table it is meant to mirror.

    Text columns that the code reads through `or None` (service id, venue) use ""
    for "not set". Artifact ids are the store's uuids, ordered as the store orders them. */
module ArtifactTables {
  import opened Wrappers

  type Id = nat
  type Day = int
  type Instant = int

  datatype Status = Pending | Selected | Composed | Discarded

  datatype Artifact = Artifact(
    service: string,
    venue: string,
    url: string,
    channel: string,
    createdAt: Instant,
    eventDate: Option<Instant>,
    priority: real,
    computedAt: Option<Instant>,
    status: Status,
    pin: Option<Day>)

  /** Clustering key of `artifacts_pending`; its partition key is always "pending". */
  datatype PendingKey = PendingKey(priority: real, createdAt: Instant, id: Id)

  datatype PendingRow = PendingRow(
    service: string,
    venue: string,
    channel: string,
    url: string,
    eventDate: Option<Instant>,
    pin: Option<Day>)

  /** One row of a pending listing. */
  datatype Listed = Listed(key: PendingKey, row: PendingRow)

  datatype Snapshot = Snapshot(
    fields: map<string, string>,
    title: string,
    url: string,
    eventDate: Option<Instant>,
    createdAt: Instant)

  /** An artifact's metadata object; `segments` is the key of that name. */
  datatype Metadata = Metadata(fields: map<string, string>, segments: seq<Snapshot>)

  datatype Content = Content(title: string, text: string, metadata: Metadata)

  /** The arguments of one `insert_artifact` call. */
  datatype Request = Request(
    service: string,
    venue: string,
    url: string,
    channel: string,
    text: string,
    title: string,
    metadata: Metadata,
    eventDate: Option<Instant>)

  datatype SlotKey = SlotKey(day: Day, slot: nat)

  datatype Lane = Human | Platform

  datatype Slot = Slot(artifact: Id, lane: Lane, service: string, pickedAt: Instant)

  type Artifacts = map<Id, Artifact>
  type PendingIndex = map<PendingKey, PendingRow>
  type ToCompose = map<SlotKey, Slot>

  /** What the editorial room holds, with the pending index left out because it is
      determined by the artifacts. */
  datatype Room = Room(artifacts: Artifacts, contents: map<Id, Content>, toCompose: ToCompose)

  /** How an update is merged onto a pending one: the cap on the old text, the prose
      around the two parts, and the keys a snapshot overrides. */
  datatype MergeRules = MergeRules(
    maxOldChars: int,
    truncated: string,
    earlier: string,
    separator: string,
    latest: string,
    untitled: string,
    snapshotKeys: set<string>)

  datatype Config = Config(maxPerDay: int, newServiceShare: real, rules: MergeRules)

  /** The default of every pending scan. */
  const ROW_LIMIT: nat := 2000

  predicate IsPending(artifacts: Artifacts, id: Id) {
    id in artifacts && artifacts[id].status == Pending
  }

  function KeyOf(id: Id, a: Artifact): PendingKey {
    PendingKey(a.priority, a.createdAt, id)
  }

  function RowOf(a: Artifact): PendingRow {
    PendingRow(a.service, a.venue, a.channel, a.url, a.eventDate, a.pin)
  }

  function PendingKeys(artifacts: Artifacts): (keys: set<PendingKey>)
    ensures forall k :: k in keys <==> IsPending(artifacts, k.id) && k == KeyOf(k.id, artifacts[k.id])
  {
    set id | id in artifacts && artifacts[id].status == Pending :: KeyOf(id, artifacts[id])
  }

  /** What `artifacts_pending` has to be: every PENDING row at its current key, nothing else. */
  function IndexOf(artifacts: Artifacts): PendingIndex {
    map k | k in PendingKeys(artifacts) :: RowOf(artifacts[k.id])
  }

  lemma IndexAt(artifacts: Artifacts, k: PendingKey)
    ensures k in IndexOf(artifacts) <==> IsPending(artifacts, k.id) && k == KeyOf(k.id, artifacts[k.id])
    ensures k in IndexOf(artifacts) ==> IndexOf(artifacts)[k] == RowOf(artifacts[k.id])
  {
  }

  /** Rewriting one artifact changes the index only at that artifact's old and new keys. */
  lemma IndexAfterUpdate(artifacts: Artifacts, id: Id, a: Artifact)
    ensures var dropped := if IsPending(artifacts, id)
                           then IndexOf(artifacts) - {KeyOf(id, artifacts[id])}
                           else IndexOf(artifacts);
            IndexOf(artifacts[id := a])
            == if a.status == Pending then dropped[KeyOf(id, a) := RowOf(a)] else dropped
  {
    hide IndexOf, RowOf;
    var next := artifacts[id := a];
    var dropped := if IsPending(artifacts, id)
      then IndexOf(artifacts) - {KeyOf(id, artifacts[id])} else IndexOf(artifacts);
    var goal := if a.status == Pending then dropped[KeyOf(id, a) := RowOf(a)] else dropped;
    forall k
      ensures k in IndexOf(next) <==> k in goal
      ensures k in goal ==> IndexOf(next)[k] == goal[k]
    {
      IndexAt(artifacts, k);
      IndexAt(next, k);
    }
  }

  /** The index's clustering order: priority DESC, created_at ASC, then id. */
  predicate Before(x: PendingKey, y: PendingKey) {
    || x.priority > y.priority
    || (x.priority == y.priority && x.createdAt < y.createdAt)
    || (x.priority == y.priority && x.createdAt == y.createdAt && x.id < y.id)
  }

  predicate IsFirst(k: PendingKey, keys: set<PendingKey>) {
    k in keys && forall x :: x in keys && x != k ==> Before(k, x)
  }

  lemma FirstExists(keys: set<PendingKey>)
    requires keys != {}
    ensures exists k :: IsFirst(k, keys)
  {
    var x :| x in keys;
    if keys == {x} {
      assert IsFirst(x, keys);
    } else {
      FirstExists(keys - {x});
      var y :| IsFirst(y, keys - {x});
      var first := if Before(x, y) then x else y;
      forall z | z in keys && z != first
        ensures Before(first, z)
      {
        assert z == x || z in keys - {x};
      }
      assert IsFirst(first, keys);
    }
  }

  ghost predicate InOrder(s: seq<PendingKey>, keys: set<PendingKey>) {
    && |s| == |keys|
    && (forall k :: k in s <==> k in keys)
    && (forall i, j :: 0 <= i < j < |s| ==> Before(s[i], s[j]))
  }

  lemma PutFirst(k: PendingKey, rest: seq<PendingKey>, keys: set<PendingKey>)
    requires IsFirst(k, keys) && InOrder(rest, keys - {k})
    ensures InOrder([k] + rest, keys)
  {
    hide Before;
    assert forall i | 0 <= i < |rest| :: rest[i] in keys - {k};
  }

  function Sorted(keys: set<PendingKey>): (s: seq<PendingKey>)
    ensures InOrder(s, keys)
  {
    if keys == {} then []
    else
      FirstExists(keys);
      var k :| IsFirst(k, keys);
      PutFirst(k, Sorted(keys - {k}), keys);
      [k] + Sorted(keys - {k})
  }

  ghost predicate SortedListing(rows: seq<Listed>) {
    forall i, j :: 0 <= i < j < |rows| ==> Before(rows[i].key, rows[j].key)
  }

  ghost predicate DistinctIds(rows: seq<Listed>) {
    forall i, j :: 0 <= i < j < |rows| ==> rows[i].key.id != rows[j].key.id
  }

  /** A LIMITed scan of the pending partition, in clustering order. */
  function Listing(index: PendingIndex, limit: nat): (rows: seq<Listed>)
    ensures |rows| == if |index| <= limit then |index| else limit
    ensures forall i :: 0 <= i < |rows| ==> rows[i].key in index && rows[i].row == index[rows[i].key]
    ensures SortedListing(rows)
  {
    var keys := Sorted(index.Keys);
    assert |index.Keys| == |index|;
    seq(if |keys| <= limit then |keys| else limit,
        i requires 0 <= i < |keys| => assert keys[i] in keys; Listed(keys[i], index[keys[i]]))
  }

  lemma ListingComplete(index: PendingIndex, limit: nat, k: PendingKey)
    requires k in index && |index| <= limit
    ensures Listed(k, index[k]) in Listing(index, limit)
  {
    var keys := Sorted(index.Keys);
    assert k in keys;
    var i :| 0 <= i < |keys| && keys[i] == k;
    assert |index.Keys| == |index|;
    assert Listing(index, limit)[i] == Listed(k, index[k]);
  }

  /** The listing every operation reads. */
  function PendingList(artifacts: Artifacts): seq<Listed> {
    Listing(IndexOf(artifacts), ROW_LIMIT)
  }

  /** The listing shows distinct PENDING artifacts, each as its row stands. */
  lemma PendingListFacts(artifacts: Artifacts)
    ensures forall r :: r in PendingList(artifacts) ==>
              && IsPending(artifacts, r.key.id)
              && r == Listed(KeyOf(r.key.id, artifacts[r.key.id]), RowOf(artifacts[r.key.id]))
    ensures DistinctIds(PendingList(artifacts))
    ensures SortedListing(PendingList(artifacts))
  {
  }

  lemma PendingListComplete(artifacts: Artifacts, id: Id)
    requires WithinLimit(artifacts) && IsPending(artifacts, id)
    ensures Listed(KeyOf(id, artifacts[id]), RowOf(artifacts[id])) in PendingList(artifacts)
  {
    ListingComplete(IndexOf(artifacts), ROW_LIMIT, KeyOf(id, artifacts[id]));
  }

  /** The listing shows rows of higher priority first and, of equal priority, older ones first,
      in id order at the same age; up to 2000 rows nothing pending is missing, and beyond that only what comes last. */
  lemma ListingTold(artifacts: Artifacts)
    ensures var rows := PendingList(artifacts);
            && |rows| <= 2000
            && (forall i, j :: 0 <= i < j < |rows| ==>
                  || rows[i].key.priority > rows[j].key.priority
                  || (rows[i].key.priority == rows[j].key.priority
                      && (|| rows[i].key.createdAt < rows[j].key.createdAt
                          || (rows[i].key.createdAt == rows[j].key.createdAt && rows[i].key.id < rows[j].key.id))))
            && (forall x :: IsPending(artifacts, x) && Listed(KeyOf(x, artifacts[x]), RowOf(artifacts[x])) !in rows ==>
                  && |rows| == 2000
                  && forall r :: r in rows ==>
                       || r.key.priority > artifacts[x].priority
                       || (r.key.priority == artifacts[x].priority && r.key.createdAt <= artifacts[x].createdAt))
  {
    var index := IndexOf(artifacts);
    var keys, rows := Sorted(index.Keys), PendingList(artifacts);
    assert |index.Keys| == |index|;
    forall x | IsPending(artifacts, x)
      ensures || Listed(KeyOf(x, artifacts[x]), RowOf(artifacts[x])) in rows
              || (|rows| == 2000 && forall r :: r in rows ==> Before(r.key, KeyOf(x, artifacts[x])))
    {
      var k := KeyOf(x, artifacts[x]);
      assert k in index;
      assert k in keys;
      var i :| 0 <= i < |keys| && keys[i] == k;
      if i < |rows| {
        assert rows[i] == Listed(k, index[k]);
      }
    }
  }

  ghost predicate WithinLimit(artifacts: Artifacts) {
    |IndexOf(artifacts)| <= ROW_LIMIT
  }
}
