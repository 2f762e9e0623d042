/** The artifact store. Each operation is a function on the artifacts (what it means)
    and a method of Store (the writes it makes to the tables, in order); the
    method's contract ties the two and keeps the pending index exact. */
module ArtifactStore {
  import opened Wrappers
  import opened ArtifactTables
  import opened ArtifactHistory

  // ---------- What each operation means ----------

  function Marked(artifacts: Artifacts, id: Id, status: Status): Artifacts {
    if id in artifacts then artifacts[id := artifacts[id].(status := status)] else artifacts
  }

  function Reverted(artifacts: Artifacts, id: Id): Artifacts {
    if id in artifacts && artifacts[id].status == Selected then Marked(artifacts, id, Pending) else artifacts
  }

  function WithPriority(artifacts: Artifacts, id: Id, priority: real, now: Instant): Artifacts {
    if id in artifacts
    then artifacts[id := artifacts[id].(priority := priority, computedAt := Some(now))]
    else artifacts
  }

  function WithVenue(artifacts: Artifacts, id: Id, venue: string): Artifacts {
    if id in artifacts then artifacts[id := artifacts[id].(venue := venue)] else artifacts
  }

  function WithPin(artifacts: Artifacts, id: Id, pin: Option<Day>): Artifacts {
    if id in artifacts then artifacts[id := artifacts[id].(pin := pin)] else artifacts
  }

  /** Listed artifacts other than `id` that hold the pin for `day`. */
  function PinHolders(rows: seq<Listed>, day: Day, id: Id): set<Id> {
    set r | r in rows && r.row.pin == Some(day) && r.key.id != id :: r.key.id
  }

  function Unpinned(artifacts: Artifacts, ids: set<Id>): Artifacts {
    map x | x in artifacts :: if x in ids then artifacts[x].(pin := None) else artifacts[x]
  }

  function PinnedFor(artifacts: Artifacts, id: Id, day: Day): Artifacts {
    if IsPending(artifacts, id)
    then WithPin(Unpinned(artifacts, PinHolders(PendingList(artifacts), day, id)), id, Some(day))
    else artifacts
  }

  /** An artifact as a pending listing shows it: the last sweep's time is not in the index. */
  function Shown(r: Listed): Artifact {
    Artifact(r.row.service, r.row.venue, r.row.url, r.row.channel, r.key.createdAt, r.row.eventDate,
             r.key.priority, None, Pending, r.row.pin)
  }

  function ContentOf(contents: map<Id, Content>, id: Id): Option<Content> {
    if id in contents then Some(contents[id]) else None
  }

  function IdsOf(rows: seq<Listed>): (ids: set<Id>)
    ensures forall r :: r in rows ==> r.key.id in ids
  {
    set r | r in rows :: r.key.id
  }

  /** Every artifact of `ids` rescored; `score` stands for the summed score components. */
  function Rescored(artifacts: Artifacts, contents: map<Id, Content>, ids: set<Id>,
                    score: (Artifact, Option<Content>) -> real, now: Instant): Artifacts
  {
    map x | x in artifacts ::
      if x in ids
      then artifacts[x].(priority := score(artifacts[x].(computedAt := None), ContentOf(contents, x)),
                         computedAt := Some(now))
      else artifacts[x]
  }

  function Swept(artifacts: Artifacts, contents: map<Id, Content>,
                 score: (Artifact, Option<Content>) -> real, now: Instant): Artifacts
  {
    Rescored(artifacts, contents, IdsOf(PendingList(artifacts)), score, now)
  }

  /** The first listed artifact of a service. */
  function FirstOfService(rows: seq<Listed>, service: string): Option<Listed> {
    if rows == [] then None
    else if rows[0].row.service == service then Some(rows[0])
    else FirstOfService(rows[1..], service)
  }

  lemma {:induction false} FirstOfServiceFacts(rows: seq<Listed>, service: string)
    ensures var r := FirstOfService(rows, service);
            if r.Some? then r.value in rows && r.value.row.service == service
            else forall x :: x in rows ==> x.row.service != service
  {
    if rows != [] && rows[0].row.service != service {
      FirstOfServiceFacts(rows[1..], service);
      assert rows == [rows[0]] + rows[1..];
    }
  }

  function SupersededBy(artifacts: Artifacts, service: string): Option<Listed> {
    if service == "" then None else FirstOfService(PendingList(artifacts), service)
  }

  lemma SupersededIsListed(artifacts: Artifacts, service: string)
    ensures var s := SupersededBy(artifacts, service);
            s.Some? ==> && IsPending(artifacts, s.value.key.id)
                        && s.value.row.service == service
                        && s.value == Listed(KeyOf(s.value.key.id, artifacts[s.value.key.id]),
                                             RowOf(artifacts[s.value.key.id]))
  {
    PendingListFacts(artifacts);
    FirstOfServiceFacts(PendingList(artifacts), service);
  }

  function NewArtifact(req: Request, venue: string, pin: Option<Day>, now: Instant): Artifact {
    Artifact(req.service, venue, req.url, req.channel, now, req.eventDate, 0.0, None, Pending, pin)
  }

  /** The room after an insert that supersedes `s`, if there is such a row. */
  function InsertedOver(room: Room, s: Option<Listed>, id: Id, req: Request, now: Instant, rules: MergeRules): Room {
    match s
    case None =>
      room.(artifacts := room.artifacts[id := NewArtifact(req, req.venue, None, now)],
            contents := room.contents[id := FirstContent(req)])
    case Some(r) =>
      var venue := if req.venue != "" then req.venue else r.row.venue;
      room.(artifacts := Marked(room.artifacts, r.key.id, Discarded)[id := NewArtifact(req, venue, r.row.pin, now)],
            contents := room.contents[id := MergedContent(room.contents, r, req, rules)])
  }

  function MergedContent(contents: map<Id, Content>, r: Listed, req: Request, rules: MergeRules): Content {
    if r.key.id in contents
    then Concatenate(contents[r.key.id], r.row.url, r.row.eventDate, r.key.createdAt, req, rules)
    else FirstContent(req)
  }

  function Inserted(room: Room, id: Id, req: Request, now: Instant, rules: MergeRules): Room {
    InsertedOver(room, SupersededBy(room.artifacts, req.service), id, req, now, rules)
  }

  lemma UnpinnedNone(artifacts: Artifacts, rows: seq<Listed>, day: Day, id: Id)
    ensures Unpinned(artifacts, PinHolders(rows[..0], day, id)) == artifacts
    ensures id in artifacts ==> id in Unpinned(artifacts, PinHolders(rows, day, id))
                                && Unpinned(artifacts, PinHolders(rows, day, id))[id] == artifacts[id]
  {
  }

  lemma UnpinnedStep(artifacts: Artifacts, rows: seq<Listed>, i: nat, day: Day, id: Id)
    requires i < |rows|
    ensures var r := rows[i];
            var before := Unpinned(artifacts, PinHolders(rows[..i], day, id));
            Unpinned(artifacts, PinHolders(rows[..i + 1], day, id))
            == if r.row.pin == Some(day) && r.key.id != id then WithPin(before, r.key.id, None) else before
  {
  }

  lemma RescoredNone(artifacts: Artifacts, contents: map<Id, Content>, rows: seq<Listed>,
                     score: (Artifact, Option<Content>) -> real, now: Instant)
    ensures Rescored(artifacts, contents, IdsOf(rows[..0]), score, now) == artifacts
    ensures rows[..|rows|] == rows
  {
  }

  lemma RescoredStep(artifacts: Artifacts, contents: map<Id, Content>, rows: seq<Listed>, i: nat,
                     score: (Artifact, Option<Content>) -> real, now: Instant)
    requires i < |rows| && rows == PendingList(artifacts)
    ensures var r := rows[i];
            Rescored(artifacts, contents, IdsOf(rows[..i + 1]), score, now)
            == WithPriority(Rescored(artifacts, contents, IdsOf(rows[..i]), score, now), r.key.id,
                            score(Shown(r), ContentOf(contents, r.key.id)), now)
  {
    PendingListFacts(artifacts);
    hide PendingList;
    var r := rows[i];
    assert r in rows;
    assert IdsOf(rows[..i + 1]) == IdsOf(rows[..i]) + {r.key.id} by {
      assert rows[..i + 1] == rows[..i] + [r];
    }
    assert Shown(r) == artifacts[r.key.id].(computedAt := None);
    assert r.key.id !in IdsOf(rows[..i]);
    RescoredOneMore(artifacts, contents, IdsOf(rows[..i]), r.key.id, score, now);
  }

  lemma RescoredOneMore(artifacts: Artifacts, contents: map<Id, Content>, ids: set<Id>, id: Id,
                        score: (Artifact, Option<Content>) -> real, now: Instant)
    requires id in artifacts && id !in ids
    ensures Rescored(artifacts, contents, ids + {id}, score, now)
            == WithPriority(Rescored(artifacts, contents, ids, score, now), id,
                            score(artifacts[id].(computedAt := None), ContentOf(contents, id)), now)
  {
  }

  method FindOfService(rows: seq<Listed>, service: string) returns (s: Option<Listed>)
    ensures s == FirstOfService(rows, service)
  {
    for i := 0 to |rows|
      invariant FirstOfService(rows[i..], service) == FirstOfService(rows, service)
    {
      if rows[i].row.service == service {
        return Some(rows[i]);
      }
    }
    return None;
  }

  /** No artifact but `id` changes, and none comes or goes. */
  ghost predicate OnlyRow(before: Artifacts, after: Artifacts, id: Id) {
    && after.Keys == before.Keys
    && forall x :: x in before && x != id ==> after[x] == before[x]
  }

  // ---------- The store ----------

  class Store {
    var artifacts: Artifacts
    var pending: PendingIndex
    var contents: map<Id, Content>
    var toCompose: ToCompose

    /** `artifacts_pending` is exactly the PENDING rows of `artifacts`. */
    ghost predicate Valid()
      reads this
    {
      pending == IndexOf(artifacts)
    }

    ghost function View(): Room
      reads this
    {
      Room(artifacts, contents, toCompose)
    }

    constructor ()
      ensures Valid() && View() == Room(map[], map[], map[])
    {
      artifacts, pending, contents, toCompose := map[], map[], map[], map[];
    }

    method ListPendingArtifacts() returns (rows: seq<Listed>)
      requires Valid()
      ensures rows == PendingList(artifacts)
    {
      rows := Listing(pending, ROW_LIMIT);
    }

    /** The dedup scan of InsertArtifact. */
    method FindSuperseded(service: string) returns (s: Option<Listed>)
      requires Valid()
      ensures s == SupersededBy(artifacts, service)
    {
      s := None;
      if service != "" {
        var rows := ListPendingArtifacts();
        s := FindOfService(rows, service);
      }
    }

    method InsertArtifact(id: Id, req: Request, now: Instant, rules: MergeRules)
      requires Valid()
      requires id !in artifacts
      modifies this
      ensures Valid()
      ensures View() == Inserted(old(View()), id, req, now, rules)
    {
      var s := FindSuperseded(req.service);
      SupersededIsListed(artifacts, req.service);
      hide IndexOf, SupersededBy, MergedContent, FirstContent;
      var content := FirstContent(req);
      var venue, pin := req.venue, None;
      if s.Some? {
        var r := s.value;
        pin := r.row.pin;
        content := MergedContent(contents, r, req, rules);
        if venue == "" {
          venue := r.row.venue;
        }
        DiscardSuperseded(r.key.id);
      }
      AddPending(id, NewArtifact(req, venue, pin, now));
      contents := contents[id := content];
    }

    /** Drops the superseded artifact from the index and marks it DISCARDED. */
    method DiscardSuperseded(id: Id)
      requires Valid() && IsPending(artifacts, id)
      modifies this`artifacts, this`pending
      ensures Valid() && artifacts == Marked(old(artifacts), id, Discarded)
    {
      var row := artifacts[id];
      IndexAfterUpdate(artifacts, id, row.(status := Discarded));
      pending := pending - {KeyOf(id, row)};
      artifacts := artifacts[id := row.(status := Discarded)];
    }

    /** Writes the artifact row and its index row. */
    method AddPending(id: Id, a: Artifact)
      requires Valid() && id !in artifacts && a.status == Pending
      modifies this`artifacts, this`pending
      ensures Valid() && artifacts == old(artifacts)[id := a]
    {
      IndexAfterUpdate(artifacts, id, a);
      artifacts := artifacts[id := a];
      pending := pending[KeyOf(id, a) := RowOf(a)];
    }

    method UpdateArtifactPriority(id: Id, priority: real, now: Instant)
      requires Valid()
      modifies this`artifacts, this`pending
      ensures Valid()
      ensures artifacts == WithPriority(old(artifacts), id, priority, now)
      ensures OnlyRow(old(artifacts), artifacts, id)
      ensures id in artifacts ==> artifacts[id] == old(artifacts)[id].(priority := priority, computedAt := Some(now))
    {
      if id !in artifacts {
        return;
      }
      var row := artifacts[id];
      var updated := row.(priority := priority, computedAt := Some(now));
      IndexAfterUpdate(artifacts, id, updated);
      artifacts := artifacts[id := updated];
      if row.status == Pending {
        pending := pending - {KeyOf(id, row)};
        pending := pending[KeyOf(id, updated) := RowOf(updated)];
      }
    }

    /** Keeps the index unless it is used to bring a non-pending artifact to PENDING, which
        writes no index row: that is what RevertArtifactToPending is for. */
    method MarkArtifactStatus(id: Id, status: Status)
      requires Valid()
      modifies this`artifacts, this`pending
      ensures artifacts == Marked(old(artifacts), id, status)
      ensures OnlyRow(old(artifacts), artifacts, id)
      ensures id in artifacts ==> artifacts[id] == old(artifacts)[id].(status := status)
      ensures Valid() <==> (status == Pending && id in old(artifacts) ==> IsPending(old(artifacts), id))
    {
      if id !in artifacts {
        return;
      }
      var row := artifacts[id];
      IndexAfterUpdate(artifacts, id, row.(status := status));
      artifacts := artifacts[id := row.(status := status)];
      if row.status == Pending && status != Pending {
        pending := pending - {KeyOf(id, row)};
      }
      assert status == Pending && row.status != Pending ==> KeyOf(id, row) !in pending;
    }

    method RevertArtifactToPending(id: Id) returns (reverted: bool)
      requires Valid()
      modifies this`artifacts, this`pending
      ensures Valid()
      ensures artifacts == Reverted(old(artifacts), id)
      ensures OnlyRow(old(artifacts), artifacts, id)
      ensures reverted <==> id in old(artifacts) && old(artifacts)[id].status == Selected
      ensures reverted ==> artifacts[id] == old(artifacts)[id].(status := Pending)
      ensures !reverted ==> artifacts == old(artifacts)
    {
      if id !in artifacts || artifacts[id].status != Selected {
        return false;
      }
      var row := artifacts[id].(status := Pending);
      IndexAfterUpdate(artifacts, id, row);
      artifacts := artifacts[id := row];
      pending := pending[KeyOf(id, row) := RowOf(row)];
      return true;
    }

    /** The upsert that mirrors a pin onto the index row of a pending artifact. */
    method SetPendingIndexPin(id: Id, row: Artifact, pin: Option<Day>)
      modifies this`pending
      ensures pending == if row.status == Pending && KeyOf(id, row) in old(pending)
                         then old(pending)[KeyOf(id, row) := old(pending)[KeyOf(id, row)].(pin := pin)]
                         else if row.status == Pending
                         then old(pending)[KeyOf(id, row) := PendingRow("", "", "", "", None, pin)]
                         else old(pending)
    {
      if row.status == Pending {
        var k := KeyOf(id, row);
        var target := if k in pending then pending[k] else PendingRow("", "", "", "", None, None);
        pending := pending[k := target.(pin := pin)];
      }
    }

    /** Writes a pin on the artifact and mirrors it onto the index. */
    method WritePin(id: Id, row: Artifact, pin: Option<Day>)
      requires Valid()
      requires id in artifacts && artifacts[id] == row
      modifies this`artifacts, this`pending
      ensures Valid()
      ensures artifacts == WithPin(old(artifacts), id, pin)
    {
      IndexAfterUpdate(artifacts, id, row.(pin := pin));
      artifacts := artifacts[id := row.(pin := pin)];
      SetPendingIndexPin(id, row, pin);
    }

    method ClearArtifactPin(id: Id)
      requires Valid()
      modifies this`artifacts, this`pending
      ensures Valid()
      ensures artifacts == WithPin(old(artifacts), id, None)
      ensures OnlyRow(old(artifacts), artifacts, id)
      ensures id in artifacts ==> artifacts[id] == old(artifacts)[id].(pin := None)
    {
      if id in artifacts {
        WritePin(id, artifacts[id], None);
      }
    }

    method PinArtifactForDay(id: Id, day: Day) returns (pinned: bool)
      requires Valid()
      modifies this`artifacts, this`pending
      ensures Valid()
      ensures artifacts == PinnedFor(old(artifacts), id, day)
      ensures pinned <==> IsPending(old(artifacts), id)
    {
      hide IndexOf, PendingList, PinHolders, Unpinned;
      if id !in artifacts || artifacts[id].status != Pending {
        return false;
      }
      var row := artifacts[id];
      var others := ListPendingArtifacts();
      ghost var start := artifacts;
      UnpinnedNone(start, others, day, id);
      var i := 0;
      while i < |others|
        invariant i <= |others|
        invariant Valid()
        invariant artifacts == Unpinned(start, PinHolders(others[..i], day, id))
      {
        UnpinnedStep(start, others, i, day, id);
        if others[i].row.pin == Some(day) && others[i].key.id != id {
          ClearArtifactPin(others[i].key.id);
        }
        i := i + 1;
      }
      assert others[..i] == others;
      WritePin(id, row, Some(day));
      return true;
    }

    method SetArtifactVenueServiceId(id: Id, venue: string) returns (found: bool)
      requires Valid()
      modifies this`artifacts, this`pending
      ensures Valid()
      ensures artifacts == WithVenue(old(artifacts), id, venue)
      ensures OnlyRow(old(artifacts), artifacts, id)
      ensures id in artifacts ==> artifacts[id] == old(artifacts)[id].(venue := venue)
      ensures found <==> id in old(artifacts)
    {
      if id !in artifacts {
        return false;
      }
      hide IndexOf;
      var row := artifacts[id];
      IndexAt(artifacts, KeyOf(id, row));
      IndexAfterUpdate(artifacts, id, row.(venue := venue));
      artifacts := artifacts[id := row.(venue := venue)];
      if row.status == Pending {
        var k := KeyOf(id, row);
        pending := pending[k := pending[k].(venue := venue)];
      }
      return true;
    }

    method SweepArtifactPriorities(score: (Artifact, Option<Content>) -> real, now: Instant) returns (swept: nat)
      requires Valid()
      modifies this`artifacts, this`pending
      ensures Valid()
      ensures artifacts == Swept(old(artifacts), contents, score, now)
      ensures swept == |PendingList(old(artifacts))|
    {
      var rows := ListPendingArtifacts();
      ghost var start := artifacts;
      hide IndexOf, PendingList, Rescored, IdsOf, Shown, ContentOf;
      RescoredNone(start, contents, rows, score, now);
      var i := 0;
      while i < |rows|
        invariant i <= |rows|
        invariant Valid()
        invariant artifacts == Rescored(start, contents, IdsOf(rows[..i]), score, now)
      {
        var r := rows[i];
        UpdateArtifactPriority(r.key.id, score(Shown(r), ContentOf(contents, r.key.id)), now);
        RescoredStep(start, contents, rows, i, score, now);
        i := i + 1;
      }
      swept := |rows|;
    }
  }
}
