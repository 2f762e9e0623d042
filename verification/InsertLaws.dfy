/** What `insert_artifact` conserves: one pending artifact per service, the pins, the
    venues, and everything that belongs to other services. */
module InsertLaws {
  import opened Wrappers
  import opened ArtifactTables
  import opened ArtifactHistory
  import opened ArtifactStore

  ghost function PendingOf(artifacts: Artifacts, service: string): set<Id> {
    set x | x in artifacts && artifacts[x].status == Pending && artifacts[x].service == service
  }

  ghost function PinnedOn(artifacts: Artifacts, day: Day): set<Id> {
    set x | x in artifacts && artifacts[x].status == Pending && artifacts[x].pin == Some(day)
  }

  ghost function Max(a: int, b: int): int {
    if a < b then b else a
  }

  /** What a superseded row is: a PENDING artifact of the service, as its row stands;
      there is none only when the service has nothing pending. */
  ghost predicate IsSuperseded(artifacts: Artifacts, service: string, s: Option<Listed>) {
    match s
    case None => service != "" ==> PendingOf(artifacts, service) == {}
    case Some(r) =>
      && r.key.id in PendingOf(artifacts, service)
      && r == Listed(KeyOf(r.key.id, artifacts[r.key.id]), RowOf(artifacts[r.key.id]))
  }

  ghost function IdOf(s: Option<Listed>): Option<Id> {
    match s
    case None => None
    case Some(r) => Some(r.key.id)
  }

  lemma SupersededIsPending(artifacts: Artifacts, service: string)
    requires WithinLimit(artifacts)
    ensures IsSuperseded(artifacts, service, SupersededBy(artifacts, service))
  {
    SupersededIsListed(artifacts, service);
    FirstOfServiceFacts(PendingList(artifacts), service);
    if service != "" && SupersededBy(artifacts, service).None? {
      forall x | x in PendingOf(artifacts, service)
        ensures false
      {
        PendingListComplete(artifacts, x);
      }
    }
  }

  /** `after` holds one new pending artifact `id` of the service, in the place of `x` if any. */
  ghost predicate Supersedes(before: Artifacts, after: Artifacts, id: Id, service: string, x: Option<Id>) {
    && id !in before
    && after.Keys == before.Keys + {id}
    && after[id].status == Pending
    && after[id].service == service
    && (forall y :: y in before && x != Some(y) ==> after[y] == before[y])
    && match x
       case None => after[id].pin == None
       case Some(y) =>
         && y in PendingOf(before, service)
         && after[y] == before[y].(status := Discarded)
         && after[id].pin == before[y].pin
         && (before[y].venue != "" ==> after[id].venue != "")
  }

  lemma InsertSupersedes(room: Room, s: Option<Listed>, id: Id, req: Request, now: Instant, rules: MergeRules)
    requires id !in room.artifacts && IsSuperseded(room.artifacts, req.service, s)
    ensures Supersedes(room.artifacts, InsertedOver(room, s, id, req, now, rules).artifacts, id, req.service, IdOf(s))
  {
  }

  ghost function Without(ids: set<Id>, x: Option<Id>): set<Id> {
    match x
    case None => ids
    case Some(y) => ids - {y}
  }

  /** The new artifact takes the superseded one's place among the pending of its service. */
  lemma PendingOfAfter(before: Artifacts, after: Artifacts, id: Id, service: string, x: Option<Id>)
    requires Supersedes(before, after, id, service, x)
    ensures PendingOf(after, service) == Without(PendingOf(before, service), x) + {id}
  {
  }

  lemma ServiceCountConserved(before: Artifacts, after: Artifacts, id: Id, service: string, x: Option<Id>)
    requires Supersedes(before, after, id, service, x)
    requires x.None? ==> PendingOf(before, service) == {}
    ensures |PendingOf(after, service)| == Max(1, |PendingOf(before, service)|)
  {
    PendingOfAfter(before, after, id, service, x);
  }

  /** The pinned days move with it. */
  lemma PinnedOnAfter(before: Artifacts, after: Artifacts, id: Id, service: string, x: Option<Id>, day: Day)
    requires Supersedes(before, after, id, service, x)
    ensures id !in PinnedOn(before, day)
    ensures PinnedOn(after, day)
            == if x.Some? && x.value in PinnedOn(before, day) then PinnedOn(before, day) - {x.value} + {id}
               else PinnedOn(before, day)
  {
  }

  lemma PinCountConserved(before: Artifacts, after: Artifacts, id: Id, service: string, x: Option<Id>, day: Day)
    requires Supersedes(before, after, id, service, x)
    ensures |PinnedOn(after, day)| == |PinnedOn(before, day)|
  {
    PinnedOnAfter(before, after, id, service, x, day);
  }

  /** The new artifact is the request, with a superseded one's pin and, for want of its own,
      venue; every other content stays. */
  lemma InsertBringsTheRequest(room: Room, id: Id, req: Request, now: Instant, rules: MergeRules)
    ensures var next := Inserted(room, id, req, now, rules);
            && id in next.artifacts
            && var a := next.artifacts[id];
            && a == Artifact(req.service, a.venue, req.url, req.channel, now, req.eventDate, 0.0, None, Pending, a.pin)
            && (req.venue != "" ==> a.venue == req.venue)
            && id in next.contents && next.contents[id].title == req.title
            && next.contents[id].metadata.fields == req.metadata.fields
            && next.contents - {id} == room.contents - {id}
            && next.toCompose == room.toCompose
  {
    hide SupersededBy, MergedText;
  }

  lemma {:induction false} FirstOfServiceIsFirst(rows: seq<Listed>, service: string, r: Listed)
    requires SortedListing(rows) && r in rows && r.row.service == service
    ensures var s := FirstOfService(rows, service);
            s.Some? && (s.value == r || Before(s.value.key, r.key))
  {
    if rows[0].row.service != service {
      FirstOfServiceIsFirst(rows[1..], service, r);
    }
  }

  /** Of several pending artifacts of a service an insert discards the one that comes first. */
  lemma InsertDiscardsTheFirst(room: Room, id: Id, req: Request, now: Instant, rules: MergeRules, x: Id)
    requires WithinLimit(room.artifacts) && id !in room.artifacts && req.service != ""
    requires x in PendingOf(room.artifacts, req.service)
    ensures var before, after := room.artifacts, Inserted(room, id, req, now, rules).artifacts;
            after[x].status == Discarded
            <==> forall y :: y in PendingOf(before, req.service) && y != x ==> Before(KeyOf(x, before[x]), KeyOf(y, before[y]))
  {
    hide WithinLimit, MergedContent, PendingList;
    var before := room.artifacts;
    var rows, s := PendingList(before), SupersededBy(before, req.service);
    SupersededIsPending(room.artifacts, req.service);
    PendingListFacts(before);
    forall y | y in PendingOf(before, req.service)
      ensures s.Some? && (s.value.key.id == y || Before(s.value.key, KeyOf(y, before[y])))
    {
      PendingListComplete(before, y);
      FirstOfServiceIsFirst(rows, req.service, Listed(KeyOf(y, before[y]), RowOf(before[y])));
    }
  }

  /** The text stored over an artifact the insert discards names that artifact's update as the
      earlier one and the request as the latest. */
  lemma InsertHeads(room: Room, id: Id, req: Request, now: Instant, rules: MergeRules, x: Id)
    requires id !in room.artifacts && IsPending(room.artifacts, x) && x in room.contents
    requires var after := Inserted(room, id, req, now, rules).artifacts; x in after && after[x].status == Discarded
    ensures var next := Inserted(room, id, req, now, rules);
            id in next.contents && IsHeaded(next.contents[id].text, room.contents[x].title, req.title, req.text, rules)
  {
    hide SupersededBy, MergedText, IsHeaded;
    MergedIsHeaded(room.contents[x].title, room.contents[x].text, req.title, req.text, rules);
  }

  /** The pending count of a named service goes from c to max(1, c); the pins held by
      PENDING artifacts keep their days with multiplicity; the venue of a superseded
      artifact is never lost; and an artifact of any other service is untouched. */
  lemma InsertConserves(room: Room, id: Id, req: Request, now: Instant, rules: MergeRules)
    requires WithinLimit(room.artifacts) && id !in room.artifacts
    ensures var before := room.artifacts;
            var after := Inserted(room, id, req, now, rules).artifacts;
            && after.Keys == before.Keys + {id}
            && (req.service != "" ==>
                  |PendingOf(after, req.service)| == Max(1, |PendingOf(before, req.service)|))
            && (forall day :: |PinnedOn(after, day)| == |PinnedOn(before, day)|)
            && (forall x :: x in before && before[x].service != req.service ==> after[x] == before[x])
            && (forall x :: x in before && after[x] != before[x] ==>
                  && after[x] == before[x].(status := Discarded)
                  && (before[x].venue != "" ==> after[id].venue != ""))
  {
    var after := Inserted(room, id, req, now, rules).artifacts;
    var s := SupersededBy(room.artifacts, req.service);
    SupersededIsPending(room.artifacts, req.service);
    InsertSupersedes(room, s, id, req, now, rules);
    if req.service != "" {
      ServiceCountConserved(room.artifacts, after, id, req.service, IdOf(s));
    }
    forall day
      ensures |PinnedOn(after, day)| == |PinnedOn(room.artifacts, day)|
    {
      PinCountConserved(room.artifacts, after, id, req.service, IdOf(s), day);
    }
  }

  /** `mine` are the updates a service has received since it last had nothing pending. */
  ghost predicate Tracks(room: Room, service: string, mine: seq<Update>, rules: MergeRules) {
    if mine == [] then PendingOf(room.artifacts, service) == {}
    else exists x :: HoldsHistory(room, service, mine, rules, x)
  }

  ghost predicate HoldsHistory(room: Room, service: string, mine: seq<Update>, rules: MergeRules, x: Id)
    requires mine != []
  {
    var last := mine[|mine| - 1];
    && PendingOf(room.artifacts, service) == {x}
    && x in room.artifacts
    && x in room.contents && room.contents[x] == Accumulated(mine, rules)
    && room.artifacts[x].url == last.req.url
    && room.artifacts[x].eventDate == last.req.eventDate
    && room.artifacts[x].createdAt == last.now
  }

  lemma InsertContent(room: Room, s: Option<Listed>, id: Id, req: Request, now: Instant, rules: MergeRules)
    requires id !in room.artifacts && IsSuperseded(room.artifacts, req.service, s)
    ensures var next := InsertedOver(room, s, id, req, now, rules);
            && next.contents == room.contents[id := next.contents[id]]
            && next.contents[id] == (if s.None? then FirstContent(req)
                                     else MergedContent(room.contents, s.value, req, rules))
            && next.artifacts[id].url == req.url
            && next.artifacts[id].eventDate == req.eventDate
            && next.artifacts[id].createdAt == now
  {
  }

  lemma AccumulatedStep(mine: seq<Update>, u: Update, rules: MergeRules)
    ensures Accumulated(mine + [u], rules)
            == if mine == [] then FirstContent(u.req)
               else var prev := mine[|mine| - 1];
                    Concatenate(Accumulated(mine, rules), prev.req.url, prev.req.eventDate, prev.now,
                                u.req, rules)
  {
  }

  /** An insert extends the history of its own service and of no other. */
  lemma InsertTracks(room: Room, id: Id, u: Update, rules: MergeRules, service: string, mine: seq<Update>)
    requires WithinLimit(room.artifacts) && id !in room.artifacts
    requires service != "" && Tracks(room, service, mine, rules)
    ensures Tracks(Inserted(room, id, u.req, u.now, rules), service,
                   if u.req.service == service then mine + [u] else mine, rules)
  {
    var s := SupersededBy(room.artifacts, u.req.service);
    SupersededIsPending(room.artifacts, u.req.service);
    InsertOverTracks(room, s, id, u, rules, service, mine);
  }

  lemma InsertOverTracks(room: Room, s: Option<Listed>, id: Id, u: Update, rules: MergeRules,
                         service: string, mine: seq<Update>)
    requires id !in room.artifacts && IsSuperseded(room.artifacts, u.req.service, s)
    requires service != "" && Tracks(room, service, mine, rules)
    ensures Tracks(InsertedOver(room, s, id, u.req, u.now, rules), service,
                   if u.req.service == service then mine + [u] else mine, rules)
  {
    var next := InsertedOver(room, s, id, u.req, u.now, rules);
    InsertSupersedes(room, s, id, u.req, u.now, rules);
    InsertContent(room, s, id, u.req, u.now, rules);
    if u.req.service != service {
      OtherServiceTracks(room, next, id, u.req.service, IdOf(s), rules, service, mine);
    } else {
      OwnServiceTracks(room, next, s, id, u, rules, mine);
    }
  }

  lemma OwnServiceTracks(room: Room, next: Room, s: Option<Listed>, id: Id, u: Update, rules: MergeRules,
                         mine: seq<Update>)
    requires IsSuperseded(room.artifacts, u.req.service, s) && u.req.service != ""
    requires Supersedes(room.artifacts, next.artifacts, id, u.req.service, IdOf(s))
    requires id in next.contents
    requires next.contents[id] == if s.None? then FirstContent(u.req) else MergedContent(room.contents, s.value, u.req, rules)
    requires next.artifacts[id].url == u.req.url && next.artifacts[id].eventDate == u.req.eventDate
    requires next.artifacts[id].createdAt == u.now
    requires Tracks(room, u.req.service, mine, rules)
    ensures Tracks(next, u.req.service, mine + [u], rules)
  {
    var service := u.req.service;
    PendingOfAfter(room.artifacts, next.artifacts, id, service, IdOf(s));
    AccumulatedStep(mine, u, rules);
    hide Accumulated, Concatenate, FirstContent;
    if mine == [] {
      assert s.None?;
      assert PendingOf(next.artifacts, service) == {id};
    } else {
      var x :| HoldsHistory(room, service, mine, rules, x);
      assert x in PendingOf(room.artifacts, service);
      assert IdOf(s) == Some(x);
      assert PendingOf(next.artifacts, service) == {id};
    }
    assert HoldsHistory(next, service, mine + [u], rules, id);
  }

  lemma OtherServiceTracks(room: Room, next: Room, id: Id, other: string, s: Option<Id>, rules: MergeRules,
                           service: string, mine: seq<Update>)
    requires Supersedes(room.artifacts, next.artifacts, id, other, s) && other != service
    requires room.contents.Keys <= next.contents.Keys
    requires forall y :: y in room.contents && y != id ==> next.contents[y] == room.contents[y]
    requires Tracks(room, service, mine, rules)
    ensures Tracks(next, service, mine, rules)
  {
    assert PendingOf(next.artifacts, service) == PendingOf(room.artifacts, service);
    if mine != [] {
      var x :| HoldsHistory(room, service, mine, rules, x);
      assert x in PendingOf(room.artifacts, service);
      assert HoldsHistory(next, service, mine, rules, x);
    }
  }
}
