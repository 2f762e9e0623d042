/** What runs of transitions, publishes, holds, deletes and slug claims keep. */
module ArticleLaws {
  import opened Wrappers
  import opened Slugs
  import opened ArticleTagIndex
  import opened ArticleTransitions
  import opened PublishGuard

  // ---------- Runs ----------

  datatype Move =
    | Transition(id: Id, newStatus: Option<Status>, newAt: Option<Time>, over: Overrides)
    | Publish(article: Snapshot, newAt: Option<Time>)
    | Hold(id: Id)
    | Delete(id: Id, deletedAt: Option<Time>)
    | EnsureSlug(article: Snapshot)

  datatype Timed = Timed(move: Move, now: Time)

  ghost function Step(t: Tables, m: Timed, naming: Naming): Tables {
    match m.move
    case Transition(id, newStatus, newAt, over) => Transitioned(t, id, newStatus, newAt, m.now, over)
    case Publish(a, newAt) => PublishedBy(t, a, Or(newAt, m.now), m.now, naming)
    case Hold(id) => Transitioned(t, id, Some(OnHold), None, m.now, NO_OVERRIDES)
    case Delete(id, deletedAt) =>
      Transitioned(t, id, Some(Deleted), None, m.now, NO_OVERRIDES.(deletedAt := Some(Some(Or(deletedAt, m.now)))))
    case EnsureSlug(a) => SlugEnsured(t, a, naming)
  }

  /** The tables before the first move and after each one. */
  ghost function Run(t: Tables, moves: seq<Timed>, naming: Naming): (states: seq<Tables>)
    ensures |states| == |moves| + 1 && states[0] == t
    decreases |moves|
  {
    if moves == [] then [t] else [t] + Run(Step(t, moves[0], naming), moves[1..], naming)
  }

  ghost predicate Keyed(t: Tables) {
    YearsAgree(t.articles) && OneRowPerId(t.articles)
  }

  /** `articles_by_tag` holds exactly the published rows' tags, with their columns. */
  ghost predicate Agreed(t: Tables) {
    t.byTag == TagIndexOf(t.articles)
  }

  // ---------- One transition ----------

  /** A move changes the key and the overridden columns of one row, each to what it is given;
      every other column and every other row is carried unchanged. */
  lemma TransitionCarries(t: Tables, k: ArticleKey, newStatus: Option<Status>, newAt: Option<Time>, now: Time, over: Overrides)
    requires OneRowPerId(t.articles) && k in t.articles
    ensures var at := if newAt.Some? then newAt.value else k.publishedAt;
            var n := ArticleKey(if newStatus.Some? then newStatus.value else k.status, at.year, at, k.id);
            var after := Transitioned(t, k.id, newStatus, newAt, now, over).articles;
            && after.Keys == t.articles.Keys - {k} + {n}
            && (forall j :: j in t.articles && j != k ==> j in after && after[j] == t.articles[j])
            && after[n].service == (if over.service.None? then t.articles[k].service else over.service.value)
            && after[n].title == (if over.title.None? then t.articles[k].title else over.title.value)
            && after[n].tags == (if over.tags.None? then t.articles[k].tags else over.tags.value)
            && after[n].slug == (if over.slug.None? then t.articles[k].slug else over.slug.value)
            && after[n].deletedAt == (if over.deletedAt.None? then t.articles[k].deletedAt else over.deletedAt.value)
            && (forall f :: f in over.feed ==> f in after[n].feed && after[n].feed[f] == over.feed[f])
            && (forall f :: f in over.hidden ==> f in after[n].hidden && after[n].hidden[f] == over.hidden[f])
            && (forall f :: f in t.articles[k].feed && f !in over.feed ==> f in after[n].feed && after[n].feed[f] == t.articles[k].feed[f])
            && (forall f :: f in t.articles[k].hidden && f !in over.hidden ==>
                              f in after[n].hidden && after[n].hidden[f] == t.articles[k].hidden[f])
            && after[n].statusUpdatedAt
               == (if over.statusUpdatedAt.Some? then over.statusUpdatedAt.value
                   else if n.status != k.status then Some(now) else t.articles[k].statusUpdatedAt)
  {
    hide Synced;
    KeyOfFacts(t.articles, k.id);
  }

  /** The row of article `id` with a status and a publication time. */
  ghost predicate StandsAs(articles: Articles, id: Id, status: Status, publishedAt: Time) {
    exists n :: n in articles && n == ArticleKey(status, publishedAt.year, publishedAt, id)
  }

  /** Where the object's moves leave its row: held at its publication time, deleted there with the
      time given or else now, or published, unless refused, at the time given or else now. */
  lemma MovesTold(t: Tables, m: Timed, naming: Naming, k: ArticleKey)
    requires OneRowPerId(t.articles) && k in t.articles
    ensures var after := Step(t, m, naming).articles;
            match m.move
            case Hold(id) => id == k.id ==> StandsAs(after, id, OnHold, k.publishedAt)
            case Delete(id, deletedAt) =>
              id == k.id ==>
                var n := ArticleKey(Deleted, k.publishedAt.year, k.publishedAt, id);
                n in after && after[n].deletedAt == Some(if deletedAt.Some? then deletedAt.value else m.now)
            case Publish(a, newAt) =>
              a.id == k.id && !Conflicting(t.articles, a.service, a.id) ==>
                StandsAs(after, a.id, Published, if newAt.Some? then newAt.value else m.now)
            case _ => true
  {
    hide Transitioned, SlugEnsured, Conflicting;
    match m.move
    case Hold(id) =>
      if id == k.id {
        TransitionCarries(t, k, Some(OnHold), None, m.now, NO_OVERRIDES);
      }
    case Delete(id, deletedAt) =>
      if id == k.id {
        TransitionCarries(t, k, Some(Deleted), None, m.now, NO_OVERRIDES.(deletedAt := Some(Some(Or(deletedAt, m.now)))));
      }
    case Publish(a, newAt) =>
      if a.id == k.id {
        var at := Or(newAt, m.now);
        TransitionCarries(t, k, Some(Published), Some(at), m.now, NO_OVERRIDES);
        ReleaseKeepsIds(t, a, at, m.now);
        ClaimKeepsKeys(Released(t, a, at, m.now), a, naming);
      }
    case _ =>
  }

  lemma ClaimKeepsKeys(t: Tables, a: Snapshot, naming: Naming)
    requires OneRowPerId(t.articles)
    ensures SlugEnsured(t, a, naming).articles.Keys == t.articles.Keys
  {
    hide SlugFor, WithSlugAt, WithSlug;
    var r := SlugFor(t.articles, a.id, a.title, naming);
    if r.Success? && r.value.Some? {
      SlugKeepsKeys(t.articles, a.id, r.value.value);
    }
  }

  lemma TransitionAgrees(t: Tables, id: Id, newStatus: Option<Status>, newAt: Option<Time>, now: Time, over: Overrides)
    requires Keyed(t)
    ensures var next := Transitioned(t, id, newStatus, newAt, now, over);
            Keyed(next) && (Agreed(t) ==> Agreed(next))
  {
    hide TagIndexOf, Synced, TagRowOf, MovedColumns;
    KeyOfFacts(t.articles, id);
    var key := KeyOf(t.articles, id);
    if key.Some? {
      var k := key.value;
      SyncFollowsMove(t.articles, k, MovedKey(k, newStatus, newAt),
                      MovedColumns(k, t.articles[k], newStatus, now, over));
    }
  }

  // ---------- Slugs and the tag index ----------

  /** The snapshot's tags against the row's: a published row needs no tag the row lacks and,
      if it gets its slug only now, every tag the row has; any other row needs none at all. */
  ghost predicate TagsFit(articles: Articles, a: Snapshot) {
    forall k :: k in articles && k.id == a.id ==> FitsAt(k, articles[k], a.tags)
  }

  predicate FitsAt(k: ArticleKey, row: Columns, tags: seq<string>) {
    if k.status == Published then
      && (forall tag :: tag in NormalizedTags(tags) ==> tag in NormalizedTags(row.tags))
      && (row.slug == "" ==> forall tag :: tag in NormalizedTags(row.tags) ==> tag in NormalizedTags(tags))
    else NormalizedTags(tags) == []
  }

  function RowMap(keys: set<TagKey>, row: TagRow): ByTag {
    map t | t in keys :: row
  }

  lemma PatchIff(others: ByTag, own: set<TagKey>, patched: set<TagKey>, row: TagRow, slug: string)
    requires others.Keys !! own && others.Keys !! patched
    ensures var before := others + RowMap(own, row);
            before + SlugPatch(before, patched, slug) == others + RowMap(own, row.(slug := slug))
            <==> patched <= own && (row.slug == slug || own <= patched)
  {
    var before := others + RowMap(own, row);
    var left := before + SlugPatch(before, patched, slug);
    var right := others + RowMap(own, row.(slug := slug));
    assert left.Keys == others.Keys + own + patched;
    assert right.Keys == others.Keys + own;
    if left == right {
      forall t | t in patched ensures t in own {
        assert t in left.Keys;
      }
      if row.slug != slug {
        forall t | t in own ensures t in patched {
          assert left[t] == right[t];
        }
      }
    }
  }

  lemma TagsAsKeys(a: seq<string>, b: seq<string>, publishedAt: Time, id: Id)
    ensures TagKeysAt(a, publishedAt, id) <= TagKeysAt(b, publishedAt, id)
            <==> forall tag :: tag in NormalizedTags(a) ==> tag in NormalizedTags(b)
    ensures TagKeysAt(a, publishedAt, id) == {} <==> NormalizedTags(a) == []
  {
    hide NormalizedTags;
    if TagKeysAt(a, publishedAt, id) <= TagKeysAt(b, publishedAt, id) {
      forall tag | tag in NormalizedTags(a) ensures tag in NormalizedTags(b) {
        assert TagKey(tag, publishedAt, id) in TagKeysAt(b, publishedAt, id);
      }
    }
    if NormalizedTags(a) != [] {
      assert TagKey(NormalizedTags(a)[0], publishedAt, id) in TagKeysAt(a, publishedAt, id);
    }
  }

  lemma OthersApart(articles: Articles, k: ArticleKey, tags: seq<string>)
    requires OneRowPerId(articles) && k in articles
    ensures TagIndexOf(articles - {k}).Keys !! TagKeysAt(tags, k.publishedAt, k.id)
  {
  }

  lemma IndexSplits(articles: Articles, k: ArticleKey, c: Columns)
    requires YearsAgree(articles) && OneRowPerId(articles) && k in articles
    ensures TagIndexOf(articles[k := c])
            == TagIndexOf(articles - {k})
               + RowMap(if k.status == Published then TagKeysAt(c.tags, k.publishedAt, k.id) else {}, TagRowOf(c))
  {
    hide TagIndexOf, TagKeysAt, TagRowOf;
    assert (articles - {k})[k := c] == articles[k := c];
    IndexWith(articles - {k}, k, c);
  }

  lemma PatchAtIff(articles: Articles, k: ArticleKey, tags: seq<string>, slug: string)
    requires YearsAgree(articles) && OneRowPerId(articles) && k in articles && slug != ""
    requires articles[k].slug != "" ==> articles[k].slug == slug
    ensures WithSlugAt(TagIndexOf(articles), tags, k.publishedAt, k.id, slug)
            == TagIndexOf(articles[k := articles[k].(slug := slug)])
            <==> FitsAt(k, articles[k], tags)
  {
    hide TagIndexOf, TagKeysAt, NormalizedTags, SlugPatch, RowMap;
    var c := articles[k];
    var own := if k.status == Published then TagKeysAt(c.tags, k.publishedAt, k.id) else {};
    var patched := TagKeysAt(tags, k.publishedAt, k.id);
    assert articles[k := c] == articles;
    IndexSplits(articles, k, c);
    IndexSplits(articles, k, c.(slug := slug));
    OthersApart(articles, k, c.tags);
    OthersApart(articles, k, tags);
    PatchIff(TagIndexOf(articles - {k}), own, patched, TagRowOf(c), slug);
    TagsAsKeys(tags, c.tags, k.publishedAt, k.id);
    TagsAsKeys(c.tags, tags, k.publishedAt, k.id);
  }

  /** The row has no slug and every candidate for one is taken. */
  ghost predicate ClaimIsHopeless(articles: Articles, a: Snapshot, naming: Naming) {
    && (exists k :: k in articles && k.id == a.id && articles[k].slug == "")
    && AllTaken(BaseSlug(a.title, naming.idText(a.id), naming.fold), SlugsOf(articles))
  }

  lemma HopelessIff(articles: Articles, a: Snapshot, naming: Naming)
    requires OneRowPerId(articles)
    ensures SlugFor(articles, a.id, a.title, naming).Failure? <==> ClaimIsHopeless(articles, a, naming)
  {
    hide BaseSlug, ClaimedSlug, AllTaken;
    KeyOfFacts(articles, a.id);
    ClaimFailsIffAllTaken(BaseSlug(a.title, naming.idText(a.id), naming.fold), SlugsOf(articles));
  }

  /** A slug claim from an agreeing index keeps it in agreement exactly when the loaded
      tags fit the row; only a claim without a free candidate or a row needs nothing. */
  lemma SlugAgreesIff(t: Tables, a: Snapshot, naming: Naming)
    requires Keyed(t) && Agreed(t)
    ensures Keyed(SlugEnsured(t, a, naming))
    ensures Agreed(SlugEnsured(t, a, naming))
            <==> ClaimIsHopeless(t.articles, a, naming) || TagsFit(t.articles, a)
  {
    hide TagIndexOf, WithSlugAt, FitsAt, ClaimedSlug, BaseSlug, ClaimIsHopeless;
    KeyOfFacts(t.articles, a.id);
    HopelessIff(t.articles, a, naming);
    ClaimIsNotEmpty(t.articles, a.id, a.title, naming);
    var r := SlugFor(t.articles, a.id, a.title, naming);
    if r.Success? && r.value.Some? {
      var k := KeyOf(t.articles, a.id).value;
      SlugKeepsKeys(t.articles, a.id, r.value.value);
      PatchAtIff(t.articles, k, a.tags, r.value.value);
      assert TagsFit(t.articles, a) <==> FitsAt(k, t.articles[k], a.tags);
    }
  }

  lemma ReleaseKeepsClaims(t: Tables, a: Snapshot, at: Time, now: Time, naming: Naming)
    requires OneRowPerId(t.articles)
    ensures SlugFor(Released(t, a, at, now).articles, a.id, a.title, naming) == SlugFor(t.articles, a.id, a.title, naming)
  {
    hide Synced, ClaimedSlug, BaseSlug;
    KeyOfFacts(t.articles, a.id);
    ReleaseKeepsIds(t, a, at, now);
    var next := Released(t, a, at, now).articles;
    KeyOfFacts(next, a.id);
    var key := KeyOf(t.articles, a.id);
    if key.Some? {
      TransitionCarries(t, key.value, Some(Published), Some(at), now, NO_OVERRIDES);
      var n := MovedKey(key.value, Some(Published), Some(at));
      assert next[n].slug == t.articles[key.value].slug;
      assert SlugsOf(next) == SlugsOf(t.articles) by {
        assert forall k :: k in t.articles && k != key.value ==> k in next && next[k] == t.articles[k];
      }
    }
  }

  /** What has to hold before a move for the index to agree after it. */
  ghost predicate MoveFits(t: Tables, m: Move, naming: Naming) {
    match m
    case Publish(a, _) =>
      || Conflicting(t.articles, a.service, a.id)
      || ClaimIsHopeless(t.articles, a, naming)
      || forall k :: k in t.articles && k.id == a.id ==> FitsAt(k.(status := Published), t.articles[k], a.tags)
    case EnsureSlug(a) => ClaimIsHopeless(t.articles, a, naming) || TagsFit(t.articles, a)
    case _ => true
  }

  lemma ReleasedTagsFit(t: Tables, a: Snapshot, at: Time, now: Time)
    requires OneRowPerId(t.articles)
    ensures TagsFit(Released(t, a, at, now).articles, a)
            <==> forall k :: k in t.articles && k.id == a.id ==> FitsAt(k.(status := Published), t.articles[k], a.tags)
  {
  }

  lemma StepAgreesIff(t: Tables, m: Timed, naming: Naming)
    requires Keyed(t) && Agreed(t)
    ensures Keyed(Step(t, m, naming))
    ensures Agreed(Step(t, m, naming)) <==> MoveFits(t, m.move, naming)
  {
    hide Agreed, Transitioned, SlugEnsured, TagsFit, FitsAt, SlugFor, Conflicting, ClaimIsHopeless;
    match m.move
    case Transition(id, newStatus, newAt, over) => TransitionAgrees(t, id, newStatus, newAt, m.now, over);
    case Hold(id) => TransitionAgrees(t, id, Some(OnHold), None, m.now, NO_OVERRIDES);
    case Delete(id, deletedAt) =>
      TransitionAgrees(t, id, Some(Deleted), None, m.now, NO_OVERRIDES.(deletedAt := Some(Some(Or(deletedAt, m.now)))));
    case EnsureSlug(a) => SlugAgreesIff(t, a, naming);
    case Publish(a, newAt) =>
      var at := Or(newAt, m.now);
      TransitionAgrees(t, a.id, Some(Published), Some(at), m.now, NO_OVERRIDES);
      SlugAgreesIff(Released(t, a, at, m.now), a, naming);
      ReleaseKeepsClaims(t, a, at, m.now, naming);
      HopelessIff(t.articles, a, naming);
      HopelessIff(Released(t, a, at, m.now).articles, a, naming);
      ReleaseKeepsIds(t, a, at, m.now);
      ReleasedTagsFit(t, a, at, m.now);
  }

  /** The index agrees all along a run exactly when every publish and slug claim in it is
      made from a snapshot whose tags fit. */
  lemma {:induction false} RunAgreesIff(t: Tables, moves: seq<Timed>, naming: Naming)
    requires Keyed(t) && Agreed(t)
    ensures var states := Run(t, moves, naming);
            (forall i :: 0 <= i <= |moves| ==> Agreed(states[i]))
            <==> forall i :: 0 <= i < |moves| ==> MoveFits(states[i], moves[i].move, naming)
    decreases |moves|
  {
    hide Agreed, Step, MoveFits, Keyed;
    var states := Run(t, moves, naming);
    if moves != [] {
      var next := Step(t, moves[0], naming);
      StepAgreesIff(t, moves[0], naming);
      assert states[1] == next;
      if Agreed(next) {
        RunAgreesIff(next, moves[1..], naming);
        var rest := Run(next, moves[1..], naming);
        assert forall i :: 0 <= i <= |moves| - 1 ==> states[i + 1] == rest[i] && (i < |moves| - 1 ==> moves[i + 1] == moves[1..][i]);
        assert forall i :: 1 <= i <= |moves| ==> states[i] == rest[i - 1] && (i < |moves| ==> moves[i] == moves[1..][i - 1]);
      }
    }
  }
}
