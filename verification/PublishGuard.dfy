/** The article object: publish behind its duplicate guard, hold, delete, and the slug claim. */
module PublishGuard {
  import opened Wrappers
  import opened Text
  import opened ArticleTagIndex
  import opened ArticleTransitions

  /** What a loaded article object remembers of its row. */
  datatype Snapshot = Snapshot(id: Id, service: string, title: string, tags: seq<string>, slug: string)

  datatype PublishError = DuplicateArticle(service: string, id: Id, existing: Id) | NoFreeSlug(base: string)

  // ---------- What the steps mean ----------

  /** A published row, of another article, found by this service id. */
  predicate ConflictsAt(articles: Articles, service: string, id: Id, k: ArticleKey) {
    && Normalize(service) != ""
    && k in articles && k.status == Published && k.id != id
    && articles[k].service == Normalize(service)
  }

  ghost predicate Conflicting(articles: Articles, service: string, id: Id) {
    exists k :: ConflictsAt(articles, service, id, k)
  }

  /** The service ids of the published rows, as stored. */
  function PublishedServices(articles: Articles): set<string> {
    set k | k in articles && k.status == Published :: articles[k].service
  }

  /** `ensure_slug`: claim, then copy the slug onto the index rows of the snapshot's tags. */
  ghost function SlugEnsured(t: Tables, a: Snapshot, naming: Naming): Tables {
    match SlugFor(t.articles, a.id, a.title, naming)
    case Failure(_) => t
    case Success(None) => t
    case Success(Some(slug)) =>
      var at := KeyOf(t.articles, a.id).value.publishedAt;
      Tables(WithSlug(t.articles, a.id, slug), WithSlugAt(t.byTag, a.tags, at, a.id, slug))
  }

  ghost function Released(t: Tables, a: Snapshot, at: Time, now: Time): Tables {
    Transitioned(t, a.id, Some(Published), Some(at), now, NO_OVERRIDES)
  }

  ghost function PublishedBy(t: Tables, a: Snapshot, at: Time, now: Time, naming: Naming): Tables {
    if Conflicting(t.articles, a.service, a.id) then t
    else SlugEnsured(Released(t, a, at, now), a, naming)
  }

  lemma ClaimIsNotEmpty(articles: Articles, id: Id, title: string, naming: Naming)
    ensures var r := SlugFor(articles, id, title, naming);
            r.Success? && r.value.Some? ==> r.value.value != "" && KeyOf(articles, id).Some?
  {
  }

  lemma ReleaseKeepsIds(t: Tables, a: Snapshot, at: Time, now: Time)
    requires OneRowPerId(t.articles)
    ensures OneRowPerId(Released(t, a, at, now).articles)
  {
  }

  lemma SlugKeepsKeys(articles: Articles, id: Id, slug: string)
    requires OneRowPerId(articles)
    ensures WithSlug(articles, id, slug).Keys == articles.Keys
    ensures OneRowPerId(WithSlug(articles, id, slug))
    ensures KeyOf(WithSlug(articles, id, slug), id) == KeyOf(articles, id)
  {
  }

  // ---------- The object ----------

  class Article {
    const id: Id
    var service: string
    var title: string
    var tags: seq<string>
    var slug: string

    constructor (id: Id, service: string, title: string, tags: seq<string>, slug: string)
      ensures View() == Snapshot(id, service, title, tags, slug)
    {
      this.id, this.service, this.title, this.tags, this.slug := id, service, title, tags, slug;
    }

    function View(): Snapshot
      reads this
    {
      Snapshot(id, service, title, tags, slug)
    }

    method ConflictingPublishedArticleId(store: ArticleStore) returns (other: Option<Id>)
      ensures other.None? <==> !Conflicting(store.articles, service, id)
      ensures other.Some? ==> exists k :: ConflictsAt(store.articles, service, id, k) && k.id == other.value
    {
      hide Normalize;
      var sid := Normalize(service);
      if sid == "" {
        return None;
      }
      if k :| k in store.articles && ConflictsAt(store.articles, service, id, k) {
        return Some(k.id);
      }
      return None;
    }

    method EnsureSlug(store: ArticleStore, naming: Naming) returns (r: Result<Option<string>, string>)
      requires OneRowPerId(store.articles)
      modifies this`slug, store
      ensures r == SlugFor(old(store.articles), id, old(title), naming)
      ensures store.Contents() == SlugEnsured(old(store.Contents()), old(View()), naming)
      ensures slug == (if r.Success? && r.value.Some? then r.value.value else old(slug))
    {
      hide SlugFor, WithSlugAt, WithSlug, KeyOf;
      ClaimIsNotEmpty(store.articles, id, title, naming);
      ghost var before := store.Contents();
      r := store.EnsureArticleSlug(id, title, naming);
      if r.Failure? || r.value.None? {
        return;
      }
      SlugKeepsKeys(before.articles, id, r.value.value);
      var fullRow := store.FindById(id);
      if fullRow.Some? {
        store.SetSlugInTagIndex(id, tags, fullRow.value.publishedAt, r.value.value);
      }
      slug := r.value.value;
    }

    /** On a conflict nothing is written; otherwise the row is released and given a slug. */
    method Publish(store: ArticleStore, newAt: Option<Time>, now: Time, naming: Naming) returns (error: Option<PublishError>)
      requires OneRowPerId(store.articles)
      modifies this`slug, store
      ensures store.Contents() == PublishedBy(old(store.Contents()), old(View()), Or(newAt, now), now, naming)
      ensures (error.Some? && error.value.DuplicateArticle?) <==> Conflicting(old(store.articles), service, id)
      ensures error.Some? && error.value.DuplicateArticle? ==>
                exists k :: ConflictsAt(old(store.articles), service, id, k) && k.id == error.value.existing
      ensures (error.Some? && error.value.NoFreeSlug?) <==>
                && !Conflicting(old(store.articles), service, id)
                && SlugFor(Released(old(store.Contents()), old(View()), Or(newAt, now), now).articles, id, title, naming).Failure?
    {
      hide SlugFor, SlugEnsured, Transitioned, Conflicting, ConflictsAt;
      var conflict := ConflictingPublishedArticleId(store);
      if conflict.Some? {
        return Some(DuplicateArticle(service, id, conflict.value));
      }
      ReleaseKeepsIds(store.Contents(), View(), Or(newAt, now), now);
      var _ := store.TransitionArticleStatus(id, Some(Published), Some(Or(newAt, now)), now, NO_OVERRIDES);
      var claim := EnsureSlug(store, naming);
      return if claim.Failure? then Some(NoFreeSlug(claim.error)) else None;
    }

    method Hold(store: ArticleStore, now: Time)
      requires OneRowPerId(store.articles)
      modifies store
      ensures store.Contents() == Transitioned(old(store.Contents()), id, Some(OnHold), None, now, NO_OVERRIDES)
    {
      var _ := store.TransitionArticleStatus(id, Some(OnHold), None, now, NO_OVERRIDES);
    }

    method Delete(store: ArticleStore, deletedAt: Option<Time>, now: Time)
      requires OneRowPerId(store.articles)
      modifies store
      ensures store.Contents() == Transitioned(old(store.Contents()), id, Some(Deleted), None, now,
                                               NO_OVERRIDES.(deletedAt := Some(Some(Or(deletedAt, now)))))
    {
      var _ := store.TransitionArticleStatus(id, Some(Deleted), None, now,
                                             NO_OVERRIDES.(deletedAt := Some(Some(Or(deletedAt, now)))));
    }
  }
}
