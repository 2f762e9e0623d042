/** Status moves of an `articles` row and its slug claim, each with the tag index kept in step. */
module ArticleTransitions {
  import opened Wrappers
  import opened Slugs
  import opened ArticleTagIndex

  datatype Tables = Tables(articles: Articles, byTag: ByTag)

  /** The columns a transition's caller sets, on top of the ones it carries over. */
  datatype Overrides = Overrides(
    service: Option<string>,
    title: Option<string>,
    tags: Option<seq<string>>,
    slug: Option<string>,
    statusUpdatedAt: Option<Option<Time>>,
    deletedAt: Option<Option<Time>>,
    feed: map<string, string>,
    hidden: map<string, string>)

  const NO_OVERRIDES := Overrides(None, None, None, None, None, None, map[], map[])

  /** How titles are folded to base characters and article ids written out. */
  datatype Naming = Naming(fold: string -> string, idText: Id -> string)

  // ---------- What the steps mean ----------

  function Or<T>(o: Option<T>, otherwise: T): T {
    if o.Some? then o.value else otherwise
  }

  /** The key of the one row with this article id. */
  ghost function KeyOf(articles: Articles, id: Id): Option<ArticleKey> {
    if k :| k in articles && k.id == id then Some(k) else None
  }

  function MovedKey(k: ArticleKey, newStatus: Option<Status>, newAt: Option<Time>): ArticleKey {
    ArticleKey(Or(newStatus, k.status), Or(newAt, k.publishedAt).year, Or(newAt, k.publishedAt), k.id)
  }

  function MovedColumns(k: ArticleKey, c: Columns, newStatus: Option<Status>, now: Time, over: Overrides): Columns {
    var stamped := if newStatus.Some? && newStatus.value != k.status then Some(now) else c.statusUpdatedAt;
    Columns(Or(over.service, c.service), Or(over.title, c.title), Or(over.tags, c.tags), Or(over.slug, c.slug),
            Or(over.statusUpdatedAt, stamped), Or(over.deletedAt, c.deletedAt),
            c.feed + over.feed, c.hidden + over.hidden)
  }

  /** The row at k moved to its new key, and the tag index reconciled. */
  function Moved(t: Tables, k: ArticleKey, newStatus: Option<Status>, newAt: Option<Time>, now: Time, over: Overrides): Tables
    requires k in t.articles
  {
    var n := MovedKey(k, newStatus, newAt);
    var c := MovedColumns(k, t.articles[k], newStatus, now, over);
    Tables((t.articles - {k})[n := c],
           Synced(t.byTag, k.id, k.status, t.articles[k].tags, k.publishedAt,
                  n.status, c.tags, n.publishedAt, TagRowOf(c)))
  }

  ghost function Transitioned(t: Tables, id: Id, newStatus: Option<Status>, newAt: Option<Time>, now: Time, over: Overrides): Tables {
    match KeyOf(t.articles, id)
    case None => t
    case Some(k) => Moved(t, k, newStatus, newAt, now, over)
  }

  function SlugsOf(articles: Articles): set<string> {
    set k | k in articles && articles[k].slug != "" :: articles[k].slug
  }

  /** What `ensure_article_slug` answers: no article, its own slug, a free one, or none left. */
  ghost function SlugFor(articles: Articles, id: Id, title: string, naming: Naming): Result<Option<string>, string> {
    match KeyOf(articles, id)
    case None => Success(None)
    case Some(k) =>
      if articles[k].slug != "" then Success(Some(articles[k].slug))
      else
        match ClaimedSlug(BaseSlug(title, naming.idText(id), naming.fold), SlugsOf(articles))
        case Success(slug) => Success(Some(slug))
        case Failure(base) => Failure(base)
  }

  ghost function WithSlug(articles: Articles, id: Id, slug: string): Articles {
    match KeyOf(articles, id)
    case None => articles
    case Some(k) => articles[k := articles[k].(slug := slug)]
  }

  /** The `articles` table after `ensure_article_slug`. */
  ghost function Claimed(articles: Articles, id: Id, title: string, naming: Naming): Articles {
    match SlugFor(articles, id, title, naming)
    case Success(Some(slug)) => WithSlug(articles, id, slug)
    case Success(None) => articles
    case Failure(_) => articles
  }

  lemma KeyOfFacts(articles: Articles, id: Id)
    requires OneRowPerId(articles)
    ensures forall k :: k in articles && k.id == id ==> KeyOf(articles, id) == Some(k)
    ensures KeyOf(articles, id).Some? ==> KeyOf(articles, id).value in articles && KeyOf(articles, id).value.id == id
  {
  }

  function KeysFor(list: seq<string>, publishedAt: Time, id: Id): set<TagKey> {
    set tag | tag in list :: TagKey(tag, publishedAt, id)
  }

  lemma KeysGrow(list: seq<string>, i: nat, publishedAt: Time, id: Id)
    requires i < |list|
    ensures KeysFor(list[..i + 1], publishedAt, id) == KeysFor(list[..i], publishedAt, id) + {TagKey(list[i], publishedAt, id)}
  {
  }

  lemma KeysStartEmpty(list: seq<string>, publishedAt: Time, id: Id)
    ensures KeysFor(list[..0], publishedAt, id) == {}
  {
  }

  lemma KeysOfTags(tags: seq<string>, list: seq<string>, publishedAt: Time, id: Id)
    requires list == NormalizedTags(tags)
    ensures KeysFor(list[..|list|], publishedAt, id) == TagKeysAt(tags, publishedAt, id)
  {
  }

  // ---------- The store ----------

  class ArticleStore {
    var articles: Articles
    var byTag: ByTag

    function Contents(): Tables
      reads this
    {
      Tables(articles, byTag)
    }

    method FindById(id: Id) returns (key: Option<ArticleKey>)
      requires OneRowPerId(articles)
      ensures key == KeyOf(articles, id)
    {
      KeyOfFacts(articles, id);
      if k :| k in articles && k.id == id {
        return Some(k);
      }
      return None;
    }

    method DropTags(id: Id, tags: seq<string>, publishedAt: Time)
      modifies this`byTag
      ensures byTag == old(byTag) - TagKeysAt(tags, publishedAt, id)
    {
      hide NormalizedTags, KeysFor, TagKeysAt;
      var list := NormalizeTags(tags);
      KeysStartEmpty(list, publishedAt, id);
      for i := 0 to |list|
        invariant byTag == old(byTag) - KeysFor(list[..i], publishedAt, id)
      {
        byTag := byTag - {TagKey(list[i], publishedAt, id)};
        KeysGrow(list, i, publishedAt, id);
      }
      KeysOfTags(tags, list, publishedAt, id);
    }

    method AddTags(id: Id, tags: seq<string>, publishedAt: Time, row: TagRow)
      modifies this`byTag
      ensures byTag == old(byTag) + RowsAt(tags, publishedAt, id, row)
    {
      hide NormalizedTags, KeysFor, TagKeysAt;
      var list := NormalizeTags(tags);
      KeysStartEmpty(list, publishedAt, id);
      for i := 0 to |list|
        invariant byTag == old(byTag) + map t | t in KeysFor(list[..i], publishedAt, id) :: row
      {
        byTag := byTag[TagKey(list[i], publishedAt, id) := row];
        KeysGrow(list, i, publishedAt, id);
      }
      KeysOfTags(tags, list, publishedAt, id);
    }

    method SyncTagIndex(id: Id, oldStatus: Status, oldTags: seq<string>, oldAt: Time,
                        newStatus: Status, newTags: seq<string>, newAt: Time, row: TagRow)
      modifies this`byTag
      ensures byTag == Synced(old(byTag), id, oldStatus, oldTags, oldAt, newStatus, newTags, newAt, row)
    {
      hide TagKeysAt, RowsAt;
      if oldStatus != Published && newStatus != Published {
        return;
      }
      if oldStatus == Published {
        DropTags(id, oldTags, oldAt);
      }
      if newStatus == Published {
        AddTags(id, newTags, newAt, row);
      }
    }

    method SetSlugInTagIndex(id: Id, tags: seq<string>, publishedAt: Time, slug: string)
      modifies this`byTag
      ensures byTag == if slug == "" then old(byTag) else WithSlugAt(old(byTag), tags, publishedAt, id, slug)
    {
      hide NormalizedTags, KeysFor, TagKeysAt;
      if slug == "" {
        return;
      }
      var list := NormalizeTags(tags);
      KeysStartEmpty(list, publishedAt, id);
      for i := 0 to |list|
        invariant byTag == old(byTag) + SlugPatch(old(byTag), KeysFor(list[..i], publishedAt, id), slug)
      {
        var t := TagKey(list[i], publishedAt, id);
        byTag := byTag[t := (if t in byTag then byTag[t] else BLANK_TAG_ROW).(slug := slug)];
        KeysGrow(list, i, publishedAt, id);
      }
      KeysOfTags(tags, list, publishedAt, id);
    }

    method TransitionArticleStatus(id: Id, newStatus: Option<Status>, newAt: Option<Time>, now: Time, over: Overrides)
      returns (found: bool)
      requires OneRowPerId(articles)
      modifies this
      ensures found == KeyOf(old(articles), id).Some?
      ensures Contents() == Transitioned(old(Contents()), id, newStatus, newAt, now, over)
    {
      hide Synced;
      KeyOfFacts(articles, id);
      var key := FindById(id);
      if key.None? {
        return false;
      }
      var k := key.value;
      var row := articles[k];
      articles := articles - {k};

      var publishedAt := Or(newAt, k.publishedAt);
      var status := Or(newStatus, k.status);
      var values := row;
      if newStatus.Some? && newStatus.value != k.status {
        values := values.(statusUpdatedAt := Some(now));
      }
      values := Columns(Or(over.service, values.service), Or(over.title, values.title), Or(over.tags, values.tags),
                        Or(over.slug, values.slug), Or(over.statusUpdatedAt, values.statusUpdatedAt),
                        Or(over.deletedAt, values.deletedAt), values.feed + over.feed, values.hidden + over.hidden);
      articles := articles[ArticleKey(status, publishedAt.year, publishedAt, id) := values];
      SyncTagIndex(id, k.status, row.tags, k.publishedAt, status, values.tags, publishedAt, TagRowOf(values));
      return true;
    }

    method EnsureArticleSlug(id: Id, title: string, naming: Naming) returns (r: Result<Option<string>, string>)
      requires OneRowPerId(articles)
      modifies this`articles
      ensures r == SlugFor(old(articles), id, title, naming)
      ensures articles == Claimed(old(articles), id, title, naming)
    {
      hide BaseSlug, ClaimedSlug;
      KeyOfFacts(articles, id);
      var key := FindById(id);
      if key.None? {
        return Success(None);
      }
      var row := articles[key.value];
      if row.slug != "" {
        assert row.(slug := row.slug) == row;
        return Success(Some(row.slug));
      }
      var candidate := UniqueSlug(title, naming.idText(id), naming.fold, SlugsOf(articles));
      if candidate.Failure? {
        return Failure(candidate.error);
      }
      articles := articles[key.value := row.(slug := candidate.value)];
      return Success(Some(candidate.value));
    }
  }
}
