/** The `articles` table and `articles_by_tag`, the per-tag index of its published rows. */
module ArticleTagIndex {
  import opened Wrappers
  import opened Text

  type Id = nat

  /** A timestamp and the calendar year it falls in. */
  datatype Time = Time(year: int, instant: int)

  datatype Status = Published | OnHold | Deleted | Other(name: string)

  datatype ArticleKey = ArticleKey(status: Status, year: int, publishedAt: Time, id: Id)

  /** The columns of an `articles` row outside its key. `feed` are the remaining ones a feed
      card shows, `hidden` the remaining ones it does not. "" is an unset slug. */
  datatype Columns = Columns(
    service: string,
    title: string,
    tags: seq<string>,
    slug: string,
    statusUpdatedAt: Option<Time>,
    deletedAt: Option<Time>,
    feed: map<string, string>,
    hidden: map<string, string>)

  datatype TagKey = TagKey(tag: string, publishedAt: Time, id: Id)

  datatype TagRow = TagRow(service: string, title: string, slug: string, tags: seq<string>, feed: map<string, string>)

  type Articles = map<ArticleKey, Columns>
  type ByTag = map<TagKey, TagRow>

  const BLANK_TAG_ROW := TagRow("", "", "", [], map[])

  // ---------- Normalised tags ----------

  function NormalizedFrom(tags: seq<string>, seen: set<string>): seq<string> {
    if tags == [] then []
    else
      var tag := Normalize(tags[0]);
      if tag != "" && tag !in seen then [tag] + NormalizedFrom(tags[1..], seen + {tag})
      else NormalizedFrom(tags[1..], seen)
  }

  function NormalizedTags(tags: seq<string>): seq<string> {
    NormalizedFrom(tags, {})
  }

  method NormalizeTags(tags: seq<string>) returns (out: seq<string>)
    ensures out == NormalizedTags(tags)
  {
    hide Normalize;
    out := [];
    var seen: set<string> := {};
    for i := 0 to |tags|
      invariant out + NormalizedFrom(tags[i..], seen) == NormalizedTags(tags)
    {
      var tag := Normalize(tags[i]);
      if tag != "" && tag !in seen {
        seen := seen + {tag};
        AppendMoves(out, tag, NormalizedFrom(tags[i + 1..], seen));
        out := out + [tag];
      }
    }
    assert tags[|tags|..] == [];
    assert out + [] == out;
  }

  /** The trimmed, lower-cased, non-blank tags, each once. */
  lemma {:induction false} NormalizedTagsFacts(tags: seq<string>, seen: set<string>)
    ensures var out := NormalizedFrom(tags, seen);
            && (forall t :: t in out <==> t != "" && t !in seen && exists raw :: raw in tags && Normalize(raw) == t)
            && (forall i, j :: 0 <= i < j < |out| ==> out[i] != out[j])
  {
    hide Normalize;
    if tags != [] {
      var tag := Normalize(tags[0]);
      var rest := tags[1..];
      assert tags == [tags[0]] + rest;
      NormalizedTagsFacts(rest, seen);
      NormalizedTagsFacts(rest, seen + {tag});
      assert tags[0] in tags;
      var out := NormalizedFrom(tags, seen);
      forall t
        ensures t in out <==> t != "" && t !in seen && exists raw :: raw in tags && Normalize(raw) == t
      {
        if raw :| raw in rest && Normalize(raw) == t {
          assert raw in tags;
        }
      }
    }
  }

  /** A further tag goes to the end, unless it is blank or there already: the order is that of
      the first occurrences. */
  lemma {:induction false} NormalizedTagsGrow(tags: seq<string>, raw: string, seen: set<string>)
    ensures var out, tag := NormalizedFrom(tags, seen), Lower(Strip(raw));
            NormalizedFrom(tags + [raw], seen)
            == if tag == "" || tag in seen || tag in out then out else out + [tag]
  {
    hide Lower, Strip;
    if tags == [] {
      assert ([] + [raw])[1..] == [];
    } else {
      var first := Normalize(tags[0]);
      assert (tags + [raw])[1..] == tags[1..] + [raw];
      NormalizedTagsGrow(tags[1..], raw, seen);
      NormalizedTagsGrow(tags[1..], raw, seen + {first});
    }
  }

  // ---------- What the index has to be ----------

  /** Each row's partition year is the year of its publication time. */
  ghost predicate YearsAgree(articles: Articles) {
    forall k :: k in articles ==> k.year == k.publishedAt.year
  }

  ghost predicate OneRowPerId(articles: Articles) {
    forall j, k :: j in articles && k in articles && j.id == k.id ==> j == k
  }

  /** The `articles` row an index row belongs to. */
  function Home(t: TagKey): ArticleKey {
    ArticleKey(Published, t.publishedAt.year, t.publishedAt, t.id)
  }

  function TagKeysAt(tags: seq<string>, publishedAt: Time, id: Id): (keys: set<TagKey>)
    ensures forall t :: t in keys <==> t.publishedAt == publishedAt && t.id == id && t.tag in NormalizedTags(tags)
  {
    set tag | tag in NormalizedTags(tags) :: TagKey(tag, publishedAt, id)
  }

  function IndexKeys(articles: Articles): (keys: set<TagKey>)
    ensures forall t :: t in keys <==> Home(t) in articles && t.tag in NormalizedTags(articles[Home(t)].tags)
  {
    hide NormalizedTags;
    var keys := set k, t | k in articles && k == Home(t)
                           && t in TagKeysAt(articles[k].tags, k.publishedAt, k.id) :: t;
    assert forall t :: Home(t) in articles && t.tag in NormalizedTags(articles[Home(t)].tags)
                       ==> t in TagKeysAt(articles[Home(t)].tags, t.publishedAt, t.id);
    keys
  }

  function TagRowOf(c: Columns): TagRow {
    TagRow(c.service, c.title, c.slug, c.tags, c.feed)
  }

  /** Exactly one row per published article and normalised tag, at that article's
      publication time and with its columns. */
  function TagIndexOf(articles: Articles): ByTag {
    map t | t in IndexKeys(articles) :: TagRowOf(articles[Home(t)])
  }

  function RowsAt(tags: seq<string>, publishedAt: Time, id: Id, row: TagRow): ByTag {
    map t | t in TagKeysAt(tags, publishedAt, id) :: row
  }

  /** `sync_tag_index`: drop the old published row's tags, add the new one's. */
  function Synced(byTag: ByTag, id: Id, oldStatus: Status, oldTags: seq<string>, oldAt: Time,
                  newStatus: Status, newTags: seq<string>, newAt: Time, row: TagRow): ByTag
  {
    var dropped := if oldStatus == Published then byTag - TagKeysAt(oldTags, oldAt, id) else byTag;
    if newStatus == Published then dropped + RowsAt(newTags, newAt, id, row) else dropped
  }

  function SlugPatch(byTag: ByTag, keys: set<TagKey>, slug: string): ByTag {
    map t | t in keys :: (if t in byTag then byTag[t] else BLANK_TAG_ROW).(slug := slug)
  }

  /** `set_slug_in_tag_index`: an UPDATE, so a missing row is created blank. */
  function WithSlugAt(byTag: ByTag, tags: seq<string>, publishedAt: Time, id: Id, slug: string): ByTag {
    byTag + SlugPatch(byTag, TagKeysAt(tags, publishedAt, id), slug)
  }

  /** The upsert sets the slug under every normalised tag and nothing else; a row it has to create
      holds the slug alone. */
  lemma SlugUpsertTold(byTag: ByTag, tags: seq<string>, publishedAt: Time, id: Id, slug: string, t: TagKey)
    ensures var after := WithSlugAt(byTag, tags, publishedAt, id, slug);
            var own := t.publishedAt == publishedAt && t.id == id && t.tag in NormalizedTags(tags);
            && (t in after <==> t in byTag || own)
            && (t in byTag ==> after[t] == if own then byTag[t].(slug := slug) else byTag[t])
            && (t !in byTag && own ==> after[t] == TagRow("", "", slug, [], map[]))
  {
    hide NormalizedTags;
  }

  lemma AtHome(t: TagKey, k: ArticleKey)
    requires k.year == k.publishedAt.year
    ensures Home(t) == k <==> k.status == Published && t.publishedAt == k.publishedAt && t.id == k.id
  {
  }

  lemma IndexAt(articles: Articles, t: TagKey)
    ensures var index := TagIndexOf(articles);
            && (t in index <==> Home(t) in articles && t.tag in NormalizedTags(articles[Home(t)].tags))
            && (t in index ==> index[t] == TagRowOf(articles[Home(t)]))
  {
  }

  /** The index, told from the articles: a row for each published article under each of its
      normalised tags, at its publication time and with its own columns, and no other row. */
  lemma IndexTold(articles: Articles, t: TagKey)
    requires YearsAgree(articles)
    ensures var index := TagIndexOf(articles);
            && (t in index <==> exists k :: k in articles && k.status == Published && k.publishedAt == t.publishedAt
                                            && k.id == t.id && t.tag in NormalizedTags(articles[k].tags))
            && (forall k :: t in index && k in articles && k.status == Published
                            && k.publishedAt == t.publishedAt && k.id == t.id ==>
                  && index[t].service == articles[k].service && index[t].title == articles[k].title
                  && index[t].slug == articles[k].slug && index[t].tags == articles[k].tags
                  && index[t].feed == articles[k].feed)
  {
    hide TagIndexOf, NormalizedTags;
    IndexAt(articles, t);
    forall k | k in articles && k.status == Published && k.publishedAt == t.publishedAt && k.id == t.id
      ensures Home(t) == k
    {
      AtHome(t, k);
    }
  }

  lemma IndexWithout(articles: Articles, k: ArticleKey)
    requires YearsAgree(articles) && k in articles
    ensures TagIndexOf(articles - {k})
            == if k.status == Published
               then TagIndexOf(articles) - TagKeysAt(articles[k].tags, k.publishedAt, k.id)
               else TagIndexOf(articles)
  {
    hide NormalizedTags, Home, TagIndexOf, TagKeysAt, TagRowOf;
    var less := articles - {k};
    forall t
      ensures t in TagIndexOf(less)
              <==> t in TagIndexOf(articles)
                   && !(k.status == Published && t in TagKeysAt(articles[k].tags, k.publishedAt, k.id))
      ensures t in TagIndexOf(less) ==> TagIndexOf(less)[t] == TagIndexOf(articles)[t]
    {
      AtHome(t, k);
      IndexAt(articles, t);
      IndexAt(less, t);
    }
  }

  lemma IndexWith(articles: Articles, k: ArticleKey, c: Columns)
    requires k.year == k.publishedAt.year
    requires forall j :: j in articles ==> j.id != k.id
    ensures TagIndexOf(articles[k := c])
            == if k.status == Published
               then TagIndexOf(articles) + RowsAt(c.tags, k.publishedAt, k.id, TagRowOf(c))
               else TagIndexOf(articles)
  {
    hide NormalizedTags, Home, TagIndexOf, TagKeysAt, TagRowOf;
    var more := articles[k := c];
    forall t
      ensures t in TagIndexOf(more)
              <==> t in TagIndexOf(articles)
                   || (k.status == Published && t in TagKeysAt(c.tags, k.publishedAt, k.id))
      ensures t in TagIndexOf(articles) ==> TagIndexOf(more)[t] == TagIndexOf(articles)[t] && Home(t) != k
      ensures k.status == Published && t in TagKeysAt(c.tags, k.publishedAt, k.id) ==>
                Home(t) == k && TagIndexOf(more)[t] == TagRowOf(c)
    {
      AtHome(t, k);
      IndexAt(articles, t);
      IndexAt(more, t);
    }
  }

  /** Moving one row from key k to key n and syncing keeps the index exact. */
  lemma SyncFollowsMove(articles: Articles, k: ArticleKey, n: ArticleKey, c: Columns)
    requires YearsAgree(articles) && OneRowPerId(articles) && k in articles
    requires n.id == k.id && n.year == n.publishedAt.year
    ensures var next := (articles - {k})[n := c];
            && YearsAgree(next) && OneRowPerId(next)
            && TagIndexOf(next)
               == Synced(TagIndexOf(articles), k.id, k.status, articles[k].tags, k.publishedAt,
                         n.status, c.tags, n.publishedAt, TagRowOf(c))
  {
    hide TagIndexOf, RowsAt;
    IndexWithout(articles, k);
    IndexWith(articles - {k}, n, c);
  }
}
