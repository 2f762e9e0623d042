/** Tables on which a documented property of the article lifecycle fails. */
module ArticleWitnesses {
  import opened Wrappers
  import opened Text
  import opened Slugs
  import opened ArticleTagIndex
  import opened ArticleTransitions
  import opened PublishGuard
  import opened ArticleLaws
  import opened PublishLaws

  const AT: Time := Time(2026, 0)
  const NAMING: Naming := Naming(s => s, _ => "id")

  function KeyFor(status: Status, id: Id): ArticleKey {
    ArticleKey(status, 2026, AT, id)
  }

  function Row(service: string, tags: seq<string>, slug: string): Columns {
    Columns(service, "a", tags, slug, None, None, map[], map[])
  }

  // ---------- Small strings ----------

  lemma LowerCaseIsNormal(c: char)
    requires 'a' <= c <= 'z'
    ensures Normalize([c]) == [c]
  {
    StripOfTrimmed([c]);
  }

  lemma UpperCaseIsLowered()
    ensures Normalize("S") == "s"
  {
    StripOfTrimmed("S");
  }

  // ---------- A slug claim from an outdated object ----------

  const TAGGED: Articles := map[KeyFor(Published, 0) := Row("s", ["a"], "x")]

  /** An object loaded when the article had another tag puts a row of that tag into the index. */
  lemma OutdatedTagsDisagree()
    ensures var t := Tables(TAGGED, TagIndexOf(TAGGED));
            var a := Snapshot(0, "s", "a", ["b"], "x");
            Keyed(t) && Agreed(t) && !Agreed(SlugEnsured(t, a, NAMING))
  {
    hide SlugEnsured, TagIndexOf, NormalizedTags, BaseSlug, AllTaken;
    var t := Tables(TAGGED, TagIndexOf(TAGGED));
    var a := Snapshot(0, "s", "a", ["b"], "x");
    SlugAgreesIff(t, a, NAMING);
    OneTag('a');
    OneTag('b');
    assert KeyFor(Published, 0) in t.articles;
  }

  lemma OneTag(c: char)
    requires 'a' <= c <= 'z'
    ensures [c] in NormalizedTags([[c]])
    ensures forall tag :: tag in NormalizedTags([[c]]) ==> tag == [c]
  {
    hide NormalizedFrom, Normalize;
    NormalizedTagsFacts([[c]], {});
    LowerCaseIsNormal(c);
    assert [c] in [[c]];
  }

  // ---------- The publish guard ----------

  function Rival(stored: string): Articles {
    map[KeyFor(Published, 0) := Row(stored, [], "x"), KeyFor(OnHold, 1) := Row("s", [], "y")]
  }

  lemma RivalFaces(stored: string)
    ensures OneRowPerId(Rival(stored))
    ensures FaceOf(Rival(stored), 0) == Some(Face(Published, stored, "x"))
    ensures FaceOf(Rival(stored), 1) == Some(Face(OnHold, "s", "y"))
    ensures forall x: Id :: x > 1 ==> FaceOf(Rival(stored), x) == None
  {
    var articles := Rival(stored);
    assert KeyFor(Published, 0) in articles && KeyFor(OnHold, 1) in articles;
    forall x: Id
      ensures x > 1 ==> FaceOf(articles, x) == None
    {
      FaceFacts(articles, x);
    }
    FaceFacts(articles, 0);
    FaceFacts(articles, 1);
  }

  lemma RivalIsPublishedBeside(stored: string, service: string)
    requires Normalize(stored) == "s" && Normalize(service) != stored
    ensures var t := Tables(Rival(stored), map[]);
            var a := Snapshot(1, service, "a", [], "y");
            NoDuplicates(t.articles) && !NoDuplicates(PublishedBy(t, a, AT, AT, NAMING).articles)
  {
    hide PublishedBy, FaceOf, Normalize, Rival;
    var t := Tables(Rival(stored), map[]);
    var a := Snapshot(1, service, "a", [], "y");
    RivalFaces(stored);
    LowerCaseIsNormal('s');
    forall x: Id, y: Id
      ensures !Duplicates(t.articles, x, y)
    {
    }
    ConflictByFace(t.articles, service, 1);
    PublishGuardsIff(t, a, AT, AT, NAMING);
    assert Live(t.articles, 0);
  }

  /** A rival stored under "S" is not found by "s". */
  lemma UnnormalisedRivalIsMissed()
    ensures var t := Tables(Rival("S"), map[]);
            var a := Snapshot(1, "s", "a", [], "y");
            NoDuplicates(t.articles) && !NoDuplicates(PublishedBy(t, a, AT, AT, NAMING).articles)
  {
    hide PublishedBy, Rival, NoDuplicates;
    UpperCaseIsLowered();
    LowerCaseIsNormal('s');
    RivalIsPublishedBeside("S", "s");
  }

  /** An object whose service id is not its row's looks for the wrong rival, although every
      stored id is normalised. */
  lemma WrongServiceIsMissed()
    ensures var t := Tables(Rival("s"), map[]);
            var a := Snapshot(1, "t", "a", [], "y");
            NoDuplicates(t.articles) && !NoDuplicates(PublishedBy(t, a, AT, AT, NAMING).articles)
  {
    hide PublishedBy, Rival, NoDuplicates;
    LowerCaseIsNormal('s');
    LowerCaseIsNormal('t');
    RivalIsPublishedBeside("s", "t");
  }

  // ---------- A table with every candidate taken ----------

  /** Articles 1 to 999 hold the 999 candidates for "a"; article 0 is waiting for one. */
  function AllHeld(): Articles {
    map k | k in (set n: nat | n <= LAST_ATTEMPT :: KeyFor(OnHold, n)) ::
      Row("s", [], if k.id == 0 then "" else Candidate("a", k.id))
  }

  lemma AllHeldIsFull()
    ensures OneRowPerId(AllHeld())
    ensures KeyFor(OnHold, 0) in AllHeld() && AllHeld()[KeyFor(OnHold, 0)] == Row("s", [], "")
    ensures AllTaken("a", SlugsOf(AllHeld()))
    ensures forall k :: k in AllHeld() ==> k.status == OnHold
  {
    hide Candidate;
    var articles := AllHeld();
    forall n | 1 <= n <= LAST_ATTEMPT
      ensures Candidate("a", n) in SlugsOf(articles)
    {
      assert KeyFor(OnHold, n) in articles;
      CandidateIsNotEmpty("a", n);
    }
  }

  lemma CandidateIsNotEmpty(base: string, n: nat)
    requires base != ""
    ensures Candidate(base, n) != ""
  {
  }

  lemma SlugOfA()
    ensures BaseSlug("a", "id", s => s) == "a"
  {
    SlugOfNormal("a");
    hide SlugOf;
  }

  /** The publish that finds no free slug releases the row all the same. */
  lemma SluglessIsReleased()
    ensures var t := Tables(AllHeld(), map[]);
            var a := Snapshot(0, "s", "a", [], "");
            LiveHaveSlugs(t.articles) && !LiveHaveSlugs(PublishedBy(t, a, AT, AT, NAMING).articles)
  {
    hide PublishedBy, AllHeld, BaseSlug, AllTaken, Normalize;
    var t := Tables(AllHeld(), map[]);
    var a := Snapshot(0, "s", "a", [], "");
    AllHeldIsFull();
    SlugOfA();
    FaceFacts(t.articles, 0);
    forall x: Id
      ensures !Live(t.articles, x)
    {
      FaceFacts(t.articles, x);
    }
    PublishSlugsIff(t, a, AT, AT, NAMING);
  }
}
