/** Over runs: slugs are unique and permanent, and no service has two published articles. */
module PublishLaws {
  import opened Wrappers
  import opened Text
  import opened Slugs
  import opened ArticleMatching
  import opened ArticleTagIndex
  import opened ArticleTransitions
  import opened PublishGuard
  import opened ArticleLaws

  // ---------- Faces: the status, service and slug under each article id ----------

  datatype Face = Face(status: Status, service: string, slug: string)

  ghost function FaceOf(articles: Articles, id: Id): Option<Face> {
    match KeyOf(articles, id)
    case None => None
    case Some(k) => if k in articles then Some(Face(k.status, articles[k].service, articles[k].slug)) else None
  }

  lemma FaceFacts(articles: Articles, id: Id)
    requires OneRowPerId(articles)
    ensures forall k :: k in articles && k.id == id ==> FaceOf(articles, id) == Some(Face(k.status, articles[k].service, articles[k].slug))
    ensures FaceOf(articles, id).Some? ==> exists k :: k in articles && k.id == id
  {
  }

  ghost predicate SameBut(before: Articles, after: Articles, id: Id) {
    forall x: Id :: x != id ==> FaceOf(after, x) == FaceOf(before, x)
  }

  lemma TransitionFaces(t: Tables, id: Id, newStatus: Option<Status>, newAt: Option<Time>, now: Time, over: Overrides)
    requires OneRowPerId(t.articles)
    ensures var after := Transitioned(t, id, newStatus, newAt, now, over).articles;
            && OneRowPerId(after)
            && SameBut(t.articles, after, id)
            && FaceOf(after, id)
               == match FaceOf(t.articles, id)
                  case None => None
                  case Some(f) => Some(Face(Or(newStatus, f.status), Or(over.service, f.service), Or(over.slug, f.slug)))
  {
    hide Synced;
    KeyOfFacts(t.articles, id);
    var after := Transitioned(t, id, newStatus, newAt, now, over).articles;
    forall x: Id | x != id
      ensures FaceOf(after, x) == FaceOf(t.articles, x)
    {
      KeyOfFacts(t.articles, x);
      KeyOfFacts(after, x);
    }
    KeyOfFacts(after, id);
  }

  lemma SlugFaces(t: Tables, a: Snapshot, naming: Naming)
    requires OneRowPerId(t.articles)
    ensures var after := SlugEnsured(t, a, naming).articles;
            var r := SlugFor(t.articles, a.id, a.title, naming);
            && OneRowPerId(after)
            && SameBut(t.articles, after, a.id)
            && (match FaceOf(t.articles, a.id)
                case None => FaceOf(after, a.id).None? && r == Success(None)
                case Some(f) =>
                  if f.slug != "" then FaceOf(after, a.id) == Some(f) && r == Success(Some(f.slug))
                  else if r.Failure? then FaceOf(after, a.id) == Some(f)
                  else && r.value.Some? && r.value.value != ""
                       && FaceOf(after, a.id) == Some(f.(slug := r.value.value))
                       && forall x: Id :: FaceOf(t.articles, x).Some? ==> FaceOf(t.articles, x).value.slug != r.value.value)
  {
    hide ClaimedSlug, BaseSlug, WithSlugAt;
    KeyOfFacts(t.articles, a.id);
    ClaimIsNotEmpty(t.articles, a.id, a.title, naming);
    var r := SlugFor(t.articles, a.id, a.title, naming);
    ClaimFailsIffAllTaken(BaseSlug(a.title, naming.idText(a.id), naming.fold), SlugsOf(t.articles));
    if r.Success? && r.value.Some? {
      SlugKeepsKeys(t.articles, a.id, r.value.value);
      var after := SlugEnsured(t, a, naming).articles;
      forall x: Id
        ensures x != a.id ==> FaceOf(after, x) == FaceOf(t.articles, x)
      {
        KeyOfFacts(t.articles, x);
        KeyOfFacts(after, x);
      }
      var k := KeyOf(t.articles, a.id).value;
      if t.articles[k].slug == "" {
        forall x: Id | FaceOf(t.articles, x).Some?
          ensures FaceOf(t.articles, x).value.slug != r.value.value
        {
          KeyOfFacts(t.articles, x);
          assert FaceOf(t.articles, x).value.slug in SlugsOf(t.articles) || FaceOf(t.articles, x).value.slug == "";
        }
      }
    }
  }

  lemma ConflictByFace(articles: Articles, service: string, id: Id)
    requires OneRowPerId(articles)
    ensures Conflicting(articles, service, id)
            <==> && Normalize(service) != ""
                 && exists x: Id :: x != id && Live(articles, x) && FaceOf(articles, x).value.service == Normalize(service)
  {
    hide Normalize;
    if Conflicting(articles, service, id) {
      var k :| ConflictsAt(articles, service, id, k);
      FaceFacts(articles, k.id);
      assert Live(articles, k.id);
    }
    if x: Id :| x != id && Live(articles, x) && FaceOf(articles, x).value.service == Normalize(service) {
      FaceFacts(articles, x);
      var k :| k in articles && k.id == x;
      assert Normalize(service) != "" ==> ConflictsAt(articles, service, id, k);
    }
  }

  /** The slug an article ends up with after `ensure_slug`. */
  ghost function SlugAfter(t: Tables, a: Snapshot, f: Face, naming: Naming): string {
    if f.slug != "" then f.slug
    else
      match SlugFor(t.articles, a.id, a.title, naming)
      case Success(Some(slug)) => slug
      case Success(None) => ""
      case Failure(_) => ""
  }

  /** No other article has the slug. */
  ghost predicate Fresh(articles: Articles, id: Id, slug: string) {
    slug != "" ==> forall x: Id :: x != id && FaceOf(articles, x).Some? ==> FaceOf(articles, x).value.slug != slug
  }

  lemma PublishFaces(t: Tables, a: Snapshot, at: Time, now: Time, naming: Naming)
    requires OneRowPerId(t.articles)
    ensures var after := PublishedBy(t, a, at, now, naming).articles;
            && OneRowPerId(after)
            && (Conflicting(t.articles, a.service, a.id) ==> after == t.articles)
            && (!Conflicting(t.articles, a.service, a.id) ==>
                  && SameBut(t.articles, after, a.id)
                  && match FaceOf(t.articles, a.id)
                     case None => FaceOf(after, a.id).None?
                     case Some(f) =>
                       && FaceOf(after, a.id) == Some(Face(Published, f.service, SlugAfter(t, a, f, naming)))
                       && (f.slug == "" ==> Fresh(t.articles, a.id, SlugAfter(t, a, f, naming))))
  {
    hide Transitioned, SlugEnsured, SlugFor, FaceOf, Conflicting;
    TransitionFaces(t, a.id, Some(Published), Some(at), now, NO_OVERRIDES);
    SlugFaces(Released(t, a, at, now), a, naming);
    ReleaseKeepsClaims(t, a, at, now, naming);
  }

  // ---------- Slugs ----------

  ghost predicate SlugsUnique(articles: Articles) {
    forall x: Id, y: Id :: x != y && FaceOf(articles, x).Some? && FaceOf(articles, y).Some?
                           && FaceOf(articles, x).value.slug != ""
                           ==> FaceOf(articles, x).value.slug != FaceOf(articles, y).value.slug
  }

  /** Every article stays, and a slug once given never changes. */
  ghost predicate SlugsKept(before: Articles, after: Articles) {
    forall x: Id ::
      && (FaceOf(after, x).Some? <==> FaceOf(before, x).Some?)
      && (FaceOf(before, x).Some? && FaceOf(before, x).value.slug != "" ==>
            FaceOf(after, x).value.slug == FaceOf(before, x).value.slug)
  }

  predicate LeavesSlugs(m: Move) {
    m.Transition? ==> m.over.slug.None?
  }

  lemma StepSlugs(t: Tables, m: Timed, naming: Naming)
    requires OneRowPerId(t.articles) && LeavesSlugs(m.move)
    ensures var after := Step(t, m, naming).articles;
            && OneRowPerId(after)
            && SlugsKept(t.articles, after)
            && (SlugsUnique(t.articles) ==> SlugsUnique(after))
  {
    hide Transitioned, SlugEnsured, PublishedBy, SlugFor, FaceOf, Conflicting;
    match m.move
    case Transition(id, newStatus, newAt, over) => TransitionFaces(t, id, newStatus, newAt, m.now, over);
    case Hold(id) => TransitionFaces(t, id, Some(OnHold), None, m.now, NO_OVERRIDES);
    case Delete(id, deletedAt) =>
      TransitionFaces(t, id, Some(Deleted), None, m.now, NO_OVERRIDES.(deletedAt := Some(Some(Or(deletedAt, m.now)))));
    case EnsureSlug(a) => SlugFaces(t, a, naming);
    case Publish(a, newAt) => PublishFaces(t, a, Or(newAt, m.now), m.now, naming);
  }

  /** Slugs are unique and permanent over every run that overrides none. */
  lemma {:induction false} RunSlugs(t: Tables, moves: seq<Timed>, naming: Naming, i: nat, j: nat)
    requires OneRowPerId(t.articles) && SlugsUnique(t.articles)
    requires forall n :: 0 <= n < |moves| ==> LeavesSlugs(moves[n].move)
    requires i <= j <= |moves|
    ensures var states := Run(t, moves, naming);
            SlugsUnique(states[j].articles) && SlugsKept(states[i].articles, states[j].articles)
    decreases |moves|
  {
    hide Step, SlugsUnique, FaceOf;
    if j > 0 {
      var next := Step(t, moves[0], naming);
      StepSlugs(t, moves[0], naming);
      RunSlugs(next, moves[1..], naming, if i == 0 then 0 else i - 1, j - 1);
    }
  }

  // ---------- The publish guard ----------

  ghost predicate Live(articles: Articles, id: Id) {
    FaceOf(articles, id).Some? && FaceOf(articles, id).value.status == Published
  }

  /** Two published articles of one service. */
  ghost predicate Duplicates(articles: Articles, x: Id, y: Id) {
    && x != y && Live(articles, x) && Live(articles, y)
    && Normalize(FaceOf(articles, x).value.service) == Normalize(FaceOf(articles, y).value.service) != ""
  }

  ghost predicate NoDuplicates(articles: Articles) {
    forall x: Id, y: Id :: !Duplicates(articles, x, y)
  }

  /** The snapshot names the same service as the stored row. */
  ghost predicate SameService(articles: Articles, a: Snapshot) {
    FaceOf(articles, a.id).Some? ==> Normalize(FaceOf(articles, a.id).value.service) == Normalize(a.service)
  }

  /** Every published article of the snapshot's service is stored under the normalised id. */
  ghost predicate RivalsNormal(articles: Articles, a: Snapshot) {
    forall x: Id :: x != a.id && Live(articles, x) && Normalize(FaceOf(articles, x).value.service) == Normalize(a.service) != ""
                    ==> FaceOf(articles, x).value.service == Normalize(a.service)
  }

  /** No other published article has the row's own service. */
  ghost predicate NoRival(articles: Articles, id: Id)
    requires FaceOf(articles, id).Some?
  {
    forall x: Id :: x != id && Live(articles, x) ==>
      !(Normalize(FaceOf(articles, x).value.service) == Normalize(FaceOf(articles, id).value.service) != "")
  }

  /** From no duplicates, a publish keeps it so exactly when it is refused, finds no row, or
      no other published article has the row's service. The refusal looks for the object's
      service id, the harm is done by the row's. */
  lemma PublishGuardsIff(t: Tables, a: Snapshot, at: Time, now: Time, naming: Naming)
    requires OneRowPerId(t.articles) && NoDuplicates(t.articles)
    ensures NoDuplicates(PublishedBy(t, a, at, now, naming).articles)
            <==> || Conflicting(t.articles, a.service, a.id)
                 || FaceOf(t.articles, a.id).None?
                 || NoRival(t.articles, a.id)
  {
    hide Normalize, FaceOf, PublishedBy, Conflicting, SlugAfter, Fresh;
    PublishFaces(t, a, at, now, naming);
    var after := PublishedBy(t, a, at, now, naming).articles;
    if Conflicting(t.articles, a.service, a.id) {
    } else if FaceOf(t.articles, a.id).Some? && !NoRival(t.articles, a.id) {
      var x: Id :| x != a.id && Live(t.articles, x)
                   && Normalize(FaceOf(t.articles, x).value.service) == Normalize(FaceOf(t.articles, a.id).value.service) != "";
      assert Duplicates(after, x, a.id);
    } else {
      forall x: Id, y: Id
        ensures !Duplicates(after, x, y)
      {
        assert !Duplicates(t.articles, x, y);
      }
    }
  }

  /** So from an object that names its row's service the guard fails only on a rival stored
      under a service id that is not normalised. */
  lemma OwnServiceGuardsIff(t: Tables, a: Snapshot, at: Time, now: Time, naming: Naming)
    requires OneRowPerId(t.articles) && NoDuplicates(t.articles) && SameService(t.articles, a)
    ensures NoDuplicates(PublishedBy(t, a, at, now, naming).articles)
            <==> FaceOf(t.articles, a.id).None? || RivalsNormal(t.articles, a)
  {
    hide Normalize, FaceOf, PublishedBy, Conflicting;
    PublishGuardsIff(t, a, at, now, naming);
    ConflictByFace(t.articles, a.service, a.id);
    NormalizeIdempotent(a.service);
    if Conflicting(t.articles, a.service, a.id) {
      var y: Id :| y != a.id && Live(t.articles, y) && FaceOf(t.articles, y).value.service == Normalize(a.service);
      forall x: Id | x != a.id && Live(t.articles, x) && Normalize(FaceOf(t.articles, x).value.service) == Normalize(a.service) != ""
        ensures FaceOf(t.articles, x).value.service == Normalize(a.service)
      {
        assert !Duplicates(t.articles, x, y);
      }
    }
  }

  /** Stored service ids are the normalised ones. */
  ghost predicate StoredNormal(articles: Articles) {
    forall x: Id :: FaceOf(articles, x).Some? ==> Normalize(FaceOf(articles, x).value.service) == FaceOf(articles, x).value.service
  }

  /** A move that publishes only through `publish`, from a snapshot of the row's own
      service, and rewrites no service id. */
  ghost predicate Guarded(articles: Articles, m: Move) {
    match m
    case Transition(id, newStatus, _, over) =>
      over.service.None? && (newStatus == Some(Published) && FaceOf(articles, id).Some? ==> Live(articles, id))
    case Publish(a, _) => SameService(articles, a)
    case _ => true
  }

  lemma StepGuards(t: Tables, m: Timed, naming: Naming)
    requires OneRowPerId(t.articles) && StoredNormal(t.articles) && NoDuplicates(t.articles) && Guarded(t.articles, m.move)
    ensures var after := Step(t, m, naming).articles;
            OneRowPerId(after) && StoredNormal(after) && NoDuplicates(after)
  {
    hide Normalize, FaceOf, Transitioned, SlugEnsured, PublishedBy, Conflicting, SlugFor, SlugAfter, Fresh;
    var after := Step(t, m, naming).articles;
    match m.move {
      case Transition(id, newStatus, newAt, over) => TransitionFaces(t, id, newStatus, newAt, m.now, over);
      case Hold(id) => TransitionFaces(t, id, Some(OnHold), None, m.now, NO_OVERRIDES);
      case Delete(id, deletedAt) =>
        TransitionFaces(t, id, Some(Deleted), None, m.now, NO_OVERRIDES.(deletedAt := Some(Some(Or(deletedAt, m.now)))));
      case EnsureSlug(a) => SlugFaces(t, a, naming);
      case Publish(a, newAt) =>
        PublishFaces(t, a, Or(newAt, m.now), m.now, naming);
        OwnServiceGuardsIff(t, a, Or(newAt, m.now), m.now, naming);
    }
    if !m.move.Publish? {
      forall x: Id, y: Id
        ensures !Duplicates(after, x, y)
      {
        assert !Duplicates(t.articles, x, y);
      }
    }
  }

  /** When every move to published goes through `publish`, no service ever has two
      published articles. */
  lemma {:induction false} RunGuards(t: Tables, moves: seq<Timed>, naming: Naming, i: nat)
    requires OneRowPerId(t.articles) && StoredNormal(t.articles) && NoDuplicates(t.articles)
    requires i <= |moves|
    requires forall n :: 0 <= n < i ==> Guarded(Run(t, moves, naming)[n].articles, moves[n].move)
    ensures NoDuplicates(Run(t, moves, naming)[i].articles)
    decreases |moves|
  {
    hide Step, NoDuplicates, StoredNormal, Guarded;
    if i > 0 {
      var next := Step(t, moves[0], naming);
      var rest := Run(next, moves[1..], naming);
      assert Guarded(Run(t, moves, naming)[0].articles, moves[0].move);
      StepGuards(t, moves[0], naming);
      forall n | 0 <= n < i - 1
        ensures Guarded(rest[n].articles, moves[1..][n].move)
      {
        assert Guarded(Run(t, moves, naming)[n + 1].articles, moves[n + 1].move);
      }
      RunGuards(next, moves[1..], naming, i - 1);
    }
  }

  /** Publishing an article that is not live is refused exactly when its service is a named
      one that already has a published article. */
  lemma RefusedIffCovered(articles: Articles, a: Snapshot)
    requires OneRowPerId(articles) && !Live(articles, a.id)
    ensures Conflicting(articles, a.service, a.id)
            <==> Normalize(a.service) != "" && ServiceHasArticle(PublishedServices(articles), a.service)
  {
    hide Normalize;
    var sid := Normalize(a.service);
    if sid != "" && ServiceHasArticle(PublishedServices(articles), a.service) {
      var k :| k in articles && k.status == Published && articles[k].service == sid;
      FaceFacts(articles, k.id);
      assert ConflictsAt(articles, a.service, a.id, k);
    }
  }

  // ---------- A published row has a slug ----------

  ghost predicate LiveHaveSlugs(articles: Articles) {
    forall x: Id :: Live(articles, x) ==> FaceOf(articles, x).value.slug != ""
  }

  /** From rows that all obey it, a publish leaves every published row with a slug unless it
      releases a slugless article although all 999 candidates are taken: the failure is
      raised only after the row has been released. */
  lemma PublishSlugsIff(t: Tables, a: Snapshot, at: Time, now: Time, naming: Naming)
    requires OneRowPerId(t.articles) && LiveHaveSlugs(t.articles)
    ensures LiveHaveSlugs(PublishedBy(t, a, at, now, naming).articles)
            <==> || Conflicting(t.articles, a.service, a.id)
                 || FaceOf(t.articles, a.id).None?
                 || FaceOf(t.articles, a.id).value.slug != ""
                 || !AllTaken(BaseSlug(a.title, naming.idText(a.id), naming.fold), SlugsOf(t.articles))
  {
    hide PublishedBy, Conflicting, Fresh, Normalize, Candidate, BaseSlug, ClaimedSlug;
    PublishFaces(t, a, at, now, naming);
    FaceFacts(t.articles, a.id);
    ClaimFailsIffAllTaken(BaseSlug(a.title, naming.idText(a.id), naming.fold), SlugsOf(t.articles));
    ClaimIsNotEmpty(t.articles, a.id, a.title, naming);
    KeyOfFacts(t.articles, a.id);
    var after := PublishedBy(t, a, at, now, naming).articles;
    assert Live(after, a.id) || Conflicting(t.articles, a.service, a.id) || FaceOf(t.articles, a.id).None?;
  }
}
