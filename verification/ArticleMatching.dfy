/** The lookup that tells a service already covered from a new one. */
module ArticleMatching {
  import opened Text

  /** `service_has_article` over the service ids of the published rows: true for a blank id,
      otherwise an exact match of the trimmed, lower-cased id. */
  predicate ServiceHasArticle(published: set<string>, service: string) {
    var sid := Normalize(service);
    sid == "" || sid in published
  }
}
