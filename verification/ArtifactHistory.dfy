/** How a service's ignored updates accumulate: the capped concatenation of texts
    and the `segments` provenance trail. */
module ArtifactHistory {
  import opened Wrappers
  import opened ArtifactTables
  import opened Text

  const BREAK := "\n\n"

  /** The merge as shipped; only the cap is configured. Nothing below depends on the wording. */
  function ShippedRules(maxOldChars: int): MergeRules {
    MergeRules(maxOldChars, "[earlier history truncated]\n\n", "### Earlier update (not yet covered): ",
               "\n\n---\n\n", "### Latest update: ", "(untitled)",
               {"_title", "_url", "_event_date", "_created_at"})
  }

  /** Python's s[-n:], which for n == 0 is the whole string. */
  function SliceFromEnd(s: string, n: int): string {
    if n > 0 then s[(if |s| <= n then 0 else |s| - n)..]
    else s[(if |s| <= -n then |s| else -n)..]
  }

  predicate BreakAt(s: string, i: nat) {
    i + 2 <= |s| && s[i..i + 2] == BREAK
  }

  /** Python's s.find("\n\n") from index i on. */
  function FindBreak(s: string, i: nat): (r: int)
    requires i <= |s|
    ensures r == -1 || (i <= r && BreakAt(s, r))
    ensures forall k: nat :: i <= k && (r == -1 || k < r) ==> !BreakAt(s, k)
    decreases |s| - i
  {
    if i + 2 > |s| then -1
    else if BreakAt(s, i) then i
    else FindBreak(s, i + 1)
  }

  function CapOldContent(prior: string, rules: MergeRules): string {
    if |prior| <= rules.maxOldChars then prior
    else
      var truncated := SliceFromEnd(prior, rules.maxOldChars);
      var idx := FindBreak(truncated, 0);
      rules.truncated
      + if 0 <= idx && 10 * idx < 3 * rules.maxOldChars then truncated[idx + 2..] else truncated
  }

  ghost predicate IsSuffix(tail: string, s: string) {
    |tail| <= |s| && s[|s| - |tail|..] == tail
  }

  ghost predicate IsFirstBreak(s: string, i: nat) {
    BreakAt(s, i) && forall j: nat :: j < i ==> !BreakAt(s, j)
  }

  /** A trimmed old part is the marker and then a suffix of the old text, of length at
      most the cap and above 0.7 of the cap less 2; it opens behind the surviving text's first
      paragraph break whenever that starts in the first 30%, and is that whole text otherwise. */
  lemma CapKeepsSuffix(prior: string, rules: MergeRules)
    requires rules.maxOldChars >= 1
    ensures |prior| <= rules.maxOldChars ==> CapOldContent(prior, rules) == prior
    ensures |prior| > rules.maxOldChars ==>
      var r := CapOldContent(prior, rules);
      && rules.truncated <= r
      && var kept := r[|rules.truncated|..];
      && IsSuffix(kept, prior)
      && 10 * |kept| > 7 * rules.maxOldChars - 20
      && |kept| <= rules.maxOldChars
      && (|kept| < rules.maxOldChars ==> BreakAt(prior, |prior| - |kept| - 2))
      && (forall i: nat :: IsFirstBreak(prior[|prior| - rules.maxOldChars..], i) ==>
            |kept| == if 10 * i < 3 * rules.maxOldChars then rules.maxOldChars - i - 2 else rules.maxOldChars)
  {
    var max := rules.maxOldChars;
    if |prior| > max {
      var truncated := SliceFromEnd(prior, max);
      var idx := FindBreak(truncated, 0);
      var kept := CapOldContent(prior, rules)[|rules.truncated|..];
      if 0 <= idx && 10 * idx < 3 * max {
        assert kept == truncated[idx + 2..];
        assert truncated[idx..idx + 2] == prior[|prior| - |kept| - 2..|prior| - |kept|];
      } else {
        assert kept == truncated;
      }
    }
  }

  ghost predicate CapBoundedBy(rules: MergeRules, bound: nat) {
    forall prior :: |CapOldContent(prior, rules)| <= bound
  }

  /** The cap bounds anything exactly when it is configured to at least one character. */
  lemma CapBoundsIffPositive(rules: MergeRules)
    ensures (exists bound: nat :: CapBoundedBy(rules, bound)) <==> rules.maxOldChars >= 1
  {
    if rules.maxOldChars >= 1 {
      forall prior
        ensures |CapOldContent(prior, rules)| <= |rules.truncated| + rules.maxOldChars
      {
        CapKeepsSuffix(prior, rules);
      }
      assert CapBoundedBy(rules, |rules.truncated| + rules.maxOldChars);
    } else {
      forall bound: nat
        ensures !CapBoundedBy(rules, bound)
      {
        var prior := seq(bound + 1 - rules.maxOldChars, _ => 'x');
        var truncated := SliceFromEnd(prior, rules.maxOldChars);
        assert |truncated| == bound + 1;
        assert |CapOldContent(prior, rules)| > bound;
      }
    }
  }

  /** A cap of 0 keeps the whole old text, marked as truncated. */
  lemma CapOfZeroKeepsAll(prior: string)
    requires prior != ""
    ensures CapOldContent(prior, ShippedRules(0)) == ShippedRules(0).truncated + prior
  {
    assert prior[0..] == prior;
  }

  function Label(title: string, rules: MergeRules): string {
    if Strip(title) == "" then rules.untitled else Strip(title)
  }

  lemma LabelBounded(title: string, rules: MergeRules)
    ensures |Label(title, rules)| <= |title| + |rules.untitled|
  {
    StripTrims(title);
  }

  function SnapshotOf(prior: Content, url: string, eventDate: Option<Instant>, createdAt: Instant,
                      rules: MergeRules): Snapshot
  {
    Snapshot(prior.metadata.fields - rules.snapshotKeys, prior.title, url, eventDate, createdAt)
  }

  function FirstContent(req: Request): Content {
    Content(req.title, req.text, req.metadata)
  }

  function MergedText(priorTitle: string, priorText: string, title: string, text: string, rules: MergeRules): string {
    rules.earlier + Label(priorTitle, rules) + BREAK + CapOldContent(priorText, rules)
    + rules.separator + rules.latest + Label(title, rules) + BREAK + text
  }

  /** How a section names its update. */
  ghost function Heading(opening: string, title: string, rules: MergeRules): string {
    opening + (if Strip(title) == "" then rules.untitled else Strip(title)) + "\n\n"
  }

  /** The merged text opens with the heading of the older update, and the heading of the newer
      one stands behind the divider and directly ahead of the newer text. */
  ghost predicate IsHeaded(merged: string, priorTitle: string, title: string, text: string, rules: MergeRules) {
    && Heading(rules.earlier, priorTitle, rules) <= merged
    && IsSuffix(Heading(rules.separator + rules.latest, title, rules) + text, merged)
  }

  lemma MergedIsHeaded(priorTitle: string, priorText: string, title: string, text: string, rules: MergeRules)
    ensures IsHeaded(MergedText(priorTitle, priorText, title, text, rules), priorTitle, title, text, rules)
  {
    hide CapOldContent, Strip;
    var first, second := Heading(rules.earlier, priorTitle, rules), Heading(rules.separator + rules.latest, title, rules);
    var capped := CapOldContent(priorText, rules);
    var merged := MergedText(priorTitle, priorText, title, text, rules);
    assert merged == first + capped + (second + text);
  }

  /** Content of an artifact that supersedes a pending one of the same service. */
  function Concatenate(prior: Content, url: string, eventDate: Option<Instant>, createdAt: Instant,
                       req: Request, rules: MergeRules): Content
  {
    Content(
      req.title,
      MergedText(prior.title, prior.text, req.title, req.text, rules),
      Metadata(req.metadata.fields,
               prior.metadata.segments + [SnapshotOf(prior, url, eventDate, createdAt, rules)]))
  }

  /** One arriving update: the request and its `now`. */
  datatype Update = Update(req: Request, now: Instant)

  /** Content after a whole chain of updates to one service, none of them composed. */
  function Accumulated(updates: seq<Update>, rules: MergeRules): Content
    requires updates != []
  {
    var last := updates[|updates| - 1];
    if |updates| == 1 then FirstContent(last.req)
    else
      var before := updates[..|updates| - 1];
      var prev := before[|before| - 1];
      Concatenate(Accumulated(before, rules), prev.req.url, prev.req.eventDate, prev.now,
                  last.req, rules)
  }

  function TrailOf(updates: seq<Update>, rules: MergeRules): (trail: seq<Snapshot>)
    ensures |trail| == |updates|
  {
    seq(|updates|, i requires 0 <= i < |updates| =>
          var u := updates[i];
          Snapshot(u.req.metadata.fields - rules.snapshotKeys, u.req.title, u.req.url, u.req.eventDate, u.now))
  }

  lemma TrailGrows(start: seq<Snapshot>, updates: seq<Update>, rules: MergeRules)
    requires updates != []
    ensures var u := updates[|updates| - 1];
            start + TrailOf(updates, rules)
            == start + TrailOf(updates[..|updates| - 1], rules)
               + [SnapshotOf(FirstContent(u.req), u.req.url, u.req.eventDate, u.now, rules)]
  {
  }

  /** Nothing is forgotten: after k further updates the trail holds, in update order, one
      entry per superseded update with that update's own metadata, title, url and dates. */
  lemma {:induction false} HistoryIsKept(updates: seq<Update>, rules: MergeRules)
    requires updates != []
    ensures var c := Accumulated(updates, rules);
            var last := updates[|updates| - 1].req;
            && c.title == last.title
            && c.metadata == Metadata(last.metadata.fields,
                                      updates[0].req.metadata.segments + TrailOf(updates[..|updates| - 1], rules))
  {
    var before := updates[..|updates| - 1];
    if before != [] {
      HistoryIsKept(before, rules);
      TrailGrows(updates[0].req.metadata.segments, before, rules);
    }
  }

  /** The newest text closes the stored text, untrimmed. */
  lemma NewestTextIsWhole(updates: seq<Update>, rules: MergeRules)
    requires updates != []
    ensures IsSuffix(updates[|updates| - 1].req.text, Accumulated(updates, rules).text)
  {
  }

  ghost predicate OccursAt(part: string, s: string, i: int) {
    0 <= i && i + |part| <= |s| && s[i..i + |part|] == part
  }

  ghost predicate OccursBefore(part: string, s: string, limit: int) {
    exists i :: OccursAt(part, s, i) && i + |part| <= limit
  }

  /** All of the old text within the cap, else a suffix of it longer than 0.7 of the cap
      less 2. */
  ghost predicate Survives(kept: string, prior: string, rules: MergeRules) {
    && IsSuffix(kept, prior)
    && if |prior| <= rules.maxOldChars then kept == prior else 10 * |kept| > 7 * rules.maxOldChars - 20
  }

  lemma CappedSurvives(prior: string, rules: MergeRules) returns (skip: nat)
    requires rules.maxOldChars >= 1
    ensures skip <= |CapOldContent(prior, rules)| && Survives(CapOldContent(prior, rules)[skip..], prior, rules)
  {
    CapKeepsSuffix(prior, rules);
    hide CapOldContent;
    skip := if |prior| <= rules.maxOldChars then 0 else |rules.truncated|;
  }

  /** The text a merge starts from is still there ahead of the newest text. */
  lemma OldTextSurvives(updates: seq<Update>, rules: MergeRules)
    requires |updates| > 1 && rules.maxOldChars >= 1
    ensures var prior := Accumulated(updates[..|updates| - 1], rules).text;
            var text := Accumulated(updates, rules).text;
            var newest := updates[|updates| - 1].req.text;
            exists kept :: Survives(kept, prior, rules) && OccursBefore(kept, text, |text| - |newest|)
  {
    hide Accumulated, CapOldContent, MergedText, Survives, OccursBefore;
    var last := updates[|updates| - 1].req;
    var prior := Accumulated(updates[..|updates| - 1], rules);
    UnfoldAccumulated(updates, rules);
    var skip := CappedSurvives(prior.text, rules);
    MergedHolds(prior.title, prior.text, last.title, last.text, rules, skip);
  }

  lemma UnfoldAccumulated(updates: seq<Update>, rules: MergeRules)
    requires |updates| > 1
    ensures var prior := Accumulated(updates[..|updates| - 1], rules);
            var last := updates[|updates| - 1].req;
            Accumulated(updates, rules).text == MergedText(prior.title, prior.text, last.title, last.text, rules)
  {
  }

  lemma MergedHolds(priorTitle: string, priorText: string, title: string, text: string, rules: MergeRules, skip: nat)
    requires skip <= |CapOldContent(priorText, rules)|
    ensures var merged := MergedText(priorTitle, priorText, title, text, rules);
            |text| <= |merged| && OccursBefore(CapOldContent(priorText, rules)[skip..], merged, |merged| - |text|)
  {
    hide CapOldContent, Label;
    var capped := CapOldContent(priorText, rules);
    var head := rules.earlier + Label(priorTitle, rules) + BREAK;
    var middle := rules.separator + rules.latest + Label(title, rules) + BREAK;
    var merged := MergedText(priorTitle, priorText, title, text, rules);
    assert merged == head + capped + middle + text;
    var i := |head| + skip;
    assert OccursAt(capped[skip..], merged, i);
  }

  lemma OccursWithin(part: string, whole: string, s: string)
    requires OccursBefore(part, whole, |whole|) && OccursBefore(whole, s, |s|)
    ensures OccursBefore(part, s, |s|)
  {
    var i :| OccursAt(part, whole, i);
    var j :| OccursAt(whole, s, j);
    forall k | 0 <= k < |part|
      ensures s[j + i + k] == part[k]
    {
      assert s[j + (i + k)] == s[j..j + |whole|][i + k];
      assert whole[i + k] == whole[i..i + |part|][k];
    }
    assert OccursAt(part, s, j + i);
  }

  lemma SuffixOccurs(part: string, s: string)
    requires IsSuffix(part, s)
    ensures OccursBefore(part, s, |s|)
  {
    assert OccursAt(part, s, |s| - |part|);
  }

  /** While the accumulated text has stayed within the cap, every update's text is still in
      it word for word. */
  lemma {:induction false} NothingIsLostWithinCap(updates: seq<Update>, rules: MergeRules, j: nat)
    requires j < |updates| && rules.maxOldChars >= 1
    requires forall n :: 1 <= n < |updates| ==> |Accumulated(updates[..n], rules).text| <= rules.maxOldChars
    ensures var text := Accumulated(updates, rules).text;
            OccursBefore(updates[j].req.text, text, |text|)
    decreases |updates|
  {
    hide Accumulated, OccursBefore, IsSuffix;
    var text := Accumulated(updates, rules).text;
    if j == |updates| - 1 {
      NewestTextIsWhole(updates, rules);
      SuffixOccurs(updates[j].req.text, text);
    } else {
      var before := updates[..|updates| - 1];
      forall n | 1 <= n < |before|
        ensures |Accumulated(before[..n], rules).text| <= rules.maxOldChars
      {
        assert before[..n] == updates[..n];
      }
      NothingIsLostWithinCap(before, rules, j);
      OldTextSurvives(updates, rules);
      assert updates[..|before|] == before;
      OccursEarlier(Accumulated(before, rules).text, text, |text| - |updates[|updates| - 1].req.text|);
      OccursWithin(updates[j].req.text, Accumulated(before, rules).text, text);
    }
  }

  lemma OccursEarlier(part: string, s: string, limit: int)
    requires OccursBefore(part, s, limit)
    ensures OccursBefore(part, s, |s|)
  {
  }

  function Overhead(rules: MergeRules): nat {
    |rules.earlier| + |rules.truncated| + |rules.separator| + |rules.latest| + 2 * |rules.untitled| + 2 * |BREAK|
  }

  /** However long the chain, the stored text stays below one bound. */
  lemma {:induction false} HistoryIsBounded(updates: seq<Update>, rules: MergeRules, titles: nat, texts: nat)
    requires updates != [] && rules.maxOldChars >= 1
    requires forall u :: u in updates ==> |u.req.title| <= titles && |u.req.text| <= texts
    ensures |Accumulated(updates, rules).text| <= Overhead(rules) + 2 * titles + rules.maxOldChars + texts
  {
    var last := updates[|updates| - 1];
    assert last in updates;
    LabelBounded(last.req.title, rules);
    var before := updates[..|updates| - 1];
    if before != [] {
      HistoryIsKept(before, rules);
      assert before[|before| - 1] in updates;
      LabelBounded(Accumulated(before, rules).title, rules);
      CapKeepsSuffix(Accumulated(before, rules).text, rules);
    }
  }
}
