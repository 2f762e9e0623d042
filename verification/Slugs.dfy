/** Article URL slugs: the regex passes, their normal form, and the search for a free one.
    The Unicode folding before the passes is a parameter. */
module Slugs {
  import opened Wrappers
  import opened Text
  import opened Decimals

  const MAX_SLUG_CHARS: nat := 70

  // ---------- The passes ----------

  predicate IsSlugChar(c: char) {
    'a' <= c <= 'z' || '0' <= c <= '9'
  }

  /** The character classes of the three substitutions. */
  datatype Class = Separators | NonSlug | Dashes

  predicate InClass(c: char, cls: Class) {
    match cls
    case Separators => IsSpace(c) || c == '_' || c == '/' || c == '\\'
    case NonSlug => !IsSlugChar(c) && c != '-'
    case Dashes => c == '-'
  }

  /** s without its leading run of the class. */
  function AfterRun(s: string, cls: Class): (r: string)
    ensures |r| <= |s|
  {
    if s == "" || !InClass(s[0], cls) then s else AfterRun(s[1..], cls)
  }

  /** Every maximal run of the class replaced by one dash. (For dashes this is `-{2,}`: a
      single dash is its own replacement.) */
  function Sub(s: string, cls: Class): string
    decreases |s|
  {
    if s == "" then ""
    else if InClass(s[0], cls) then "-" + Sub(AfterRun(s[1..], cls), cls)
    else [s[0]] + Sub(s[1..], cls)
  }

  /** Straight and curly apostrophes vanish. */
  function WithoutApostrophes(s: string): string {
    if s == "" then ""
    else (if s[0] == '\'' || s[0] == '\U{2019}' then "" else [s[0]]) + WithoutApostrophes(s[1..])
  }

  function StripLeft(s: string): (r: string)
    ensures |r| <= |s|
  {
    if s == "" || s[0] != '-' then s else StripLeft(s[1..])
  }

  function StripRight(s: string): string {
    if s == "" || s[|s| - 1] != '-' then s else StripRight(s[..|s| - 1])
  }

  /** strip("-") */
  function StripDashes(s: string): string {
    StripRight(StripLeft(s))
  }

  /** rfind("-") */
  function LastDash(s: string): (d: int)
    ensures -1 <= d < |s|
  {
    if s == "" then -1 else if s[|s| - 1] == '-' then |s| - 1 else LastDash(s[..|s| - 1])
  }

  function Clamp(slug: string): string {
    if |slug| <= MAX_SLUG_CHARS then slug
    else
      var cut := slug[..MAX_SLUG_CHARS];
      var boundary := LastDash(cut);
      StripDashes(if boundary > MAX_SLUG_CHARS / 2 then cut[..boundary] else cut)
  }

  function Passes(text: string): string {
    StripDashes(Sub(Sub(Sub(text, Separators), NonSlug), Dashes))
  }

  /** `slugify` after folding: the title decomposed, without combining marks, lower-cased. */
  function SlugOf(folded: string): string {
    Clamp(Passes(WithoutApostrophes(folded)))
  }

  // ---------- The meaning of the passes ----------

  /** The maximal runs of slug characters. */
  function Words(s: string): seq<string> {
    if s == "" then []
    else
      var rest := Words(s[1..]);
      if !IsSlugChar(s[0]) then rest
      else if |s| > 1 && IsSlugChar(s[1]) && rest != [] then [[s[0]] + rest[0]] + rest[1..]
      else [[s[0]]] + rest
  }

  function JoinDash(words: seq<string>): string {
    if words == [] then ""
    else if |words| == 1 then words[0]
    else words[0] + "-" + JoinDash(words[1..])
  }

  predicate IsNormal(s: string) {
    && (forall i :: 0 <= i < |s| ==> IsSlugChar(s[i]) || s[i] == '-')
    && (forall i :: 0 <= i < |s| - 1 ==> !(s[i] == '-' && s[i + 1] == '-'))
    && (s != "" ==> s[0] != '-' && s[|s| - 1] != '-')
  }

  lemma {:induction false} WordsOfRun(s: string)
    ensures s != "" && IsSlugChar(s[0]) ==> Words(s) != []
  {
  }

  lemma WordsSkip(c: char, s: string)
    requires !IsSlugChar(c)
    ensures Words([c] + s) == Words(s)
  {
  }

  /** Prepending a slug character depends only on what follows it. */
  lemma WordsPrepend(c: char, s: string, t: string)
    requires IsSlugChar(c) && Words(s) == Words(t)
    requires (s != "" && IsSlugChar(s[0])) <==> (t != "" && IsSlugChar(t[0]))
    ensures Words([c] + s) == Words([c] + t)
  {
  }

  lemma {:induction false} WordsAfterRun(s: string, cls: Class)
    ensures Words(AfterRun(s, cls)) == Words(s)
  {
    if s != "" && InClass(s[0], cls) {
      WordsAfterRun(s[1..], cls);
    }
  }

  /** A substitution keeps the words, and does not move a word to the front or away. */
  lemma {:induction false} WordsOfSub(s: string, cls: Class)
    ensures Words(Sub(s, cls)) == Words(s)
    ensures (Sub(s, cls) != "" && IsSlugChar(Sub(s, cls)[0])) <==> (s != "" && IsSlugChar(s[0]))
    decreases |s|
  {
    if s != "" {
      if InClass(s[0], cls) {
        var rest := AfterRun(s[1..], cls);
        WordsOfSub(rest, cls);
        WordsSkip('-', Sub(rest, cls));
        WordsAfterRun(s[1..], cls);
      } else {
        WordsOfSub(s[1..], cls);
        assert s == [s[0]] + s[1..];
        if IsSlugChar(s[0]) {
          WordsPrepend(s[0], Sub(s[1..], cls), s[1..]);
        } else {
          WordsSkip(s[0], Sub(s[1..], cls));
        }
      }
    }
  }

  lemma {:induction false} WordsOfStripLeft(s: string)
    ensures Words(StripLeft(s)) == Words(s)
  {
    if s != "" && s[0] == '-' {
      WordsOfStripLeft(s[1..]);
    }
  }

  lemma {:induction false} WordsWithDashAfter(s: string)
    ensures Words(s + "-") == Words(s)
  {
    if s == "" {
      assert s + "-" == "-";
      assert "-"[1..] == "";
    } else {
      WordsWithDashAfter(s[1..]);
      assert s + "-" == [s[0]] + (s[1..] + "-");
      assert s == [s[0]] + s[1..];
      if IsSlugChar(s[0]) {
        WordsPrepend(s[0], s[1..] + "-", s[1..]);
      } else {
        WordsSkip(s[0], s[1..] + "-");
      }
    }
  }

  lemma {:induction false} WordsOfStripRight(s: string)
    ensures Words(StripRight(s)) == Words(s)
  {
    if s != "" && s[|s| - 1] == '-' {
      WordsOfStripRight(s[..|s| - 1]);
      WordsWithDashAfter(s[..|s| - 1]);
      assert s == s[..|s| - 1] + "-";
    }
  }

  // ---------- The passes produce the normal form ----------

  predicate OnlySlugChars(s: string) {
    forall i :: 0 <= i < |s| ==> IsSlugChar(s[i]) || s[i] == '-'
  }

  predicate NoDoubleDash(s: string) {
    forall i :: 0 <= i < |s| - 1 ==> !(s[i] == '-' && s[i + 1] == '-')
  }

  lemma {:induction false} AfterRunIsSuffix(s: string, cls: Class)
    ensures AfterRun(s, cls) == s[|s| - |AfterRun(s, cls)|..]
    ensures AfterRun(s, cls) != "" ==> !InClass(AfterRun(s, cls)[0], cls)
  {
    if s != "" && InClass(s[0], cls) {
      AfterRunIsSuffix(s[1..], cls);
    }
  }

  lemma {:induction false} NonSlugLeavesSlugChars(s: string)
    ensures OnlySlugChars(Sub(s, NonSlug))
    decreases |s|
  {
    if s != "" {
      NonSlugLeavesSlugChars(if InClass(s[0], NonSlug) then AfterRun(s[1..], NonSlug) else s[1..]);
    }
  }

  lemma {:induction false} DashesCollapse(s: string)
    requires OnlySlugChars(s)
    ensures OnlySlugChars(Sub(s, Dashes)) && NoDoubleDash(Sub(s, Dashes))
    ensures s != "" && s[0] != '-' ==> Sub(s, Dashes) != "" && Sub(s, Dashes)[0] != '-'
    ensures s == "" ==> Sub(s, Dashes) == ""
    decreases |s|
  {
    if s != "" {
      var rest := if s[0] == '-' then AfterRun(s[1..], Dashes) else s[1..];
      AfterRunIsSuffix(s[1..], Dashes);
      DashesCollapse(rest);
    }
  }

  lemma {:induction false} StripLeftIsSuffix(s: string)
    ensures StripLeft(s) == s[|s| - |StripLeft(s)|..]
    ensures StripLeft(s) != "" ==> StripLeft(s)[0] != '-'
  {
    if s != "" && s[0] == '-' {
      StripLeftIsSuffix(s[1..]);
    }
  }

  lemma {:induction false} StripRightIsPrefix(s: string)
    ensures StripRight(s) <= s
    ensures StripRight(s) != "" ==> StripRight(s)[|StripRight(s)| - 1] != '-'
    ensures s != "" && s[0] != '-' ==> StripRight(s) != ""
  {
    if s != "" && s[|s| - 1] == '-' {
      StripRightIsPrefix(s[..|s| - 1]);
    }
  }

  lemma PassesAreNormal(text: string)
    ensures IsNormal(Passes(text))
  {
    var s := Sub(Sub(text, Separators), NonSlug);
    NonSlugLeavesSlugChars(Sub(text, Separators));
    DashesCollapse(s);
    StripLeftIsSuffix(Sub(s, Dashes));
    StripRightIsPrefix(StripLeft(Sub(s, Dashes)));
  }

  lemma WordsOfPair(c: char, t: string)
    requires IsSlugChar(c) && t != ""
    ensures IsSlugChar(t[0]) ==> Words(t) != [] && Words([c] + t) == [[c] + Words(t)[0]] + Words(t)[1..]
    ensures !IsSlugChar(t[0]) ==> Words([c] + t) == [[c]] + Words(t)
  {
    WordsOfRun(t);
    assert ([c] + t)[1..] == t;
  }

  lemma JoinOfCons(word: string, rest: seq<string>)
    ensures JoinDash([word] + rest) == if rest == [] then word else word + "-" + JoinDash(rest)
  {
    assert ([word] + rest)[1..] == rest;
  }

  lemma JoinFirst(c: char, words: seq<string>)
    requires words != []
    ensures JoinDash([[c] + words[0]] + words[1..]) == [c] + JoinDash(words)
    ensures JoinDash([[c]] + words) == [c] + ("-" + JoinDash(words))
  {
    hide JoinDash;
    var word, rest := words[0], words[1..];
    assert words == [word] + rest;
    JoinOfCons(word, rest);
    JoinOfCons([c] + word, rest);
    JoinOfCons([c], words);
  }

  lemma JoinOfRun(c: char, t: string)
    requires IsSlugChar(c) && t != "" && IsSlugChar(t[0])
    ensures JoinDash(Words([c] + t)) == [c] + JoinDash(Words(t))
  {
    hide Words, JoinDash;
    WordsOfPair(c, t);
    JoinFirst(c, Words(t));
  }

  lemma JoinOverDash(c: char, u: string)
    requires IsSlugChar(c) && u != "" && IsSlugChar(u[0])
    ensures JoinDash(Words([c] + ("-" + u))) == [c] + ("-" + JoinDash(Words(u)))
  {
    hide Words, JoinDash;
    WordsOfRun(u);
    WordsSkip('-', u);
    assert ("-" + u)[0] == '-';
    WordsOfPair(c, "-" + u);
    JoinFirst(c, Words(u));
  }

  lemma {:induction false} NormalIsJoined(s: string)
    requires IsNormal(s)
    ensures JoinDash(Words(s)) == s
    decreases |s|
  {
    hide Words, JoinDash;
    if |s| <= 1 {
      JoinOfOne(s);
    } else if s[1] == '-' {
      assert |s| > 2 && s == [s[0]] + ("-" + s[2..]);
      NormalTail(s, 2);
      NormalIsJoined(s[2..]);
      JoinOverDash(s[0], s[2..]);
    } else {
      assert s == [s[0]] + s[1..];
      NormalTail(s, 1);
      NormalIsJoined(s[1..]);
      JoinOfRun(s[0], s[1..]);
    }
  }

  lemma JoinOfOne(s: string)
    requires |s| <= 1 && IsNormal(s)
    ensures JoinDash(Words(s)) == s
  {
  }

  lemma NormalTail(s: string, n: nat)
    requires IsNormal(s) && n < |s| && s[n] != '-'
    ensures IsNormal(s[n..])
  {
  }

  /** The passes compute the maximal runs of slug characters, joined by single dashes. */
  lemma PassesJoinTheWords(text: string)
    ensures Passes(text) == JoinDash(Words(text))
  {
    var s1 := Sub(text, Separators);
    var s2 := Sub(s1, NonSlug);
    var s3 := Sub(s2, Dashes);
    WordsOfSub(text, Separators);
    WordsOfSub(s1, NonSlug);
    WordsOfSub(s2, Dashes);
    WordsOfStripLeft(s3);
    WordsOfStripRight(StripLeft(s3));
    PassesAreNormal(text);
    NormalIsJoined(Passes(text));
  }

  // ---------- Clamping ----------

  lemma {:induction false} LastDashFacts(s: string)
    ensures var d := LastDash(s);
            && -1 <= d < |s|
            && (d >= 0 ==> s[d] == '-')
            && forall i :: d < i < |s| ==> s[i] != '-'
  {
    if s != "" && s[|s| - 1] != '-' {
      LastDashFacts(s[..|s| - 1]);
    }
  }

  lemma NormalHead(s: string, n: nat)
    requires IsNormal(s) && n <= |s| && (n > 0 ==> s[n - 1] != '-')
    ensures IsNormal(s[..n])
  {
  }

  /** Clamping a normal slug keeps it normal: a prefix, non-empty if the slug is. */
  lemma ClampIsNormal(slug: string)
    requires IsNormal(slug)
    ensures var r := Clamp(slug);
            && r <= slug
            && IsNormal(r)
            && |r| <= MAX_SLUG_CHARS
            && (slug != "" ==> r != "")
            && (|slug| <= MAX_SLUG_CHARS ==> r == slug)
  {
    if |slug| > MAX_SLUG_CHARS {
      var cut := slug[..MAX_SLUG_CHARS];
      var boundary := LastDash(cut);
      LastDashFacts(cut);
      var kept := if boundary > MAX_SLUG_CHARS / 2 then cut[..boundary] else cut;
      assert kept <= slug && kept[0] == slug[0];
      assert StripLeft(kept) == kept;
      StripRightIsPrefix(kept);
      NormalHead(slug, |Clamp(slug)|);
    }
  }

  /** The clamp cuts a word in two exactly when the slug is too long and no dash sits
      behind its middle, up to and including the position just after the cut. */
  lemma ClampCutsAWordIff(slug: string)
    requires IsNormal(slug)
    ensures var r := Clamp(slug);
            (|r| < |slug| && slug[|r|] != '-')
            <==> |slug| > MAX_SLUG_CHARS
                 && forall i :: MAX_SLUG_CHARS / 2 < i <= MAX_SLUG_CHARS ==> slug[i] != '-'
  {
    ClampIsNormal(slug);
    if |slug| > MAX_SLUG_CHARS {
      var cut := slug[..MAX_SLUG_CHARS];
      var boundary := LastDash(cut);
      LastDashFacts(cut);
      if boundary > MAX_SLUG_CHARS / 2 {
        var kept := cut[..boundary];
        assert kept[0] == slug[0];
        assert StripLeft(kept) == kept;
        assert slug[boundary] == '-' && slug[boundary - 1] != '-';
        assert kept[|kept| - 1] == slug[boundary - 1];
        assert StripRight(kept) == kept;
      } else {
        assert cut[0] == slug[0];
        assert StripLeft(cut) == cut;
        assert cut[MAX_SLUG_CHARS - 1] != '-';
        assert StripRight(cut) == cut;
        assert forall i :: boundary < i < MAX_SLUG_CHARS ==> slug[i] == cut[i];
      }
    }
  }

  // ---------- Slugs ----------

  /** The text holds a small letter or a digit. */
  ghost predicate Usable(s: string) {
    exists c :: c in s && ('a' <= c <= 'z' || '0' <= c <= '9')
  }

  lemma UsableCons(c: char, s: string)
    ensures Usable([c] + s) <==> IsSlugChar(c) || Usable(s)
  {
    if Usable([c] + s) {
      var x :| x in [c] + s && ('a' <= x <= 'z' || '0' <= x <= '9');
      assert x == c || x in s;
    }
    if Usable(s) {
      var x :| x in s && ('a' <= x <= 'z' || '0' <= x <= '9');
      assert x in [c] + s;
    }
    if IsSlugChar(c) {
      assert c in [c] + s;
    }
  }

  lemma {:induction false} WordsExist(s: string)
    ensures Words(s) != [] <==> Usable(s)
  {
    if s != "" {
      WordsExist(s[1..]);
      UsableCons(s[0], s[1..]);
      assert s == [s[0]] + s[1..];
    }
  }

  lemma {:induction false} ApostrophesAreNoWords(s: string)
    ensures Usable(WithoutApostrophes(s)) <==> Usable(s)
  {
    if s != "" {
      ApostrophesAreNoWords(s[1..]);
      UsableCons(s[0], s[1..]);
      assert s == [s[0]] + s[1..];
      UsableCons(s[0], WithoutApostrophes(s[1..]));
      assert "" + WithoutApostrophes(s[1..]) == WithoutApostrophes(s[1..]);
    }
  }

  lemma {:induction false} NoApostrophes(s: string)
    requires OnlySlugChars(s)
    ensures WithoutApostrophes(s) == s
  {
    if s != "" {
      NoApostrophes(s[1..]);
    }
  }

  /** A slug is the words of the folded title joined by single dashes, then clamped; it is
      in normal form, at most 70 characters, and empty only when no usable character
      exists. */
  lemma SlugNormalForm(folded: string)
    ensures var text := WithoutApostrophes(folded);
            var slug := SlugOf(folded);
            && slug == Clamp(JoinDash(Words(text)))
            && slug <= JoinDash(Words(text))
            && IsNormal(slug)
            && |slug| <= MAX_SLUG_CHARS
            && (slug != "" <==> Usable(folded))
  {
    hide Passes, Words, JoinDash, Clamp, WithoutApostrophes, Usable, IsNormal;
    var text := WithoutApostrophes(folded);
    PassesJoinTheWords(text);
    PassesAreNormal(text);
    ClampIsNormal(Passes(text));
    WordsExist(text);
    ApostrophesAreNoWords(folded);
    WordsAreNonempty(text);
    JoinIsEmptyIff(Words(text));
  }

  lemma {:induction false} WordsAreNonempty(s: string)
    ensures forall i :: 0 <= i < |Words(s)| ==> Words(s)[i] != ""
  {
    if s != "" {
      WordsAreNonempty(s[1..]);
    }
  }

  lemma JoinIsEmptyIff(words: seq<string>)
    requires forall i :: 0 <= i < |words| ==> words[i] != ""
    ensures JoinDash(words) == "" <==> words == []
  {
  }

  /** An apostrophe, straight or curly, leaves no trace, wherever it stands. */
  lemma ApostrophesVanish(s: string, t: string, mark: char)
    requires mark == '\'' || mark == '\U{2019}'
    ensures SlugOf(s + [mark] + t) == SlugOf(s + t)
  {
    hide Passes, Clamp;
    MarkVanishes(s, t, mark);
  }

  lemma {:induction false} MarkVanishes(s: string, t: string, mark: char)
    requires mark == '\'' || mark == '\U{2019}'
    ensures WithoutApostrophes(s + [mark] + t) == WithoutApostrophes(s + t)
  {
    var marked, plain := s + [mark] + t, s + t;
    if s == "" {
      assert marked[1..] == t && plain == t;
      assert "" + WithoutApostrophes(t) == WithoutApostrophes(t);
    } else {
      assert marked[1..] == s[1..] + [mark] + t && plain[1..] == s[1..] + t;
      MarkVanishes(s[1..], t, mark);
    }
  }

  /** A folding with nothing to do on slug characters and dashes. */
  ghost predicate KeepsSlugs(fold: string -> string) {
    forall s :: OnlySlugChars(s) ==> fold(s) == s
  }

  /** Slugifying a slug, folding included, changes nothing. */
  lemma SlugIsIdempotent(title: string, fold: string -> string)
    requires KeepsSlugs(fold)
    ensures SlugOf(fold(SlugOf(fold(title)))) == SlugOf(fold(title))
  {
    var slug := SlugOf(fold(title));
    SlugNormalForm(fold(title));
    NoApostrophes(slug);
    PassesJoinTheWords(slug);
    NormalIsJoined(slug);
  }

  /** A text that is a slug already is its own slug. */
  lemma SlugOfNormal(s: string)
    requires IsNormal(s)
    ensures SlugOf(s) == Clamp(s)
  {
    hide Passes, Clamp;
    NoApostrophes(s);
    PassesJoinTheWords(s);
    NormalIsJoined(s);
  }

  /** A word of 71 letters loses its last one. */
  lemma LongWordIsCut()
    ensures var word := seq(71, _ => 'a');
            IsNormal(word) && SlugOf(word) == word[..70]
  {
    var word := seq(71, _ => 'a');
    SlugOfNormal(word);
    hide SlugOf;
    var cut := word[..70];
    LastDashFacts(cut);
    assert cut[0] == 'a' && cut[69] == 'a';
  }

  // ---------- A free slug ----------

  /** The base: the title's slug, else the fallback's, else a constant. */
  function BaseSlug(title: string, fallback: string, fold: string -> string): string {
    if SlugOf(fold(title)) != "" then SlugOf(fold(title))
    else if SlugOf(fold(fallback)) != "" then SlugOf(fold(fallback))
    else "article"
  }

  /** The base is the title's own slug unless no usable character is in it, then the
      fallback's, and a constant when that has none either. */
  lemma BaseTold(title: string, fallback: string, fold: string -> string)
    ensures BaseSlug(title, fallback, fold)
            == if Usable(fold(title)) then SlugOf(fold(title))
               else if Usable(fold(fallback)) then SlugOf(fold(fallback)) else "article"
  {
    hide SlugOf, Usable;
    SlugNormalForm(fold(title));
    SlugNormalForm(fold(fallback));
  }

  /** The n-th claim on a base. */
  function Candidate(base: string, n: nat): string {
    if n <= 1 then base else base + "-" + Decimal(n)
  }

  const LAST_ATTEMPT: nat := 999

  /** The n-th claim is the first one nobody holds. */
  ghost predicate FirstFree(base: string, taken: set<string>, n: nat) {
    && 1 <= n <= LAST_ATTEMPT
    && Candidate(base, n) !in taken
    && forall m :: 1 <= m < n ==> Candidate(base, m) in taken
  }

  ghost predicate AllTaken(base: string, taken: set<string>) {
    forall n :: 1 <= n <= LAST_ATTEMPT ==> Candidate(base, n) in taken
  }

  /** The slug a claim gets. */
  ghost function ClaimedSlug(base: string, taken: set<string>): Result<string, string> {
    if n :| FirstFree(base, taken, n) then Success(Candidate(base, n)) else Failure(base)
  }

  lemma ClaimIsFirstFree(base: string, taken: set<string>, n: nat)
    requires FirstFree(base, taken, n)
    ensures ClaimedSlug(base, taken) == Success(Candidate(base, n))
  {
  }

  lemma ClaimFailsIffAllTaken(base: string, taken: set<string>)
    ensures ClaimedSlug(base, taken).Failure? <==> AllTaken(base, taken)
    ensures ClaimedSlug(base, taken).Success? ==> ClaimedSlug(base, taken).value !in taken
  {
    hide Candidate;
    if !AllTaken(base, taken) {
      var n: nat :| 1 <= n <= LAST_ATTEMPT && Candidate(base, n) !in taken;
      SomeFirstFree(base, taken, n);
    }
  }

  lemma {:induction false} SomeFirstFree(base: string, taken: set<string>, n: nat)
    requires 1 <= n <= LAST_ATTEMPT && Candidate(base, n) !in taken
    ensures exists m :: FirstFree(base, taken, m)
  {
    hide Candidate;
    if !FirstFree(base, taken, n) {
      var m: nat :| 1 <= m < n && Candidate(base, m) !in taken;
      SomeFirstFree(base, taken, m);
    }
  }

  /** Different claims get different candidates. */
  lemma CandidatesDiffer(base: string, m: nat, n: nat)
    requires 1 <= m < n <= LAST_ATTEMPT
    ensures Candidate(base, m) != Candidate(base, n)
  {
    hide Decimal, ParseInt64;
    DecimalRoundTrip(m);
    DecimalRoundTrip(n);
    if m == 1 {
      assert |Candidate(base, n)| > |base|;
    } else {
      assert Candidate(base, m)[|base| + 1..] == Decimal(m);
      assert Candidate(base, n)[|base| + 1..] == Decimal(n);
    }
  }

  lemma {:induction false} ManyTaken(base: string, taken: set<string>, n: nat)
    requires n <= LAST_ATTEMPT
    requires forall m :: 1 <= m <= n ==> Candidate(base, m) in taken
    ensures |taken| >= n
    decreases n
  {
    hide Candidate;
    if n > 0 {
      var last := Candidate(base, n);
      forall m | 1 <= m <= n - 1
        ensures Candidate(base, m) in taken - {last}
      {
        CandidatesDiffer(base, m, n);
      }
      ManyTaken(base, taken - {last}, n - 1);
    }
  }

  /** A claim only fails in a table that already holds 999 slugs. */
  lemma ClaimFailureNeedsMany(base: string, taken: set<string>)
    requires ClaimedSlug(base, taken).Failure?
    ensures |taken| >= LAST_ATTEMPT
  {
    ClaimFailsIffAllTaken(base, taken);
    ManyTaken(base, taken, LAST_ATTEMPT);
  }

  /** The base with the smallest number from 2 to 999 that is still free behind it. */
  ghost predicate NumberedFirst(base: string, slug: string, taken: set<string>) {
    exists n: nat ::
      && 2 <= n <= 999 && slug == base + "-" + Decimal(n)
      && forall m: nat :: 2 <= m < n ==> base + "-" + Decimal(m) in taken
  }

  /** The first candidate that is not taken; a failure exactly when all 999 are. */
  method UniqueSlug(title: string, fallback: string, fold: string -> string, taken: set<string>)
    returns (r: Result<string, string>)
    ensures var base := BaseSlug(title, fallback, fold);
            match r
            case Success(slug) => exists n :: FirstFree(base, taken, n) && slug == Candidate(base, n)
            case Failure(_) => AllTaken(base, taken)
    ensures var base := BaseSlug(title, fallback, fold);
            match r
            case Success(slug) => slug !in taken && (slug == base || (base in taken && NumberedFirst(base, slug, taken)))
            case Failure(_) => base in taken && forall n: nat :: 2 <= n <= 999 ==> base + "-" + Decimal(n) in taken
    ensures r == ClaimedSlug(BaseSlug(title, fallback, fold), taken)
  {
    hide Decimal, SlugOf, ClaimedSlug;
    var base := BaseSlug(title, fallback, fold);
    ClaimFailsIffAllTaken(base, taken);
    FailureNames(base, taken);
    if base !in taken {
      assert base == Candidate(base, 1);
      ClaimIsFirstFree(base, taken, 1);
      return Success(base);
    }
    var n: nat := 2;
    while n <= LAST_ATTEMPT
      invariant 2 <= n <= LAST_ATTEMPT + 1
      invariant forall m :: 1 <= m < n ==> Candidate(base, m) in taken
    {
      var candidate := base + "-" + Decimal(n);
      assert candidate == Candidate(base, n);
      if candidate !in taken {
        ClaimIsFirstFree(base, taken, n);
        NumbersTaken(base, taken, n);
        return Success(candidate);
      }
      n := n + 1;
    }
    NumbersTaken(base, taken, n);
    return Failure(base);
  }

  lemma NumbersTaken(base: string, taken: set<string>, n: nat)
    requires forall m :: 1 <= m < n ==> Candidate(base, m) in taken
    ensures forall m: nat :: 2 <= m < n ==> base + "-" + Decimal(m) in taken
  {
    hide Decimal;
    forall m: nat | 2 <= m < n
      ensures base + "-" + Decimal(m) in taken
    {
      assert Candidate(base, m) in taken;
    }
  }

  lemma FailureNames(base: string, taken: set<string>)
    ensures ClaimedSlug(base, taken).Failure? ==> ClaimedSlug(base, taken) == Failure(base)
  {
  }
}
