/**
 * The image-request classifier of `handleSendMessage`: the case-insensitive pattern
 *   ^(create|generate|make|draw)\s+(an?|some)?\s*(image|picture|photo|drawing|painting)\s+(of|about)\s+(.+)
 * applied to the trimmed text, whose fifth group (trimmed) becomes the image prompt.
 *
 * `RegexMatch` reads the pattern left to right as a relation between the text and
 * the boundaries of its pieces; `MatchImageRequest` is the hand-written matcher. The
 * matcher returns only decompositions the pattern admits, finds one whenever one
 * exists, and its subject group is the one a backtracking engine reports: `\s+` and
 * `.+` both take as much as they can.
 */
module ImageIntent {
  import opened Wrappers
  import opened Text

  const Verbs: seq<string> := ["create", "generate", "make", "draw"]
  /** `an?|some`, in the order the engine tries them. */
  const Articles: seq<string> := ["an", "a", "some"]
  const Nouns: seq<string> := ["image", "picture", "photo", "drawing", "painting"]
  const Prepositions: seq<string> := ["of", "about"]

  /** ASCII lower case; with the `i` flag a pattern letter matches exactly its two ASCII cases. */
  function LowerAscii(c: char): char {
    if 'A' <= c <= 'Z' then (c as int + 32) as char else c
  }

  /** The lower-case word `w` occurs at `i`, ignoring case. */
  predicate WordAt(s: string, i: nat, w: string) {
    i + |w| <= |s| && forall k :: 0 <= k < |w| ==> LowerAscii(s[i + k]) == w[k]
  }

  /** One of `words` occurs at `i` and ends at `j`. */
  ghost predicate OneOfAt(s: string, i: nat, j: nat, words: seq<string>) {
    exists k :: 0 <= k < |words| && j == i + |words[k]| && WordAt(s, i, words[k])
  }

  /** The boundaries of the pattern's pieces within the text. */
  datatype Bounds = Bounds(
    verbEnd: nat,
    articleStart: nat, articleEnd: nat,
    nounStart: nat, nounEnd: nat,
    prepStart: nat, prepEnd: nat,
    subjectStart: nat, subjectEnd: nat)

  /** The pattern, piece by piece: `b` splits `s` the way the pattern reads it. */
  ghost predicate RegexMatch(s: string, b: Bounds) {
    && b.verbEnd < b.articleStart <= b.articleEnd <= b.nounStart < b.nounEnd
    && b.nounEnd < b.prepStart < b.prepEnd < b.subjectStart < b.subjectEnd <= |s|
    && OneOfAt(s, 0, b.verbEnd, Verbs)                                   // ^(create|generate|make|draw)
    && AllWhitespace(s, b.verbEnd, b.articleStart)                       // \s+
    && (b.articleEnd == b.articleStart
        || OneOfAt(s, b.articleStart, b.articleEnd, Articles))           // (an?|some)?
    && AllWhitespace(s, b.articleEnd, b.nounStart)                       // \s*
    && OneOfAt(s, b.nounStart, b.nounEnd, Nouns)                         // (image|...|painting)
    && AllWhitespace(s, b.nounEnd, b.prepStart)                          // \s+
    && OneOfAt(s, b.prepStart, b.prepEnd, Prepositions)                  // (of|about)
    && AllWhitespace(s, b.prepEnd, b.subjectStart)                       // \s+
    && NoLineTerminator(s, b.subjectStart, b.subjectEnd)                 // (.+)
  }

  /** The index of the first of `words[from..]` that occurs at `i`. */
  function FirstWordAt(s: string, i: nat, words: seq<string>, from: nat): (r: Option<nat>)
    requires from <= |words|
    ensures r.Some? ==> from <= r.value < |words| && WordAt(s, i, words[r.value])
    ensures r.Some? ==> forall k :: from <= k < r.value ==> !WordAt(s, i, words[k])
    ensures r.None? ==> forall k :: from <= k < |words| ==> !WordAt(s, i, words[k])
    decreases |words| - from
  {
    if from == |words| then None
    else if WordAt(s, i, words[from]) then Some(from)
    else FirstWordAt(s, i, words, from + 1)
  }

  /** The end of the first of `words` that occurs at `i`. */
  function WordEnd(s: string, i: nat, words: seq<string>): (r: Option<nat>)
    ensures r.Some? ==> OneOfAt(s, i, r.value, words) && r.value <= |s|
    ensures r.None? ==> forall j :: !OneOfAt(s, i, j, words)
  {
    match FirstWordAt(s, i, words, 0)
    case None => None
    case Some(k) => Some(i + |words[k]|)
  }

  /**
   * Where `.+` starts once `\s+` has backtracked as little as possible: the last
   * position in `lo + 1 .. j` that can open a non-empty line, if any.
   */
  function SubjectStart(s: string, lo: nat, j: nat): (r: Option<nat>)
    requires j <= |s|
    ensures r.Some? ==> lo < r.value <= j && r.value < |s| && !IsLineTerminator(s[r.value])
    ensures r.Some? ==> forall u :: r.value < u <= j && u < |s| ==> IsLineTerminator(s[u])
    ensures r.None? ==> forall u :: lo < u <= j && u < |s| ==> IsLineTerminator(s[u])
    decreases j
  {
    if j <= lo then None
    else if j < |s| && !IsLineTerminator(s[j]) then Some(j)
    else SubjectStart(s, lo, j - 1)
  }

  /** The hand-written matcher: the boundaries of the match, or None. */
  function MatchImageRequest(s: string): (r: Option<Bounds>)
    ensures r.Some? ==> RegexMatch(s, r.value)
    ensures r.Some? ==> r.value.subjectEnd == |s| || IsLineTerminator(s[r.value.subjectEnd])
  {
    match WordEnd(s, 0, Verbs)
    case None => None
    case Some(v) =>
      var w1 := SkipWhitespace(s, v);
      if w1 == v then None
      else
        var a := WordEnd(s, w1, Articles).GetOr(w1);
        var w2 := SkipWhitespace(s, a);
        match WordEnd(s, w2, Nouns)
        case None => None
        case Some(n) =>
          var w3 := SkipWhitespace(s, n);
          if w3 == n then None
          else
            match WordEnd(s, w3, Prepositions)
            case None => None
            case Some(p) =>
              var q := SkipWhitespace(s, p);
              match SubjectStart(s, p, q)
              case None => None
              case Some(t) =>
                Some(Bounds(v, w1, a, w2, n, w3, p, t, LineEnd(s, t)))
  }

  /** The fifth group of the pattern, untrimmed. */
  function ImageRequestSubject(s: string): (r: Option<string>)
    ensures r.Some? ==> r.value != [] && forall k :: 0 <= k < |r.value| ==> !IsLineTerminator(r.value[k])
  {
    match MatchImageRequest(s)
    case None => None
    case Some(b) => Some(s[b.subjectStart..b.subjectEnd])
  }

  /** The image prompt of a message: the trimmed subject of the trimmed text, when it matches. */
  function ImagePrompt(text: string): Option<string> {
    match ImageRequestSubject(Trim(text))
    case None => None
    case Some(g) => Some(Trim(g))
  }

  /** Two words that differ in their first two letters never occur at the same position. */
  lemma WordsExclusive(s: string, i: nat, x: string, y: string)
    requires |x| >= 1 && |y| >= 1
    requires x[0] != y[0] || (|x| >= 2 && |y| >= 2 && x[1] != y[1])
    ensures !(WordAt(s, i, x) && WordAt(s, i, y))
  {
  }

  /** Within each list but the articles, at most one word occurs at a position. */
  lemma WordEndUnique(s: string, i: nat, j: nat, words: seq<string>)
    requires words == Verbs || words == Nouns || words == Prepositions
    requires OneOfAt(s, i, j, words)
    ensures WordEnd(s, i, words) == Some(j)
  {
    var k :| 0 <= k < |words| && j == i + |words[k]| && WordAt(s, i, words[k]);
    var k0 := FirstWordAt(s, i, words, 0).value;
    if k0 != k {
      WordsExclusive(s, i, words[k0], words[k]);
    }
  }

  /** A word of any of the lists starts with a letter, never with white space. */
  lemma WordStartsWithLetter(s: string, i: nat, j: nat, words: seq<string>)
    requires words == Verbs || words == Articles || words == Nouns || words == Prepositions
    requires OneOfAt(s, i, j, words)
    ensures i < |s| && !IsWhitespace(s[i]) && 'a' <= LowerAscii(s[i]) <= 'z'
  {
    var k :| 0 <= k < |words| && j == i + |words[k]| && WordAt(s, i, words[k]);
    assert LowerAscii(s[i + 0]) == words[k][0];
  }

  /** A white-space run that ends before a non-blank character ends where `SkipWhitespace` stops. */
  lemma SkipWhitespaceAt(s: string, i: nat, j: nat)
    requires i <= j < |s| && AllWhitespace(s, i, j) && !IsWhitespace(s[j])
    ensures SkipWhitespace(s, i) == j
  {
  }

  lemma WordAtChar(s: string, i: nat, w: string, k: nat)
    requires WordAt(s, i, w) && k < |w|
    ensures LowerAscii(s[i + k]) == w[k]
  {
  }

  /** When the pattern reads the article "a", the next character is not an "n". */
  lemma NoNAfterArticleA(s: string, b: Bounds)
    requires RegexMatch(s, b) && b.articleEnd == b.articleStart + 1
    ensures b.articleStart + 1 < |s| && LowerAscii(s[b.articleStart + 1]) != 'n'
  {
    WordStartsWithLetter(s, b.nounStart, b.nounEnd, Nouns);
    var nk :| 0 <= nk < |Nouns| && b.nounEnd == b.nounStart + |Nouns[nk]| && WordAt(s, b.nounStart, Nouns[nk]);
    assert LowerAscii(s[b.nounStart + 0]) == Nouns[nk][0];
  }

  /** The pattern's noun starts with a letter no article starts with. */
  lemma NounLetter(s: string, b: Bounds)
    requires RegexMatch(s, b)
    ensures b.nounStart < |s| && LowerAscii(s[b.nounStart]) in {'i', 'p', 'd'}
  {
    var nk :| 0 <= nk < |Nouns| && b.nounEnd == b.nounStart + |Nouns[nk]| && WordAt(s, b.nounStart, Nouns[nk]);
    WordAtChar(s, b.nounStart, Nouns[nk], 0);
  }

  /** The position where the matcher's article step stops, relative to the pattern's noun. */
  ghost function ArticleStop(s: string, v: nat): nat
    requires v <= |s|
  {
    var w1 := SkipWhitespace(s, v);
    WordEnd(s, w1, Articles).GetOr(w1)
  }

  /** Without an article, the matcher reads none either and stops right at the noun. */
  lemma ArticleStopWithout(s: string, b: Bounds)
    requires RegexMatch(s, b) && b.articleEnd == b.articleStart
    ensures b.verbEnd <= |s| && ArticleStop(s, b.verbEnd) == b.nounStart
  {
    NounLetter(s, b);
    var w1 := SkipWhitespace(s, b.verbEnd);
    SkipWhitespaceAt(s, b.verbEnd, b.nounStart);
    var r := FirstWordAt(s, w1, Articles, 0);
    if r.Some? {
      WordAtChar(s, w1, Articles[r.value], 0);
    }
  }

  /** With an article, the matcher reads the same one ("an" before "a"). */
  lemma ArticleStopWith(s: string, b: Bounds)
    requires RegexMatch(s, b) && b.articleEnd != b.articleStart
    ensures b.verbEnd <= |s| && ArticleStop(s, b.verbEnd) == b.articleEnd
  {
    var w1 := SkipWhitespace(s, b.verbEnd);
    WordStartsWithLetter(s, b.articleStart, b.articleEnd, Articles);
    SkipWhitespaceAt(s, b.verbEnd, b.articleStart);
    var ak :| 0 <= ak < |Articles| && b.articleEnd == w1 + |Articles[ak]| && WordAt(s, w1, Articles[ak]);
    var k0 := FirstWordAt(s, w1, Articles, 0).value;
    if k0 == 0 && ak == 1 {
      // "an" occurs where the pattern read the article "a": its noun would have to start with "n".
      NoNAfterArticleA(s, b);
      WordAtChar(s, w1, "an", 1);
      assert false;
    } else if k0 != ak {
      WordsExclusive(s, w1, Articles[k0], Articles[ak]);
    }
  }

  /** The matcher's optional article and the white space after it end where the pattern's noun starts. */
  lemma NounStartFound(s: string, b: Bounds)
    requires RegexMatch(s, b)
    ensures b.verbEnd <= |s| && SkipWhitespace(s, ArticleStop(s, b.verbEnd)) == b.nounStart
  {
    if b.articleEnd == b.articleStart {
      ArticleStopWithout(s, b);
    } else {
      ArticleStopWith(s, b);
    }
    WordStartsWithLetter(s, b.nounStart, b.nounEnd, Nouns);
    SkipWhitespaceAt(s, ArticleStop(s, b.verbEnd), b.nounStart);
  }

  /** After `of`/`about`, the matcher finds a subject start no earlier than the pattern's. */
  lemma SubjectFound(s: string, b: Bounds)
    requires RegexMatch(s, b)
    ensures var t := SubjectStart(s, b.prepEnd, SkipWhitespace(s, b.prepEnd));
            t.Some? && b.subjectStart <= t.value
  {
    var p := b.prepEnd;
    var q := SkipWhitespace(s, p);
    assert b.subjectStart <= q;
    assert !IsLineTerminator(s[b.subjectStart]);
  }

  /**
   * Completeness: whenever the pattern admits a split of `s`, the matcher succeeds,
   * agrees on where `of`/`about` ends, and reports the subject the engine reports:
   * the one that starts last and, from there, runs longest.
   */
  lemma MatchComplete(s: string, b: Bounds)
    requires RegexMatch(s, b)
    ensures MatchImageRequest(s).Some?
    ensures MatchImageRequest(s).value.prepEnd == b.prepEnd
    ensures b.subjectStart <= MatchImageRequest(s).value.subjectStart
    ensures MatchImageRequest(s).value.subjectStart == b.subjectStart ==>
              b.subjectEnd <= MatchImageRequest(s).value.subjectEnd
  {
    WordEndUnique(s, 0, b.verbEnd, Verbs);
    NounStartFound(s, b);
    WordEndUnique(s, b.nounStart, b.nounEnd, Nouns);
    WordStartsWithLetter(s, b.prepStart, b.prepEnd, Prepositions);
    SkipWhitespaceAt(s, b.nounEnd, b.prepStart);
    WordEndUnique(s, b.prepStart, b.prepEnd, Prepositions);
    SubjectFound(s, b);
  }

  /** A message is an image request exactly when its trimmed text splits the way the pattern reads. */
  lemma ImagePromptIff(text: string)
    ensures ImagePrompt(text).Some? <==> exists b :: RegexMatch(Trim(text), b)
  {
    var s := Trim(text);
    if exists b :: RegexMatch(s, b) {
      var b :| RegexMatch(s, b);
      MatchComplete(s, b);
    }
  }

  /** A text with no white space at either end is its own trimmed form. */
  lemma TrimUnchanged(s: string)
    requires s != [] && !IsWhitespace(s[0]) && !IsWhitespace(s[|s| - 1])
    ensures Trim(s) == s
  {
    assert SkipWhitespace(s, 0) == 0;
    assert TrimmedEnd(s, |s|) == |s|;
    assert s[0..|s|] == s;
  }

  const RedFox := "create an image of a red fox"

  lemma RedFoxSplit()
    ensures RegexMatch(RedFox, Bounds(6, 7, 9, 10, 15, 16, 18, 19, 28))
  {
    RedFoxWords();
    RedFoxGaps();
  }

  /** The four words of the red-fox request, where the pattern reads them. */
  lemma RedFoxWords()
    ensures OneOfAt(RedFox, 0, 6, Verbs) && OneOfAt(RedFox, 7, 9, Articles)
    ensures OneOfAt(RedFox, 10, 15, Nouns) && OneOfAt(RedFox, 16, 18, Prepositions)
  {
    assert WordAt(RedFox, 0, Verbs[0]);
    assert WordAt(RedFox, 7, Articles[0]);
    assert WordAt(RedFox, 10, Nouns[0]);
    assert WordAt(RedFox, 16, Prepositions[0]);
  }

  /** The single spaces between those words, and a subject with no line break. */
  lemma RedFoxGaps()
    ensures AllWhitespace(RedFox, 6, 7) && AllWhitespace(RedFox, 9, 10)
    ensures AllWhitespace(RedFox, 15, 16) && AllWhitespace(RedFox, 18, 19)
    ensures NoLineTerminator(RedFox, 19, 28)
  {
    assert RedFox[6] == RedFox[9] == RedFox[15] == RedFox[18] == ' ';
  }

  /**
   * A trimmed text whose pattern subject starts at a non-blank character and runs to
   * the end prompts for exactly that subject, trimmed.
   */
  lemma PromptOfSplit(s: string, b: Bounds)
    requires Trim(s) == s && RegexMatch(s, b)
    requires !IsWhitespace(s[b.subjectStart]) && b.subjectEnd == |s|
    ensures ImagePrompt(s) == Some(Trim(s[b.subjectStart..]))
  {
    MatchComplete(s, b);
    assert s[b.subjectStart..b.subjectEnd] == s[b.subjectStart..];
  }

  /** "create an image of a red fox" asks for an image of "a red fox". */
  lemma RedFoxIsImageRequest()
    ensures ImagePrompt(RedFox) == Some("a red fox")
  {
    TrimUnchanged(RedFox);
    RedFoxSplit();
    PromptOfSplit(RedFox, Bounds(6, 7, 9, 10, 15, 16, 18, 19, 28));
    assert RedFox[19..] == "a red fox";
    TrimUnchanged("a red fox");
  }

  /** "tell me about foxes" is an ordinary chat message. */
  lemma FoxQuestionIsNotImageRequest()
    ensures ImagePrompt("tell me about foxes") == None
  {
    var s := "tell me about foxes";
    TrimUnchanged(s);
    var r := FirstWordAt(s, 0, Verbs, 0);
    if r.Some? {
      WordAtChar(s, 0, Verbs[r.value], 0);
    }
  }
}
