/** The customer-name normaliser `preprocess_name`, a chain of regular-expression
    substitutions. Character classes follow Python's `re` and `str` on ASCII text. */
module NameNormalizer {
  import opened Wrappers
  import opened Ids

  predicate IsUpper(c: char) { 'A' <= c <= 'Z' }

  predicate IsLower(c: char) { 'a' <= c <= 'z' }

  /** A regular-expression word character: letter, digit or underscore. */
  predicate IsWordChar(c: char) { IsUpper(c) || IsLower(c) || IsDigit(c) || c == '_' }

  /** Regex `\s` and `str.isspace` on ASCII: space, \t \n \v \f \r and the
      separators 0x1C-0x1F. */
  predicate IsSpace(c: char) {
    c == ' ' || (9 <= c as int <= 13) || (28 <= c as int <= 31)
  }

  /** `str.lower` on one character. */
  function Lower(c: char): (r: char)
    ensures !IsUpper(r)
    ensures IsUpper(c) ==> IsLower(r) && r as int == c as int + 32
    ensures !IsUpper(c) ==> r == c
  {
    if IsUpper(c) then (c as int + 32) as char else c
  }

  function LowerString(s: string): (r: string)
    ensures |r| == |s|
    ensures forall k :: 0 <= k < |s| ==> r[k] == Lower(s[k])
  {
    if s == [] then [] else [Lower(s[0])] + LowerString(s[1..])
  }

  /** An alternative of a pattern, written as in the source's regular expression.
      The only metacharacter any of them uses is `.` (any character except a
      newline): `m/s`, `&` and the letters stand for themselves. */
  type Pattern = string

  /** Matching one pattern character under `re.IGNORECASE`. */
  predicate CharMatches(p: char, c: char) {
    if p == '.' then c != '\n' else Lower(p) == Lower(c)
  }

  /** Regex `\b` at position `i` of `s`: exactly one side is a word character. */
  predicate IsBoundary(s: string, i: nat)
    requires i <= |s|
  {
    (i > 0 && IsWordChar(s[i - 1])) != (i < |s| && IsWordChar(s[i]))
  }

  /** The alternative `p` matches the characters of `s` starting at `i`. */
  predicate MatchesAt(s: string, i: nat, p: Pattern, k: nat := 0)
    requires i <= |s|
    decreases |p| - k
  {
    k >= |p| || (i + k < |s| && CharMatches(p[k], s[i + k]) && MatchesAt(s, i, p, k + 1))
  }

  /** `\b` p `\b` matches at `i`. */
  predicate WordAt(s: string, i: nat, p: Pattern)
    requires i <= |s|
  {
    IsBoundary(s, i) && MatchesAt(s, i, p) && i + |p| <= |s| && IsBoundary(s, i + |p|)
  }

  /** The length matched by the first alternative (in order) of `\b(a1|a2|...)\b`
      that matches at `i`, as the backtracking regex engine tries them, starting
      with alternative `k`. Every alternative of the normaliser is non-empty; an
      empty one is never tried. */
  function FirstAlternative(s: string, i: nat, alts: seq<Pattern>, k: nat := 0): Option<nat>
    requires i <= |s|
    decreases |alts| - k
  {
    if k >= |alts| || !IsBoundary(s, i) then None
    else if |alts[k]| > 0 && WordAt(s, i, alts[k]) then Some(|alts[k]|)
    else FirstAlternative(s, i, alts, k + 1)
  }

  /** An alternative whose first character differs from `s[i]` is passed over. */
  lemma FirstAlternativeSkip(s: string, i: nat, alts: seq<Pattern>, k: nat)
    requires i < |s| && k < |alts| && |alts[k]| > 0 && !CharMatches(alts[k][0], s[i])
    ensures FirstAlternative(s, i, alts, k) == FirstAlternative(s, i, alts, k + 1)
  {
  }

  /** At a word boundary, an alternative that matches as a whole word is taken. */
  lemma FirstAlternativeHit(s: string, i: nat, alts: seq<Pattern>, k: nat)
    requires i <= |s| && k < |alts| && |alts[k]| > 0 && WordAt(s, i, alts[k])
    ensures FirstAlternative(s, i, alts, k) == Some(|alts[k]|)
  {
  }

  /** A match is the earliest-listed non-empty alternative that matches as a whole
      word; no match means no non-empty alternative does. */
  lemma {:induction false} FirstAlternativeSpec(s: string, i: nat, alts: seq<Pattern>, k: nat)
    requires i <= |s|
    ensures FirstAlternative(s, i, alts, k).Some? ==>
              exists a :: k <= a < |alts| && |alts[a]| == FirstAlternative(s, i, alts, k).value > 0
                          && WordAt(s, i, alts[a])
                          && forall b :: k <= b < a && |alts[b]| > 0 ==> !WordAt(s, i, alts[b])
    ensures FirstAlternative(s, i, alts, k).None? <==>
              forall a :: k <= a < |alts| && |alts[a]| > 0 ==> !WordAt(s, i, alts[a])
    decreases |alts| - k
  {
    if k >= |alts| || !IsBoundary(s, i) {
    } else if |alts[k]| > 0 && WordAt(s, i, alts[k]) {
    } else {
      FirstAlternativeSpec(s, i, alts, k + 1);
    }
  }

  lemma {:induction false} FirstAlternativeInBounds(s: string, i: nat, alts: seq<Pattern>, k: nat)
    requires i <= |s|
    requires FirstAlternative(s, i, alts, k).Some?
    ensures 0 < FirstAlternative(s, i, alts, k).value <= |s| - i
    decreases |alts| - k
  {
    if !(|alts[k]| > 0 && WordAt(s, i, alts[k])) {
      FirstAlternativeInBounds(s, i, alts, k + 1);
    }
  }

  /** Case-insensitive replacement of every whole-word occurrence of any of `alts`
      by `repl`, scanning from `i`, where word boundaries are judged on the whole of `s`. Matches are found
      left to right and do not overlap. */
  function SubWords(s: string, alts: seq<Pattern>, repl: string, i: nat): string
    requires i <= |s|
    decreases |s| - i
  {
    if i == |s| then ""
    else if FirstAlternative(s, i, alts).None? then [s[i]] + SubWords(s, alts, repl, i + 1)
    else if 0 < FirstAlternative(s, i, alts).value <= |s| - i then
      repl + SubWords(s, alts, repl, i + FirstAlternative(s, i, alts).value)
    else
      FirstAlternativeInBounds(s, i, alts, 0);
      assert false; ""
  }

  /** A substitution only keeps characters of its input and of the replacement. */
  lemma {:induction false} SubWordsChars(s: string, alts: seq<Pattern>, repl: string, i: nat)
    requires i <= |s|
    ensures forall c :: c in SubWords(s, alts, repl, i) ==> c in s[i..] || c in repl
    decreases |s| - i
  {
    if i < |s| {
      var m := FirstAlternative(s, i, alts);
      if m.None? {
        SubWordsChars(s, alts, repl, i + 1);
        assert forall c :: c in s[i + 1..] ==> c in s[i..];
      } else {
        FirstAlternativeInBounds(s, i, alts, 0);
        SubWordsChars(s, alts, repl, i + m.value);
        assert forall c :: c in s[i + m.value..] ==> c in s[i..];
      }
    }
  }

  /** The legal-entity and honorific alternatives of the first substitution, in
      the source's order; the dots of `P.L.C.` are unescaped wildcards. */
  const EntityAlternatives: seq<Pattern> := [
    "Mr", "Ms", "Ltd", "LLP", "Pvt", "Private", "Limited", "LLC", "LTD", "Llp", "ltd",
    "lp", "PLLP", "Pllp", "P.L.C.", "ms", "m/s", "pvtltd"
  ]

  const ConjunctionAlternatives: seq<Pattern> := ["and", "AND", "And", "&"]

  /** `words_to_omit`, removed one after another. */
  const WordsToOmit: seq<string> := [
    "industry", "industries", "corp", "corporation", "inc", "incorporated", "foundation",
    "company", "co", "limited", "ltd", "pvt", "llc", "llp", "and", "pvtltd", "&", "m/s", "ms"
  ]

  /** No non-empty alternative of `alts` matches as a whole word at a position
      from `i` up to `j` of `s`. */
  predicate NoWordBetween(s: string, alts: seq<Pattern>, i: nat, j: nat)
    requires j <= |s|
  {
    forall p, a :: i <= p < j && 0 <= a < |alts| && |alts[a]| > 0 ==> !WordAt(s, p, alts[a])
  }

  /** Nothing matches at a position where no alternative's first character does. */
  lemma NoWordAtByFirstChar(s: string, p: nat, alts: seq<Pattern>)
    requires p < |s|
    requires forall a :: 0 <= a < |alts| && |alts[a]| > 0 ==> !CharMatches(alts[a][0], s[p])
    ensures NoWordBetween(s, alts, p, p + 1)
  {
  }

  /** Nothing matches inside a word or a run of non-word characters: `\b` fails. */
  lemma NoWordInside(s: string, i: nat, j: nat, alts: seq<Pattern>)
    requires i <= j <= |s|
    requires forall p :: i <= p < j ==> !IsBoundary(s, p)
    ensures NoWordBetween(s, alts, i, j)
  {
  }

  lemma NoWordBetweenJoin(s: string, alts: seq<Pattern>, i: nat, j: nat, k: nat)
    requires i <= j <= k <= |s|
    requires NoWordBetween(s, alts, i, j) && NoWordBetween(s, alts, j, k)
    ensures NoWordBetween(s, alts, i, k)
  {
  }

  /** Where an alternative matches as a word, a substitution puts the replacement
      in its place and goes on after it. */
  lemma SubWordsAtMatch(s: string, alts: seq<Pattern>, repl: string, i: nat, n: nat)
    requires i < |s| && FirstAlternative(s, i, alts) == Some(n)
    ensures i + n <= |s| && SubWords(s, alts, repl, i) == repl + SubWords(s, alts, repl, i + n)
  {
    FirstAlternativeInBounds(s, i, alts, 0);
  }

  /** Where no alternative matches as a word, a substitution copies its input:
      scanning from `i` up to `j` contributes `s[i..j]` unchanged. */
  lemma {:induction false} SubWordsSkip(s: string, alts: seq<Pattern>, repl: string, i: nat, j: nat)
    requires i <= j <= |s|
    requires NoWordBetween(s, alts, i, j)
    ensures SubWords(s, alts, repl, i) == s[i..j] + SubWords(s, alts, repl, j)
    decreases j - i
  {
    if i < j {
      FirstAlternativeSpec(s, i, alts, 0);
      SubWordsSkip(s, alts, repl, i + 1, j);
      assert s[i..j] == [s[i]] + s[i + 1..j];
    }
  }

  /** Every full stop and comma removed. */
  function DropPunctuation(s: string): string {
    if s == [] then []
    else if s[0] == '.' || s[0] == ',' then DropPunctuation(s[1..])
    else [s[0]] + DropPunctuation(s[1..])
  }

  lemma {:induction false} DropPunctuationChars(s: string)
    ensures '.' !in DropPunctuation(s) && ',' !in DropPunctuation(s)
    ensures forall c :: c in DropPunctuation(s) ==> c in s
  {
    if s != [] {
      DropPunctuationChars(s[1..]);
    }
  }

  /** Text without `.` or `,` passes the punctuation filter unchanged. */
  lemma {:induction false} DropPunctuationKeeps(s: string)
    requires '.' !in s && ',' !in s
    ensures DropPunctuation(s) == s
  {
    if s != [] {
      assert s == [s[0]] + s[1..];
      DropPunctuationKeeps(s[1..]);
    }
  }

  /** The punctuation filter works character by character, so it splits over a
      concatenation. */
  lemma {:induction false} DropPunctuationAppend(a: string, b: string)
    ensures DropPunctuation(a + b) == DropPunctuation(a) + DropPunctuation(b)
  {
    if a != [] {
      assert (a + b)[0] == a[0] && (a + b)[1..] == a[1..] + b;
      DropPunctuationAppend(a[1..], b);
    } else {
      assert a + b == b;
    }
  }

  /** Each word of `words[k..]` in turn deleted wherever it occurs as a whole word,
      ignoring case. */
  function OmitWords(s: string, words: seq<string>, k: nat := 0): string
    decreases |words| - k
  {
    if k >= |words| then s
    else OmitWords(SubWords(s, [words[k]], "", 0), words, k + 1)
  }

  lemma {:induction false} OmitWordsChars(s: string, words: seq<string>, k: nat)
    ensures forall c :: c in OmitWords(s, words, k) ==> c in s
    decreases |words| - k
  {
    if k < |words| {
      var once := SubWords(s, [words[k]], "", 0);
      SubWordsChars(s, [words[k]], "", 0);
      assert s[0..] == s;
      OmitWordsChars(once, words, k + 1);
    }
  }

  /** Words that match nowhere in `s` leave it as it is. */
  lemma {:induction false} OmitWordsSkip(s: string, words: seq<string>, k: nat, m: nat)
    requires k <= m <= |words|
    requires forall p, a :: 0 <= p < |s| && k <= a < m && |words[a]| > 0 ==> !WordAt(s, p, words[a])
    ensures OmitWords(s, words, k) == OmitWords(s, words, m)
    decreases m - k
  {
    if k < m {
      assert forall p, a :: 0 <= p < |s| && 0 <= a < 1 && |[words[k]][a]| > 0 ==> !WordAt(s, p, [words[k]][a]);
      SubWordsSkip(s, [words[k]], "", 0, |s|);
      assert SubWords(s, [words[k]], "", 0) == s[0..|s|] + "" == s;
      OmitWordsSkip(s, words, k + 1, m);
    }
  }

  /** Every whitespace character removed and the rest lower-cased. */
  function SquashAndLower(s: string): string {
    if s == [] then []
    else if IsSpace(s[0]) then SquashAndLower(s[1..])
    else [Lower(s[0])] + SquashAndLower(s[1..])
  }

  /** The squashed text holds exactly the lower-cased non-space characters of the
      input: nothing else, and none of them lost. */
  lemma {:induction false} SquashAndLowerChars(s: string)
    ensures forall c :: c in SquashAndLower(s) ==> !IsSpace(c) && !IsUpper(c)
    ensures forall c :: c in SquashAndLower(s) ==> exists d :: d in s && c == Lower(d)
    ensures forall d :: d in s && !IsSpace(d) ==> Lower(d) in SquashAndLower(s)
  {
    if s != [] {
      SquashAndLowerChars(s[1..]);
      assert forall d :: d in s ==> d == s[0] || d in s[1..];
    }
  }

  /** Text without whitespace or capitals is already squashed. */
  lemma {:induction false} SquashAndLowerKeeps(s: string)
    requires forall c :: c in s ==> !IsSpace(c) && !IsUpper(c)
    ensures SquashAndLower(s) == s
  {
    if s != [] {
      assert s == [s[0]] + s[1..];
      SquashAndLowerKeeps(s[1..]);
    }
  }

  /** Squashing works character by character, so it splits over a concatenation. */
  lemma {:induction false} SquashAndLowerAppend(a: string, b: string)
    ensures SquashAndLower(a + b) == SquashAndLower(a) + SquashAndLower(b)
  {
    if a != [] {
      assert (a + b)[0] == a[0] && (a + b)[1..] == a[1..] + b;
      SquashAndLowerAppend(a[1..], b);
    } else {
      assert a + b == b;
    }
  }

  /** `preprocess_name`; `None` stands for a missing cell. */
  function PreprocessName(name: Option<string>): string {
    match name
    case None => ""
    case Some(raw) =>
      var s1 := SubWords(raw, EntityAlternatives, "", 0);
      var s2 := SubWords(s1, ConjunctionAlternatives, "and", 0);
      var s3 := DropPunctuation(s2);
      var s4 := OmitWords(s3, WordsToOmit);
      SquashAndLower(s4)
  }

  /** The key is empty for a missing cell; otherwise it holds no whitespace, no
      `.` or `,`, and no upper-case letter. */
  lemma PreprocessNameShape(name: Option<string>)
    ensures name.None? ==> PreprocessName(name) == ""
    ensures forall c :: c in PreprocessName(name) ==>
              !IsSpace(c) && !IsUpper(c) && c != '.' && c != ','
  {
    if name.Some? {
      var s1 := SubWords(name.value, EntityAlternatives, "", 0);
      var s2 := SubWords(s1, ConjunctionAlternatives, "and", 0);
      var s3 := DropPunctuation(s2);
      var s4 := OmitWords(s3, WordsToOmit);
      DropPunctuationChars(s2);
      OmitWordsChars(s3, WordsToOmit, 0);
      SquashAndLowerChars(s4);
    }
  }

  /** No non-empty alternative of `alts` matches as a whole word anywhere in `s`. */
  predicate NoWordOf(s: string, alts: seq<Pattern>) {
    NoWordBetween(s, alts, 0, |s|)
  }

  /** Once the entity pass has run, a name in which no conjunction occurs goes
      straight to the punctuation, omitted-word and whitespace passes. */
  lemma PreprocessNameAfterEntities(raw: string, s1: string, s3: string, s4: string)
    requires SubWords(raw, EntityAlternatives, "", 0) == s1
    requires NoWordOf(s1, ConjunctionAlternatives)
    requires DropPunctuation(s1) == s3
    requires OmitWords(s3, WordsToOmit) == s4
    ensures PreprocessName(Some(raw)) == SquashAndLower(s4)
  {
    SubWordsSkip(s1, ConjunctionAlternatives, "and", 0, |s1|);
    assert s1[0..|s1|] + "" == s1;
  }



}
