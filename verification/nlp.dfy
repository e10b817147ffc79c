/** The journal text signal extractor (`server/services/nlp.ts`): the analysed text of
    an entry, and the keyword, theme and skill lists derived from it. */
module Nlp {
  import opened Optional
  import opened Seqs
  import opened Text
  import opened Schema

  /** The text an entry is analysed on: the three answers, null read as empty, joined
      with single spaces and lower-cased. */
  function FullText(entry: JournalEntry): (r: string)
    ensures r == Lower(entry.enjoyed.GetOr("")) + " " + Lower(entry.challenges.GetOr(""))
                 + " " + Lower(entry.learned.GetOr(""))
    ensures forall i :: 0 <= i < |r| ==> !IsUpper(r[i])
  {
    var a := entry.enjoyed.GetOr("");
    var b := entry.challenges.GetOr("");
    var c := entry.learned.GetOr("");
    var joined := a + " " + b + " " + c;
    var r := Lower(joined);
    assert r == Lower(a) + " " + Lower(b) + " " + Lower(c);
    r
  }

  // ---------------------------------------------------------------------------
  // Keywords

  const StopWords: set<string> := {
    "a", "an", "and", "are", "as", "at", "be", "by", "for", "from",
    "has", "he", "in", "is", "it", "its", "of", "on", "that", "the",
    "to", "was", "were", "will", "with", "i", "me", "my", "myself",
    "we", "us", "our", "you", "your", "have", "had", "do", "does",
    "did", "can", "could", "should", "would", "may", "might"
  }

  const MaxKeywords := 10

  /** `text.replace(/[^\w\s]/g, '')`: drops every character that is neither a word
      character nor whitespace, keeping the rest in order. */
  function StripPunctuation(text: string): (r: string)
    ensures forall i :: 0 <= i < |r| ==> IsWordChar(r[i]) || IsSpace(r[i])
    ensures IsSubseq(r, text)
    ensures (forall i :: 0 <= i < |text| ==> IsWordChar(text[i]) || IsSpace(text[i])) ==> r == text
    ensures forall c :: multiset(r)[c] == if IsWordChar(c) || IsSpace(c) then multiset(text)[c] else 0
  {
    if |text| == 0 then ""
    else
      var first := text[0];
      var rest := StripPunctuation(text[1..]);
      assert text == [first] + text[1..];
      assert multiset(text) == multiset{first} + multiset(text[1..]);
      if IsWordChar(first) || IsSpace(first) then
        var r := [first] + rest;
        assert r[1..] == rest;
        assert multiset(r) == multiset{first} + multiset(rest);
        r
      else
        rest
  }

  /** `split(/\s+/)`, up to empty fields: splitting on every whitespace character yields
      the same non-empty fields in the same order, and the empty ones are dropped by the
      length filter that follows. */
  function Tokens(text: string): (r: seq<string>)
    ensures forall w :: w in r ==> forall i :: 0 <= i < |w| ==> IsWordChar(w[i])
  {
    var s := StripPunctuation(text);
    SplitKeepsCharacters(s, IsSpace, c => IsWordChar(c) || IsSpace(c));
    Split(s, IsSpace)
  }

  predicate Qualifies(word: string) {
    |word| > 3 && word !in StopWords
  }

  /** `filter(word => word.length > 3 && !stopWords.has(word))`. */
  function Qualifying(words: seq<string>): (r: seq<string>)
    ensures forall w :: w in r ==> Qualifies(w) && w in words
    ensures IsSubseq(r, words)
  {
    if |words| == 0 then []
    else
      var rest := Qualifying(words[1..]);
      if Qualifies(words[0]) then
        var r := [words[0]] + rest;
        assert r[1..] == rest;
        r
      else rest
  }

  /** The first `n` elements of `xs` (`slice(0, n)`). */
  function Take<T>(xs: seq<T>, n: nat): (r: seq<T>)
    ensures |r| == if |xs| < n then |xs| else n
    ensures r == xs[..|r|]
  {
    if |xs| <= n then xs else xs[..n]
  }

  /** `.filter(...).slice(0, 10)` and `Array.from(new Set(...))` on the token list: the
      first ten qualifying tokens, deduplicated. */
  function SelectKeywords(tokens: seq<string>): (r: seq<string>)
    ensures |r| <= MaxKeywords
    ensures NoDups(r)
    ensures forall w :: w in r ==> Qualifies(w) && w in tokens
    ensures forall w :: w in r <==> w in Take(Qualifying(tokens), MaxKeywords)
  {
    var words := Take(Qualifying(tokens), MaxKeywords);
    assert forall w :: w in words ==> w in Qualifying(tokens);
    Dedup(words)
  }

  /** `extractKeywords` */
  function ExtractKeywords(text: string): (r: seq<string>)
    ensures |r| <= MaxKeywords
    ensures NoDups(r)
    ensures forall w :: w in r ==> Qualifies(w) && w in Tokens(text)
    ensures forall w :: w in r ==> forall i :: 0 <= i < |w| ==> IsWordChar(w[i])
    ensures forall w :: w in r <==> w in Take(Qualifying(Tokens(text)), MaxKeywords)
  {
    SelectKeywords(Tokens(text))
  }

  /** The limit applies before deduplication: ten repetitions of one word crowd out every
      later word, so the result is that one word, not the first ten distinct words. */
  lemma KeywordsLimitBeforeDedup(w: string, later: seq<string>)
    requires Qualifies(w)
    ensures SelectKeywords(seq(10, _ => w) + later) == [w]
  {
    var first := seq(10, _ => w);
    assert forall x :: x in first ==> x == w;
    QualifyingKeepsAll(first);
    QualifyingConcat(first, later);
    assert Take(first + Qualifying(later), MaxKeywords) == first;
    DedupConstant(first, w);
  }

  /** The filter keeps every occurrence of a qualifying token and drops every other
      token: each token occurs in the result as often as in the input if it qualifies,
      and not at all otherwise. */
  lemma {:induction false} QualifyingCounts(words: seq<string>)
    ensures forall w :: multiset(Qualifying(words))[w] == if Qualifies(w) then multiset(words)[w] else 0
  {
    if |words| > 0 {
      QualifyingCounts(words[1..]);
      assert words == [words[0]] + words[1..];
      QualifyingCons(words[0], words[1..]);
    }
  }

  lemma {:induction false} QualifyingConcat(a: seq<string>, b: seq<string>)
    ensures Qualifying(a + b) == Qualifying(a) + Qualifying(b)
  {
    if |a| == 0 {
      assert a + b == b;
    } else {
      var head := if Qualifies(a[0]) then [a[0]] else [];
      assert a == [a[0]] + a[1..];
      assert a + b == [a[0]] + (a[1..] + b);
      QualifyingCons(a[0], a[1..]);
      QualifyingCons(a[0], a[1..] + b);
      QualifyingConcat(a[1..], b);
      assert head + (Qualifying(a[1..]) + Qualifying(b)) == (head + Qualifying(a[1..])) + Qualifying(b);
    }
  }

  /** The filter looks at the first token, then at the rest. */
  lemma QualifyingCons(x: string, rest: seq<string>)
    ensures Qualifying([x] + rest) == (if Qualifies(x) then [x] else []) + Qualifying(rest)
  {
    assert ([x] + rest)[0] == x && ([x] + rest)[1..] == rest;
  }

  lemma {:induction false} QualifyingKeepsAll(words: seq<string>)
    requires forall w :: w in words ==> Qualifies(w)
    ensures Qualifying(words) == words
  {
    if |words| > 0 {
      QualifyingKeepsAll(words[1..]);
    }
  }

  lemma {:induction false} QualifyingDropsShort(words: seq<string>)
    requires forall w :: w in words ==> |w| <= 3
    ensures Qualifying(words) == []
  {
    if |words| > 0 {
      QualifyingDropsShort(words[1..]);
    }
  }

  /** Keywords come out in the order the words first appear among the ten kept. */
  lemma KeywordsFirstOccurrenceOrder(text: string)
    ensures var words := Take(Qualifying(Tokens(text)), MaxKeywords);
            var r := ExtractKeywords(text);
            forall i, j :: 0 <= i < j < |r| ==> FirstIndex(words, r[i]) < FirstIndex(words, r[j])
  {
    DedupFirstOccurrenceOrder(Take(Qualifying(Tokens(text)), MaxKeywords));
  }

  /** Whitespace-only text has no keywords: every token is empty. */
  lemma BlankTextNoKeywords(text: string)
    requires IsBlank(text)
    ensures ExtractKeywords(text) == []
  {
    assert StripPunctuation(text) == text;
    SplitOfSeparators(text, IsSpace);
    QualifyingDropsShort(Tokens(text));
  }

  // ---------------------------------------------------------------------------
  // Themes and skills

  /** A trigger word of a pattern: non-empty, starting with a letter, and lower-case. */
  type Trigger = t: string | |t| > 0 && IsLowerLetter(t[0]) && forall i :: 0 <= i < |t| ==> !IsUpper(t[i])
    witness "a"

  /** A labelled matcher: a case-insensitive alternation of lower-case literal triggers. */
  datatype Pattern = Pattern(name: string, triggers: seq<Trigger>)

  function Names(table: seq<Pattern>): (r: seq<string>)
    ensures |r| == |table|
    ensures forall k :: 0 <= k < |table| ==> r[k] == table[k].name
  {
    if |table| == 0 then [] else [table[0].name] + Names(table[1..])
  }

  /** The rows `{ name, pattern }` of a pattern table, from its names and trigger lists. */
  function Table(names: seq<string>, triggers: seq<seq<Trigger>>): (r: seq<Pattern>)
    requires |names| == |triggers|
    ensures Names(r) == names
    ensures forall k :: 0 <= k < |r| ==> r[k].triggers == triggers[k]
  {
    seq(|names|, k requires 0 <= k < |names| => Pattern(names[k], triggers[k]))
  }

  // The two tables of `server/services/nlp.ts`, in source order: row names, then the
  // trigger words of each row's pattern.

  const ThemeNames: seq<string> := ["creativity", "technology", "leadership", "helping",
    "problem_solving", "communication", "learning", "collaboration"]

  const SkillNames: seq<string> := ["programming", "design", "writing", "analysis", "presentation",
    "project_management", "customer_service", "sales", "teaching", "leadership"]

  const CreativityThemeTriggers: seq<Trigger> := ["creat", "design", "art", "draw", "paint", "music", "write", "imagination"]
  const TechnologyThemeTriggers: seq<Trigger> := ["code", "program", "computer", "tech", "digital", "software", "app", "web"]
  const LeadershipThemeTriggers: seq<Trigger> := ["lead", "manage", "organize", "team", "group", "direct", "coordinate"]
  const HelpingThemeTriggers: seq<Trigger> := ["help", "assist", "support", "care", "volunteer", "community", "service"]
  const ProblemSolvingThemeTriggers: seq<Trigger> := ["solve", "fix", "challenge", "puzzle", "analyze", "think", "logic"]
  const CommunicationThemeTriggers: seq<Trigger> := ["talk", "speak", "present", "explain", "teach", "share", "discuss"]
  const LearningThemeTriggers: seq<Trigger> := ["learn", "study", "research", "discover", "explore", "understand"]
  const CollaborationThemeTriggers: seq<Trigger> := ["team", "group", "together", "cooperate", "work with", "collaborate"]

  const ThemeTriggers: seq<seq<Trigger>> := [
    CreativityThemeTriggers,
    TechnologyThemeTriggers,
    LeadershipThemeTriggers,
    HelpingThemeTriggers,
    ProblemSolvingThemeTriggers,
    CommunicationThemeTriggers,
    LearningThemeTriggers,
    CollaborationThemeTriggers
  ]

  const ThemePatterns: seq<Pattern> := Table(ThemeNames, ThemeTriggers)

  const ProgrammingSkillTriggers: seq<Trigger> := ["code", "program", "javascript", "python", "html", "css", "react", "node"]
  const DesignSkillTriggers: seq<Trigger> := ["design", "photoshop", "illustrator", "figma", "sketch", "ui", "ux"]
  const WritingSkillTriggers: seq<Trigger> := ["write", "blog", "article", "story", "content", "copy"]
  const AnalysisSkillTriggers: seq<Trigger> := ["analyze", "data", "research", "investigate", "examine"]
  const PresentationSkillTriggers: seq<Trigger> := ["present", "speak", "pitch", "demonstrate", "show"]
  const ProjectManagementSkillTriggers: seq<Trigger> := ["organize", "plan", "schedule", "coordinate", "manage"]
  const CustomerServiceSkillTriggers: seq<Trigger> := ["customer", "client", "service", "support", "help"]
  const SalesSkillTriggers: seq<Trigger> := ["sell", "sales", "market", "promote", "advertise"]
  const TeachingSkillTriggers: seq<Trigger> := ["teach", "tutor", "mentor", "explain", "instruct"]
  const LeadershipSkillTriggers: seq<Trigger> := ["lead", "manage", "supervise", "direct", "guide"]

  const SkillTriggers: seq<seq<Trigger>> := [
    ProgrammingSkillTriggers,
    DesignSkillTriggers,
    WritingSkillTriggers,
    AnalysisSkillTriggers,
    PresentationSkillTriggers,
    ProjectManagementSkillTriggers,
    CustomerServiceSkillTriggers,
    SalesSkillTriggers,
    TeachingSkillTriggers,
    LeadershipSkillTriggers
  ]

  const SkillPatterns: seq<Pattern> := Table(SkillNames, SkillTriggers)

  /** No two theme names are equal: they differ in length or in an early character. */
  lemma ThemeNamesDistinct()
    ensures NoDups(ThemeNames)
  {
    forall i, j | 0 <= i < j < |ThemeNames| ensures ThemeNames[i] != ThemeNames[j] {
      assert |ThemeNames[i]| != |ThemeNames[j]| || ThemeNames[i][2] != ThemeNames[j][2];
    }
  }

  /** No two skill names are equal: they differ in length or in their first character. */
  lemma SkillNamesDistinct()
    ensures NoDups(SkillNames)
  {
    forall i, j | 0 <= i < j < |SkillNames| ensures SkillNames[i] != SkillNames[j] {
      assert |SkillNames[i]| != |SkillNames[j]| || SkillNames[i][0] != SkillNames[j][0];
    }
  }

  lemma TableNamesDistinct()
    ensures NoDups(Names(ThemePatterns))
    ensures NoDups(Names(SkillPatterns))
  {
    ThemeNamesDistinct();
    SkillNamesDistinct();
  }

  /** `pattern.test(text)` for a case-insensitive alternation of lower-case literals: the
      triggers are lower-case ASCII, so on the lower-cased text it is a substring test. */
  predicate AnyTriggerIn(text: string, triggers: seq<string>) {
    exists t :: t in triggers && Contains(text, t)
  }

  /** `table` has a row named `n` whose pattern accepts `text`. */
  ghost predicate Hit(table: seq<Pattern>, text: string, n: string) {
    exists p :: p in table && p.name == n && AnyTriggerIn(Lower(text), p.triggers)
  }

  /** The specification of a match: some trigger occurs in the lower-cased text. */
  ghost predicate Matches(p: Pattern, text: string) {
    exists t, i :: t in p.triggers && OccursAt(Lower(text), t, i)
  }

  /** `for (const [name, pattern] of Object.entries(table)) if (pattern.test(text)) out.push(name)`. */
  function Tag(table: seq<Pattern>, text: string): (r: seq<string>)
    ensures IsSubseq(r, Names(table))
    ensures forall n :: n in r <==> Hit(table, text, n)
  {
    if |table| == 0 then []
    else
      var rest := Tag(table[1..], text);
      assert table == [table[0]] + table[1..];
      assert Names(table) == [table[0].name] + Names(table[1..]);
      if AnyTriggerIn(Lower(text), table[0].triggers) then
        var r := [table[0].name] + rest;
        assert r[1..] == rest;
        r
      else
        SubseqCons(rest, Names(table[1..]), table[0].name);
        rest
  }

  /** `extractThemes`: theme names of the table, each at most once, in table order. */
  function ExtractThemes(text: string): (r: seq<string>)
    ensures IsSubseq(r, ThemeNames) && NoDups(r)
  {
    TableNamesDistinct();
    SubseqNoDups(Tag(ThemePatterns, text), Names(ThemePatterns));
    Tag(ThemePatterns, text)
  }

  /** `extractSkills`: skill names of the table, each at most once, in table order. */
  function ExtractSkills(text: string): (r: seq<string>)
    ensures IsSubseq(r, SkillNames) && NoDups(r)
  {
    TableNamesDistinct();
    SubseqNoDups(Tag(SkillPatterns, text), Names(SkillPatterns));
    Tag(SkillPatterns, text)
  }

  lemma AnyTriggerInIff(text: string, triggers: seq<string>)
    ensures AnyTriggerIn(text, triggers) <==> exists t, i :: t in triggers && OccursAt(text, t, i)
  {
    forall t | t in triggers {
      ContainsIff(text, t);
    }
  }

  /** A label is reported exactly when one of its triggers is a substring of the
      lower-cased text; labels come out without repeats, in table order. */
  lemma {:induction false} TagSpec(table: seq<Pattern>, text: string)
    requires NoDups(Names(table))
    ensures forall n :: n in Tag(table, text) <==>
              exists p :: p in table && p.name == n && Matches(p, text)
    ensures NoDups(Tag(table, text))
    ensures IsSubseq(Tag(table, text), Names(table))
  {
    forall p | p in table {
      AnyTriggerInIff(Lower(text), p.triggers);
    }
    SubseqNoDups(Tag(table, text), Names(table));
  }

  lemma ExtractThemesSpec(text: string)
    ensures forall n :: n in ExtractThemes(text) <==>
              exists p :: p in ThemePatterns && p.name == n && Matches(p, text)
    ensures NoDups(ExtractThemes(text))
    ensures IsSubseq(ExtractThemes(text), ThemeNames)
  {
    TableNamesDistinct();
    TagSpec(ThemePatterns, text);
  }

  lemma ExtractSkillsSpec(text: string)
    ensures forall n :: n in ExtractSkills(text) <==>
              exists p :: p in SkillPatterns && p.name == n && Matches(p, text)
    ensures NoDups(ExtractSkills(text))
    ensures IsSubseq(ExtractSkills(text), SkillNames)
  {
    TableNamesDistinct();
    TagSpec(SkillPatterns, text);
  }

  predicate HasNoLetters(s: string) {
    forall i :: 0 <= i < |s| ==> !IsUpper(s[i]) && !IsLowerLetter(s[i])
  }

  /** Text without ASCII letters matches no pattern: every trigger starts with a letter. */
  lemma NoLettersNoTags(table: seq<Pattern>, text: string)
    requires HasNoLetters(text)
    ensures Tag(table, text) == []
  {
    var low := Lower(text);
    forall p, t | p in table && t in p.triggers ensures !Contains(low, t) {
      ContainsIff(low, t);
      forall i | 0 <= i && i + |t| <= |low| ensures !OccursAt(low, t, i) {
        assert low[i..i + |t|][0] == low[i] == text[i];
      }
    }
    if |Tag(table, text)| > 0 {
      assert Tag(table, text)[0] in Tag(table, text);
    }
  }

  /** The three signal lists `analyzeJournalEntry` stores for an entry. */
  datatype Analysis = Analysis(keywords: seq<string>, themes: seq<string>, skills: seq<string>)

  /** `analyzeJournalEntry` without the store: all three extractors run on the entry's
      analysed text. */
  function Analyze(entry: JournalEntry): (r: Analysis)
    ensures |r.keywords| <= MaxKeywords && NoDups(r.keywords)
    ensures IsSubseq(r.themes, ThemeNames) && IsSubseq(r.skills, SkillNames)
  {
    var text := FullText(entry);
    Analysis(ExtractKeywords(text), ExtractThemes(text), ExtractSkills(text))
  }

  /** Whitespace-only text yields no keywords, themes or skills; the empty text is one. */
  lemma BlankTextNoSignals(text: string)
    requires IsBlank(text) && HasNoLetters(text)
    ensures ExtractKeywords(text) == [] && ExtractThemes(text) == [] && ExtractSkills(text) == []
  {
    BlankTextNoKeywords(text);
    NoLettersNoTags(ThemePatterns, text);
    NoLettersNoTags(SkillPatterns, text);
  }

  /** An entry whose answers are all missing or empty yields three empty lists: its
      analysed text is two spaces. */
  lemma EmptyEntryAnalysis(entry: JournalEntry)
    requires entry.enjoyed.GetOr("") == "" && entry.challenges.GetOr("") == ""
             && entry.learned.GetOr("") == ""
    ensures Analyze(entry) == Analysis([], [], [])
  {
    var text := FullText(entry);
    assert text == "  ";
    BlankTextNoSignals(text);
  }
}
