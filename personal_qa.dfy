/** The PersonalQA concept: facts about a user, questions answered from those facts
    (by token overlap and category hints, or by a language model), drafts of
    model exchanges, and per-user prompt templates. */
module PersonalQA {
  import opened Common

  type User = Id

  datatype FactSource = Meal | CheckInSource | InsightSource | Behavior

  /** The string value of each `FactSource` member. */
  function SourceName(s: FactSource): (r: string)
    ensures r in {"meal", "check_in", "insight", "behavior"}
  {
    match s
    case Meal => "meal"
    case CheckInSource => "check_in"
    case InsightSource => "insight"
    case Behavior => "behavior"
  }

  lemma SourceNameInjective(a: FactSource, b: FactSource)
    requires SourceName(a) == SourceName(b)
    ensures a == b
  {
  }

  /** A fact; `at` is the stored ISO-8601 timestamp string. */
  datatype Fact = Fact(id: Id, owner: User, at: string, content: string, source: FactSource)

  datatype QA = QA(
    id: Id, owner: User, question: string, answer: string,
    citedFacts: seq<Id>, confidence: Option<real>, at: string)

  /** A stored model exchange: the prompt sent and the text received. */
  datatype Draft = Draft(id: Id, owner: User, question: string, prompt: string, response: string, validated: bool, at: string)

  datatype Template = Template(name: string, text: string)

  // ---------------------------------------------------------------------------
  // Tokens (lines 71-75)
  // ---------------------------------------------------------------------------

  /** `toLowerCase` on the ASCII letters. */
  function LowerChar(c: char): char {
    if 'A' <= c <= 'Z' then (c as int - 'A' as int + 'a' as int) as char else c
  }

  function Lower(s: string): (r: string)
    ensures |r| == |s| && forall i :: 0 <= i < |s| ==> r[i] == LowerChar(s[i])
  {
    seq(|s|, i requires 0 <= i < |s| => LowerChar(s[i]))
  }

  /** A character of the class `[a-z0-9]`. */
  predicate IsTokenChar(c: char) { 'a' <= c <= 'z' || '0' <= c <= '9' }

  /** The end of the run of token characters that starts at `i`. */
  function RunEnd(s: string, i: nat): (e: nat)
    requires i <= |s|
    ensures i <= e <= |s|
    ensures forall k :: i <= k < e ==> IsTokenChar(s[k])
    ensures e == |s| || !IsTokenChar(s[e])
    decreases |s| - i
  {
    if i == |s| || !IsTokenChar(s[i]) then i else RunEnd(s, i + 1)
  }

  /** The matches of `/[a-z0-9]+/g` from index `i` on, left to right. */
  function RunsFrom(s: string, i: nat): seq<string>
    requires i <= |s|
    decreases |s| - i
  {
    if i == |s| then []
    else if !IsTokenChar(s[i]) then RunsFrom(s, i + 1)
    else
      var e := RunEnd(s, i);
      [s[i..e]] + RunsFrom(s, e)
  }

  function Runs(s: string): seq<string> {
    RunsFrom(s, 0)
  }

  /** `s[i..j]` is a maximal run of token characters. */
  ghost predicate MaximalRun(s: string, i: nat, j: nat) {
    && i < j <= |s|
    && (forall k :: i <= k < j ==> IsTokenChar(s[k]))
    && (i == 0 || !IsTokenChar(s[i - 1]))
    && (j == |s| || !IsTokenChar(s[j]))
  }

  /** Scanning from a position that is not inside a run yields only maximal runs. */
  lemma {:induction false} RunsFromAreMaximal(s: string, from: nat)
    requires from <= |s|
    requires from == 0 || from == |s| || !IsTokenChar(s[from - 1]) || !IsTokenChar(s[from])
    ensures forall t :: t in RunsFrom(s, from) ==> exists i: nat, j: nat :: MaximalRun(s, i, j) && s[i..j] == t
    decreases |s| - from
  {
    if from < |s| {
      if !IsTokenChar(s[from]) {
        RunsFromAreMaximal(s, from + 1);
      } else {
        var e := RunEnd(s, from);
        RunsFromAreMaximal(s, e);
        assert MaximalRun(s, from, e);
      }
    }
  }

  /** A run of token characters from `i` that stops at `j` ends at `RunEnd(s, i)`. */
  lemma {:induction false} RunEndIsEnd(s: string, i: nat, j: nat)
    requires i <= j <= |s|
    requires forall k :: i <= k < j ==> IsTokenChar(s[k])
    requires j == |s| || !IsTokenChar(s[j])
    ensures RunEnd(s, i) == j
    decreases j - i
  {
    if i < j {
      RunEndIsEnd(s, i + 1, j);
    }
  }

  /** A run cannot extend past a character outside the class. */
  lemma {:induction false} RunEndBefore(s: string, from: nat, m: nat)
    requires from <= m < |s| && !IsTokenChar(s[m])
    ensures RunEnd(s, from) <= m
    decreases m - from
  {
    if from < m && IsTokenChar(s[from]) {
      RunEndBefore(s, from + 1, m);
    }
  }

  /** Every maximal run at or after the scan position is a match. */
  lemma {:induction false} MaximalRunInRunsFrom(s: string, from: nat, i: nat, j: nat)
    requires MaximalRun(s, i, j) && from <= i
    ensures s[i..j] in RunsFrom(s, from)
    decreases |s| - from
  {
    if !IsTokenChar(s[from]) {
      MaximalRunInRunsFrom(s, from + 1, i, j);
    } else {
      var e := RunEnd(s, from);
      if i == from {
        RunEndIsEnd(s, i, j);
      } else {
        RunEndBefore(s, from, i - 1);
        MaximalRunInRunsFrom(s, e, i, j);
      }
    }
  }

  /** The matches are exactly the maximal runs of token characters. */
  lemma RunsSpec(s: string)
    ensures forall t :: t in Runs(s) ==> exists i: nat, j: nat :: MaximalRun(s, i, j) && s[i..j] == t
    ensures forall i: nat, j: nat :: MaximalRun(s, i, j) ==> s[i..j] in Runs(s)
  {
    RunsFromAreMaximal(s, 0);
    forall i: nat, j: nat | MaximalRun(s, i, j) ensures s[i..j] in Runs(s) {
      MaximalRunInRunsFrom(s, 0, i, j);
    }
  }

  /** `tokenize`: the set of matches of length at least three in the lowered string. */
  function Tokenize(s: string): set<string> {
    set t | t in Runs(Lower(s)) && |t| >= 3
  }

  /** The tokens are exactly the maximal alphanumeric runs of the lowered string that
      are at least three characters long. */
  lemma TokenizeSpec(s: string)
    ensures forall t :: t in Tokenize(s) ==> |t| >= 3 && forall k :: 0 <= k < |t| ==> IsTokenChar(t[k])
    ensures forall t :: t in Tokenize(s) ==> exists i: nat, j: nat :: MaximalRun(Lower(s), i, j) && Lower(s)[i..j] == t
    ensures forall i: nat, j: nat :: MaximalRun(Lower(s), i, j) && j - i >= 3 ==> Lower(s)[i..j] in Tokenize(s)
  {
    RunsSpec(Lower(s));
    forall t | t in Tokenize(s) ensures forall k :: 0 <= k < |t| ==> IsTokenChar(t[k]) {
      var i: nat, j: nat :| MaximalRun(Lower(s), i, j) && Lower(s)[i..j] == t;
      forall k | 0 <= k < |t| ensures IsTokenChar(t[k]) { assert t[k] == Lower(s)[i + k]; }
    }
  }

  /** The relevance score of a fact: how many of its tokens are question tokens. */
  function Score(qTokens: set<string>, f: Fact): nat {
    |Tokenize(f.content) * qTokens|
  }

  /** `relevanceScore`: counts, over the fact's tokens, those that are question tokens. */
  method RelevanceScore(qTokens: set<string>, f: Fact) returns (overlap: nat)
    ensures overlap == Score(qTokens, f)
    ensures overlap <= |Tokenize(f.content)|
  {
    var ftokens := Tokenize(f.content);
    overlap := 0;
    var remaining := ftokens;
    ghost var done: set<string> := {};
    while remaining != {}
      invariant done !! remaining && done + remaining == ftokens
      invariant overlap == |done * qTokens|
      decreases |remaining|
    {
      var t :| t in remaining;
      CountStep(done, qTokens, t);
      if t in qTokens {
        overlap := overlap + 1;
      }
      done := done + {t};
      remaining := remaining - {t};
    }
    assert done == ftokens;
    SubsetCardinality(ftokens * qTokens, ftokens);
  }

  /** Counting one more token adds one exactly when it is a question token. */
  lemma CountStep(done: set<string>, q: set<string>, t: string)
    requires t !in done
    ensures |(done + {t}) * q| == |done * q| + (if t in q then 1 else 0)
  {
    if t in q {
      assert (done + {t}) * q == done * q + {t};
    } else {
      assert (done + {t}) * q == done * q;
    }
  }

  // ---------------------------------------------------------------------------
  // Category hints (lines 77-85)
  // ---------------------------------------------------------------------------

  /** A character of the class `\w`. */
  predicate IsWordChar(c: char) {
    'a' <= c <= 'z' || 'A' <= c <= 'Z' || '0' <= c <= '9' || c == '_'
  }

  /** `w` occurs at `i` with `(^|\W)` before it and `(\W|$)` after it. */
  predicate WordAt(s: string, w: string, i: nat) {
    && i + |w| <= |s|
    && s[i..i + |w|] == w
    && (i == 0 || !IsWordChar(s[i - 1]))
    && (i + |w| == |s| || !IsWordChar(s[i + |w|]))
  }

  predicate HasWord(s: string, w: string) {
    exists i: nat :: i <= |s| && WordAt(s, w, i)
  }

  /** `/(^|\W)w(s)?(\W|$)/.test(s)`. */
  predicate HasWordOrPlural(s: string, w: string) {
    HasWord(s, w) || HasWord(s, w + "s")
  }

  /** `check[ _-]?in(s)?`: the four spellings of the stem. */
  predicate HasCheckIn(s: string) {
    HasWordOrPlural(s, "checkin") || HasWordOrPlural(s, "check in")
    || HasWordOrPlural(s, "check_in") || HasWordOrPlural(s, "check-in")
  }

  /** `categoryHintsFromQuestion`. */
  function CategoryHints(q: string): (r: set<FactSource>)
    ensures InsightSource in r <==> HasWordOrPlural(Lower(q), "insight")
    ensures CheckInSource in r <==> HasCheckIn(Lower(q))
    ensures Meal in r <==> HasWordOrPlural(Lower(q), "meal")
    ensures Behavior in r <==> HasWordOrPlural(Lower(q), "behavior")
  {
    var s := Lower(q);
    (if HasWordOrPlural(s, "insight") then {InsightSource} else {})
    + (if HasCheckIn(s) then {CheckInSource} else {})
    + (if HasWordOrPlural(s, "meal") then {Meal} else {})
    + (if HasWordOrPlural(s, "behavior") then {Behavior} else {})
  }

  /** Plurals and the hyphenated spelling are recognised: "Meals?" hints at meals and
      "my check-ins" at check-ins. */
  lemma CategoryHintsExamples()
    ensures Meal in CategoryHints("Meals?")
    ensures CheckInSource in CategoryHints("my check-ins")
  {
    assert Lower("Meals?") == "meals?";
    assert "meal" + "s" == "meals";
    assert WordAt("meals?", "meals", 0);
    assert HasWord("meals?", "meals");
    assert Lower("my check-ins") == "my check-ins";
    assert "check-in" + "s" == "check-ins";
    assert WordAt("my check-ins", "check-ins", 3);
    assert HasWord("my check-ins", "check-ins");
  }

  // ---------------------------------------------------------------------------
  // Ordering and selection (lines 57-63)
  // ---------------------------------------------------------------------------

  /** `sortByAtAsc` as an ordering: `a` may come before `b`. */
  predicate AtLe(a: Fact, b: Fact) { StrLe(a.at, b.at) }

  lemma AtLeIsTotalPreorder()
    ensures TotalPreorder(AtLe)
  {
    StrLeIsTotalOrder();
  }

  /** `selectTopK`: sort by `at`, then `slice(-k)`. */
  function SelectTopK(arr: seq<Fact>, k: int): (r: seq<Fact>)
    ensures |r| <= |arr|
  {
    SliceFrom(SortBy(arr, AtLe), -k)
  }

  /** For k >= 1, the k latest facts (all when there are fewer), oldest first, and no
      fact left out is later than one selected. */
  lemma SelectTopKSpec(arr: seq<Fact>, k: nat)
    requires k >= 1
    ensures |SelectTopK(arr, k)| == if k < |arr| then k else |arr|
    ensures multiset(SelectTopK(arr, k)) <= multiset(arr)
    ensures SortedBy(SelectTopK(arr, k), AtLe)
    ensures forall f, g :: f in arr && f !in SelectTopK(arr, k) && g in SelectTopK(arr, k) ==> StrLe(f.at, g.at)
  {
    var sorted := SortBy(arr, AtLe);
    AtLeIsTotalPreorder();
    SortBySorted(arr, AtLe);
    SliceFromNegative(sorted, k);
    var cut := |sorted| - (if k < |sorted| then k else |sorted|);
    var r := SelectTopK(arr, k);
    assert r == sorted[cut..];
    SortedSuffix(sorted, AtLe, cut);
    forall f, g | f in arr && f !in r && g in r ensures StrLe(f.at, g.at) {
      assert f in multiset(sorted);
      assert AtLe(f, g);
    }
  }

  /** `slice(-0)` keeps everything: a k of 0 selects every fact. */
  lemma SelectTopKZero(arr: seq<Fact>)
    ensures multiset(SelectTopK(arr, 0)) == multiset(arr)
  {
    SliceFromNegative(SortBy(arr, AtLe), 0);
  }

  // ---------------------------------------------------------------------------
  // Answer text (lines 65-69)
  // ---------------------------------------------------------------------------

  const InsufficientData := "Insufficient data to answer yet."
  const ZeroFactsAnswer := "I couldn't find enough information to answer that yet. I have 0 facts recorded for you right now."

  function NoRelevantFactsAnswer(poolSize: nat): string {
    "I have " + NatToString(poolSize) + " facts recorded for you, but none directly address your question. You can add more details or ask about topics mentioned in your facts."
  }

  function ContentOf(f: Fact): string { f.content }

  /** `conservativeSummary`. */
  function ConservativeSummary(question: string, facts: seq<Fact>): string {
    if |facts| == 0 then InsufficientData
    else
      var bits := Join(Map(SliceFrom(facts, -3), ContentOf), " | ");
      "Based on your recent facts: " + bits + ". I would need more data to be confident about \U{201C}" + question + "\U{201D}."
  }

  /** The summary is the fixed sentence for no facts, and otherwise quotes the contents of
      the last three facts (all when there are fewer) and the question. */
  lemma ConservativeSummarySpec(question: string, facts: seq<Fact>)
    ensures facts == [] ==> ConservativeSummary(question, facts) == InsufficientData
    ensures facts != [] ==>
      var last := facts[|facts| - (if |facts| < 3 then |facts| else 3)..];
      ConservativeSummary(question, facts) ==
        "Based on your recent facts: " + Join(Map(last, ContentOf), " | ")
        + ". I would need more data to be confident about \U{201C}" + question + "\U{201D}."
  {
    if facts != [] {
      var last := facts[|facts| - (if |facts| < 3 then |facts| else 3)..];
      SliceFromNegative(facts, 3);
      assert SliceFrom(facts, -3) == last;
      var bits := Join(Map(last, ContentOf), " | ");
      assert ConservativeSummary(question, facts) ==
        "Based on your recent facts: " + bits + ". I would need more data to be confident about \U{201C}" + question + "\U{201D}.";
    }
  }

  /** Facts older than the last three do not change the summary. */
  lemma ConservativeSummaryLastThree(question: string, older: seq<Fact>, recent: seq<Fact>)
    requires |recent| >= 3
    ensures ConservativeSummary(question, older + recent) == ConservativeSummary(question, recent)
  {
    SliceFromAppend(older, recent, 3);
  }

  // ---------------------------------------------------------------------------
  // Prompt templates (lines 331-346)
  // ---------------------------------------------------------------------------

  const DefaultTemplate :=
    "Answer the user's question strictly using some of the facts below. If there are no facts, do a web search. Be concise. If the question\n"
    + "  is personal to the user and cannot be answered with facts or a web search, say so clearly.\n"
    + "\nQuestion: {{question}}\nFacts:\n{{factsText}}"

  predicate OccursAt(s: string, pat: string, i: nat) {
    i + |pat| <= |s| && s[i..i + |pat|] == pat
  }

  /** The first index, from `from` on, at which `pat` occurs in `s`. */
  function IndexOf(s: string, pat: string, from: nat): (r: Option<nat>)
    requires from <= |s|
    ensures r.Some? ==>
      && from <= r.value && OccursAt(s, pat, r.value)
      && (forall i: nat :: from <= i < r.value ==> !OccursAt(s, pat, i))
    ensures r.None? ==> forall i: nat :: from <= i ==> !OccursAt(s, pat, i)
    decreases |s| - from
  {
    if from + |pat| > |s| then None
    else if s[from..from + |pat|] == pat then Some(from)
    else IndexOf(s, pat, from + 1)
  }

  /** A replacement string with its `$` patterns expanded (`$$`, `$&`, `` $` ``, `$'`). */
  function ExpandReplacement(repl: string, matched: string, before: string, after: string): string
    decreases |repl|
  {
    if |repl| >= 2 && repl[0] == '$' && repl[1] == '$' then "$" + ExpandReplacement(repl[2..], matched, before, after)
    else if |repl| >= 2 && repl[0] == '$' && repl[1] == '&' then matched + ExpandReplacement(repl[2..], matched, before, after)
    else if |repl| >= 2 && repl[0] == '$' && repl[1] == '`' then before + ExpandReplacement(repl[2..], matched, before, after)
    else if |repl| >= 2 && repl[0] == '$' && repl[1] == '\'' then after + ExpandReplacement(repl[2..], matched, before, after)
    else if repl == [] then []
    else [repl[0]] + ExpandReplacement(repl[1..], matched, before, after)
  }

  /** A replacement without `$` is inserted as it is. */
  lemma {:induction false} ExpandReplacementLiteral(repl: string, matched: string, before: string, after: string)
    requires '$' !in repl
    ensures ExpandReplacement(repl, matched, before, after) == repl
    decreases |repl|
  {
    if repl != [] {
      assert repl[0] != '$';
      assert '$' !in repl[1..] by { assert forall c :: c in repl[1..] ==> c in repl; }
      ExpandReplacementLiteral(repl[1..], matched, before, after);
    }
  }

  /** `String.prototype.replace` with a string pattern: only the first occurrence. */
  function ReplaceFirst(s: string, pat: string, repl: string): string {
    match IndexOf(s, pat, 0)
    case None => s
    case Some(i) => s[..i] + ExpandReplacement(repl, pat, s[..i], s[i + |pat|..]) + s[i + |pat|..]
  }

  /** With no occurrence of the pattern nothing changes. */
  lemma ReplaceFirstNoMatch(s: string, pat: string, repl: string)
    requires forall i: nat :: !OccursAt(s, pat, i)
    ensures ReplaceFirst(s, pat, repl) == s
  {
    assert IndexOf(s, pat, 0).None?;
  }

  /** The first occurrence, and only it, is replaced by the expanded replacement. */
  lemma ReplaceFirstExpanded(s: string, pat: string, repl: string, i: nat)
    requires OccursAt(s, pat, i)
    requires forall j: nat :: j < i ==> !OccursAt(s, pat, j)
    ensures ReplaceFirst(s, pat, repl) == s[..i] + ExpandReplacement(repl, pat, s[..i], s[i + |pat|..]) + s[i + |pat|..]
  {
    var r := IndexOf(s, pat, 0);
    assert r.Some?;
    var k := r.value;
    assert !(i < k);
    assert !(k < i);
  }

  /** Without `$` in the replacement, the first occurrence, and only it, is replaced by the
      replacement itself. */
  lemma ReplaceFirstAt(s: string, pat: string, repl: string, i: nat)
    requires '$' !in repl
    requires OccursAt(s, pat, i)
    requires forall j: nat :: j < i ==> !OccursAt(s, pat, j)
    ensures ReplaceFirst(s, pat, repl) == s[..i] + repl + s[i + |pat|..]
  {
    ReplaceFirstExpanded(s, pat, repl, i);
    ExpandReplacementLiteral(repl, pat, s[..i], s[i + |pat|..]);
  }

  function FactLine(f: Fact): string {
    "- " + f.content + " (src:" + SourceName(f.source) + ", at:" + f.at + ")"
  }

  /** `fillTemplate`. */
  function FillTemplate(template: string, facts: seq<Fact>, question: string): string {
    var factsText := Join(Map(facts, FactLine), "\n");
    ReplaceFirst(ReplaceFirst(template, "{{question}}", question), "{{factsText}}", factsText)
  }

  /** A question that is `$'` pulls the rest of the template, after the question
      placeholder, into the prompt a second time. */
  lemma FillTemplateDollarPattern(template: string, i: nat)
    requires OccursAt(template, "{{question}}", i)
    requires forall j: nat :: j < i ==> !OccursAt(template, "{{question}}", j)
    ensures var rest := template[i + |"{{question}}"|..];
      ReplaceFirst(template, "{{question}}", "$'") == template[..i] + rest + rest
  {
    var rest := template[i + |"{{question}}"|..];
    ReplaceFirstExpanded(template, "{{question}}", "$'", i);
    ExpandAfterPattern("{{question}}", template[..i], rest);
  }

  /** `$'` expands to the text after the match. */
  lemma ExpandAfterPattern(matched: string, before: string, after: string)
    ensures ExpandReplacement("$'", matched, before, after) == after
  {
    var r := "$'";
    assert |r| >= 2 && r[0] == '$' && r[1] == '\'' && r[2..] == [];
    assert ExpandReplacement(r, matched, before, after) == after + ExpandReplacement([], matched, before, after);
  }

  // ---------------------------------------------------------------------------
  // Answering from facts (lines 137-199)
  // ---------------------------------------------------------------------------

  datatype Scored = Scored(fact: Fact, score: nat)

  function ScoreFact(qTokens: set<string>): Fact -> Scored {
    (f: Fact) => Scored(f, Score(qTokens, f))
  }

  function IsCandidate(hinted: set<FactSource>): Scored -> bool {
    (x: Scored) => x.score > 0 || x.fact.source in hinted
  }

  /** The comparator of line 182: higher score first, then earlier `at`. */
  predicate RankLe(a: Scored, b: Scored) {
    a.score > b.score || (a.score == b.score && StrLe(a.fact.at, b.fact.at))
  }

  lemma RankLeIsTotalPreorder()
    ensures TotalPreorder(RankLe)
  {
    StrLeIsTotalOrder();
  }

  const MaxCited: nat := 10

  function Candidates(pool: seq<Fact>, question: string): seq<Scored> {
    Filter(Map(pool, ScoreFact(Tokenize(question))), IsCandidate(CategoryHints(question)))
  }

  function FactOf(x: Scored): Fact { x.fact }

  function CitedOf(pool: seq<Fact>, question: string): seq<Fact> {
    Map(Take(SortBy(Candidates(pool, question), RankLe), MaxCited), FactOf)
  }

  function FactIdOf(f: Fact): Id { f.id }

  /** The answer and the cited facts of `ask` for the requester's facts `pool`. */
  function AskAnswer(pool: seq<Fact>, question: string): (string, seq<Fact>) {
    if |pool| == 0 then (ZeroFactsAnswer, [])
    else if |Candidates(pool, question)| == 0 then (NoRelevantFactsAnswer(|pool|), [])
    else
      var top := CitedOf(pool, question);
      (ConservativeSummary(question, top), top)
  }

  /** A fact is relevant to a question when it shares a token with it or its source is
      hinted by it. */
  predicate Relevant(f: Fact, question: string) {
    Score(Tokenize(question), f) > 0 || f.source in CategoryHints(question)
  }

  /** A fact with its score against the question. */
  function ScoreOf(question: string, f: Fact): Scored {
    Scored(f, Score(Tokenize(question), f))
  }

  /** The candidates are the relevant facts of the pool, each with its own score. */
  lemma CandidatesSpec(pool: seq<Fact>, question: string)
    ensures forall x :: x in Candidates(pool, question) ==>
      x.fact in pool && x == ScoreOf(question, x.fact) && Relevant(x.fact, question)
    ensures forall f :: f in pool && Relevant(f, question) ==> ScoreOf(question, f) in Candidates(pool, question)
  {
    var qt := Tokenize(question);
    var scored := Map(pool, ScoreFact(qt));
    forall x | x in Candidates(pool, question) ensures x.fact in pool && x == ScoreOf(question, x.fact) {
      var i :| 0 <= i < |scored| && scored[i] == x;
      assert x.fact == pool[i];
    }
    forall f | f in pool && Relevant(f, question) ensures ScoreOf(question, f) in Candidates(pool, question) {
      var i :| 0 <= i < |pool| && pool[i] == f;
      assert scored[i] == ScoreOf(question, f);
    }
  }

  /** The first ten of the ranked candidates: ranked, taken from the candidates, and no
      candidate left out ranks before one taken. */
  lemma RankedTop(cands: seq<Scored>)
    ensures var taken := Take(SortBy(cands, RankLe), MaxCited);
      && |taken| <= MaxCited
      && (forall x :: x in taken ==> x in cands)
      && SortedBy(taken, RankLe)
      && (forall x, y :: x in cands && x !in taken && y in taken ==> RankLe(y, x))
  {
    RankLeIsTotalPreorder();
    var ranked := SortBy(cands, RankLe);
    SortBySorted(cands, RankLe);
    var n := if MaxCited < |ranked| then MaxCited else |ranked|;
    assert Take(ranked, MaxCited) == ranked[..n];
    SortedPrefix(ranked, RankLe, n);
    forall x ensures x in ranked <==> x in cands {
      assert x in ranked <==> x in multiset(ranked);
    }
  }

  /** The facts `ask` cites, ranked by score and then by time: at most ten, all relevant
      facts of the pool, and no relevant fact left out ranks before one cited. */
  lemma CitedOfSpec(pool: seq<Fact>, question: string)
    ensures |CitedOf(pool, question)| <= MaxCited
    ensures forall f :: f in CitedOf(pool, question) ==> f in pool && Relevant(f, question)
    ensures forall i, j :: 0 <= i < j < |CitedOf(pool, question)| ==>
      RankLe(ScoreOf(question, CitedOf(pool, question)[i]), ScoreOf(question, CitedOf(pool, question)[j]))
    ensures forall f, g :: f in pool && Relevant(f, question) && f !in CitedOf(pool, question) && g in CitedOf(pool, question) ==>
      RankLe(ScoreOf(question, g), ScoreOf(question, f))
  {
    var cands := Candidates(pool, question);
    CandidatesSpec(pool, question);
    RankedTop(cands);
    var taken := Take(SortBy(cands, RankLe), MaxCited);
    CitedFromRanked(pool, question, cands, taken, CitedOf(pool, question));
  }

  /** The cited facts are the facts of the taken candidates. */
  lemma CitedFromRanked(pool: seq<Fact>, question: string, cands: seq<Scored>, taken: seq<Scored>, cited: seq<Fact>)
    requires forall x :: x in cands ==> x.fact in pool && x == ScoreOf(question, x.fact) && Relevant(x.fact, question)
    requires forall f :: f in pool && Relevant(f, question) ==> ScoreOf(question, f) in cands
    requires |taken| <= MaxCited && (forall x :: x in taken ==> x in cands) && SortedBy(taken, RankLe)
    requires forall x, y :: x in cands && x !in taken && y in taken ==> RankLe(y, x)
    requires cited == Map(taken, FactOf)
    ensures |cited| <= MaxCited
    ensures forall f :: f in cited ==> f in pool && Relevant(f, question)
    ensures forall i, j :: 0 <= i < j < |cited| ==> RankLe(ScoreOf(question, cited[i]), ScoreOf(question, cited[j]))
    ensures forall f, g :: f in pool && Relevant(f, question) && f !in cited && g in cited ==>
      RankLe(ScoreOf(question, g), ScoreOf(question, f))
  {
    forall i | 0 <= i < |taken| ensures cited[i] == taken[i].fact && ScoreOf(question, cited[i]) == taken[i] {
      assert taken[i] in cands;
    }
    forall f | f in cited ensures ScoreOf(question, f) in taken && f in pool && Relevant(f, question) {
      var i :| 0 <= i < |cited| && cited[i] == f;
      assert taken[i] in cands;
    }
    forall i, j | 0 <= i < j < |cited| ensures RankLe(ScoreOf(question, cited[i]), ScoreOf(question, cited[j])) {
      assert RankLe(taken[i], taken[j]);
    }
    forall f, g | f in pool && Relevant(f, question) && f !in cited && g in cited
      ensures RankLe(ScoreOf(question, g), ScoreOf(question, f))
    {
      assert ScoreOf(question, f) !in taken;
    }
  }

  /** What `ask` answers: with no facts or no relevant fact nothing is cited and the answer
      says so (with the pool size); otherwise the cited facts are those of `CitedOf`, never
      none, and the answer is the conservative summary of them. */
  lemma AskAnswerSpec(pool: seq<Fact>, question: string)
    ensures |pool| == 0 ==> AskAnswer(pool, question) == (ZeroFactsAnswer, [])
    ensures |pool| > 0 && (forall f :: f in pool ==> !Relevant(f, question)) ==>
      AskAnswer(pool, question) == (NoRelevantFactsAnswer(|pool|), [])
    ensures (exists f :: f in pool && Relevant(f, question)) ==>
      var cited := CitedOf(pool, question);
      AskAnswer(pool, question) == (ConservativeSummary(question, cited), cited) && |cited| > 0
  {
    if |pool| > 0 && (forall f :: f in pool ==> !Relevant(f, question)) {
      NoCandidates(pool, question);
    }
    if f :| f in pool && Relevant(f, question) {
      SomeCandidate(pool, question, f);
    }
  }

  lemma NoCandidates(pool: seq<Fact>, question: string)
    requires forall f :: f in pool ==> !Relevant(f, question)
    ensures Candidates(pool, question) == []
  {
    var qt := Tokenize(question);
    var hints := CategoryHints(question);
    var scored := Map(pool, ScoreFact(qt));
    forall x | x in scored ensures !IsCandidate(hints)(x) {
      var i :| 0 <= i < |pool| && scored[i] == x;
      assert pool[i] in pool;
      assert x == Scored(pool[i], Score(qt, pool[i]));
      assert !(Score(qt, pool[i]) > 0 || pool[i].source in hints);
    }
    FilterNone(scored, IsCandidate(hints));
  }

  lemma SomeCandidate(pool: seq<Fact>, question: string, f: Fact)
    requires f in pool && Relevant(f, question)
    ensures |Candidates(pool, question)| > 0 && |CitedOf(pool, question)| > 0
  {
    CandidatesSpec(pool, question);
    assert ScoreOf(question, f) in Candidates(pool, question);
    assert |SortBy(Candidates(pool, question), RankLe)| > 0;
  }

  // ---------------------------------------------------------------------------
  // The language-model call of askLLM, as an outcome passed in
  // ---------------------------------------------------------------------------

  /** The HTTP exchange with the model: a non-OK status, or the text extracted from the
      JSON body (`None` when there is none). */
  datatype LlmOutcome = HttpFailure | Responded(text: Option<string>)

  const DefaultK: int := 12
  const FallbackConfidence: real := 0.2
  const ModelConfidence: real := 0.5

  function ResponseText(t: Option<string>): string {
    Trim(if t.Some? then t.value else "")
  }

  /** The outcome of `askLLM` for a selection: the answer, its confidence and, when the
      model answered, the exchange (prompt and trimmed response) kept as a draft. */
  datatype LlmReply = LlmReply(answer: string, confidence: real, exchange: Option<(string, string)>)

  /** The fallback (no key, or a failed request) keeps no exchange and is the conservative
      summary at confidence 0.2; otherwise the exchange holds the filled template and the
      trimmed response, the confidence is 0.5, and the answer is the response unless that
      is empty. Either way the answer is never empty. */
  function AskLLMReply(question: string, selection: seq<Fact>, apiKey: string, template: string, llm: LlmOutcome): (r: LlmReply)
    ensures r.exchange.None? <==> apiKey == "" || llm.HttpFailure?
    ensures r.exchange.None? ==> r.answer == ConservativeSummary(question, selection) && r.confidence == FallbackConfidence
    ensures r.exchange.Some? ==>
      && llm.Responded?
      && r.confidence == ModelConfidence
      && r.exchange.value.0 == FillTemplate(template, selection, question)
      && r.exchange.value.1 == ResponseText(llm.text)
    ensures r.exchange.Some? && |r.exchange.value.1| > 0 ==> r.answer == r.exchange.value.1
    ensures r.exchange.Some? && |r.exchange.value.1| == 0 ==> r.answer == ConservativeSummary(question, selection)
    ensures |r.answer| > 0
  {
    if apiKey == "" || llm.HttpFailure? then
      LlmReply(ConservativeSummary(question, selection), FallbackConfidence, None)
    else
      var text := ResponseText(llm.text);
      LlmReply(if |text| > 0 then text else ConservativeSummary(question, selection),
               ModelConfidence, Some((FillTemplate(template, selection, question), text)))
  }

  // ---------------------------------------------------------------------------
  // The concept state and its actions
  // ---------------------------------------------------------------------------

  datatype ForgetError = NotOwner | FactNotFound

  function ForgetErrorName(e: ForgetError): string {
    match e
    case NotOwner => "not_owner"
    case FactNotFound => "fact_not_found"
  }

  /** The position of the first fact with that id and owner (`deleteOne`). */
  function IndexOfFact(s: seq<Fact>, id: Id, owner: User): (r: Option<nat>)
    ensures r.Some? ==>
      && r.value < |s| && s[r.value].id == id && s[r.value].owner == owner
      && (forall j :: 0 <= j < r.value ==> !(s[j].id == id && s[j].owner == owner))
    ensures r.None? ==> forall f :: f in s ==> !(f.id == id && f.owner == owner)
  {
    if s == [] then None
    else if s[0].id == id && s[0].owner == owner then Some(0)
    else match IndexOfFact(s[1..], id, owner)
      case None => None
      case Some(k) => Some(k + 1)
  }

  function OwnedBy(owner: User): Fact -> bool { (f: Fact) => f.owner == owner }

  /** The draft `askLLM` keeps: the exchange, when the model answered. */
  function KeptDrafts(reply: LlmReply, draftId: Id, requester: User, question: string, now: string): (r: seq<Draft>)
    ensures |r| <= 1
  {
    if reply.exchange.Some? then
      [Draft(draftId, requester, question, reply.exchange.value.0, reply.exchange.value.1, true, now)]
    else []
  }

  /** The owner's facts, in stored order. */
  function OwnedFacts(facts: seq<Fact>, owner: User): seq<Fact> {
    Filter(facts, OwnedBy(owner))
  }

  /** The facts `askLLM` sends: the requester's `k` latest (12 when `k` is absent). */
  function LlmSelection(facts: seq<Fact>, requester: User, k: Option<int>): seq<Fact> {
    SelectTopK(OwnedFacts(facts, requester), if k.Some? then k.value else DefaultK)
  }

  /** The requester's stored template, or the default one. */
  function TemplateFor(templates: map<User, Template>, requester: User): string {
    if requester in templates then templates[requester].text else DefaultTemplate
  }

  class PersonalQAConcept {
    var facts: seq<Fact>
    var qas: seq<QA>
    var drafts: seq<Draft>
    /** Templates by the requester's id. */
    var templates: map<User, Template>

    ghost predicate Valid()
      reads this
    {
      && (forall i, j :: 0 <= i < j < |facts| ==> facts[i].id != facts[j].id)
      && (forall i, j :: 0 <= i < j < |qas| ==> qas[i].id != qas[j].id)
      && (forall i, j :: 0 <= i < j < |drafts| ==> drafts[i].id != drafts[j].id)
    }

    constructor ()
      ensures Valid() && facts == [] && qas == [] && drafts == [] && templates == map[]
    {
      facts, qas, drafts, templates := [], [], [], map[];
    }

    /** Action `ingestFact`, with `at` already in its stored form. */
    method IngestFact(owner: User, at: string, content: string, source: FactSource, freshId: Id) returns (fact: Id)
      requires Valid()
      requires forall f :: f in facts ==> f.id != freshId
      modifies this
      ensures Valid()
      ensures fact == freshId
      ensures facts == old(facts) + [Fact(freshId, owner, at, content, source)]
      ensures qas == old(qas) && drafts == old(drafts) && templates == old(templates)
    {
      facts := facts + [Fact(freshId, owner, at, content, source)];
      fact := freshId;
    }

    /** Action `forgetFact`. */
    method ForgetFact(requester: User, owner: User, factId: Id) returns (r: Option<ForgetError>)
      requires Valid()
      modifies this
      ensures Valid()
      ensures qas == old(qas) && drafts == old(drafts) && templates == old(templates)
      ensures requester != owner ==> r == Some(NotOwner) && facts == old(facts)
      ensures requester == owner ==>
        match IndexOfFact(old(facts), factId, owner)
        case None => r == Some(FactNotFound) && facts == old(facts)
        case Some(i) => r == None && facts == old(facts)[..i] + old(facts)[i + 1..]
    {
      if requester != owner {
        return Some(NotOwner);
      }
      var idx := IndexOfFact(facts, factId, owner);
      if idx.None? {
        return Some(FactNotFound);
      }
      var i := idx.value;
      ghost var before := facts;
      facts := facts[..i] + facts[i + 1..];
      forall a, b | 0 <= a < b < |facts| ensures facts[a].id != facts[b].id {
        var a' := if a < i then a else a + 1;
        var b' := if b < i then b else b + 1;
        assert facts[a] == before[a'] && facts[b] == before[b'];
      }
      r := None;
    }

    /** Action `ask`, with the new QA's id and the clock reading passed in. */
    method Ask(requester: User, question: string, freshId: Id, now: string) returns (qa: QA)
      requires Valid()
      requires forall x :: x in qas ==> x.id != freshId
      modifies this
      ensures Valid()
      ensures facts == old(facts) && drafts == old(drafts) && templates == old(templates)
      ensures var answer := AskAnswer(OwnedFacts(old(facts), requester), question);
        qa == QA(freshId, requester, question, answer.0, Map(answer.1, FactIdOf), None, now)
      ensures qas == old(qas) + [qa]
    {
      var answer := AskAnswer(OwnedFacts(facts, requester), question);
      qa := QA(freshId, requester, question, answer.0, Map(answer.1, FactIdOf), None, now);
      AppendQA(qa);
    }

    /** Action `askLLM`, with the API key (empty when unset), the model's outcome, the new
        documents' ids and the clock reading passed in. */
    method AskLLM(requester: User, question: string, k: Option<int>, apiKey: string, llm: LlmOutcome,
                  qaId: Id, draftId: Id, now: string) returns (qa: QA)
      requires Valid()
      requires forall x :: x in qas ==> x.id != qaId
      requires forall d :: d in drafts ==> d.id != draftId
      modifies this
      ensures Valid()
      ensures facts == old(facts) && templates == old(templates)
      ensures var selection := LlmSelection(old(facts), requester, k);
        var reply := AskLLMReply(question, selection, apiKey, TemplateFor(old(templates), requester), llm);
        && qa == QA(qaId, requester, question, reply.answer, Map(selection, FactIdOf), Some(reply.confidence), now)
        && drafts == old(drafts) + KeptDrafts(reply, draftId, requester, question, now)
      ensures qas == old(qas) + [qa]
    {
      var selection := LlmSelection(facts, requester, k);
      var reply := AskLLMReply(question, selection, apiKey, TemplateFor(templates, requester), llm);
      qa := QA(qaId, requester, question, reply.answer, Map(selection, FactIdOf), Some(reply.confidence), now);
      var kept := KeptDrafts(reply, draftId, requester, question, now);
      if kept != [] {
        AppendDraft(kept[0]);
        assert kept == [kept[0]];
      } else {
        assert drafts == drafts + kept;
      }
      AppendQA(qa);
    }

    /** Stores a draft under a new id. */
    method AppendDraft(d: Draft)
      requires Valid()
      requires forall x :: x in drafts ==> x.id != d.id
      modifies this
      ensures Valid()
      ensures drafts == old(drafts) + [d]
      ensures facts == old(facts) && qas == old(qas) && templates == old(templates)
    {
      drafts := drafts + [d];
    }

    /** Stores a QA under a new id. */
    method AppendQA(qa: QA)
      requires Valid()
      requires forall x :: x in qas ==> x.id != qa.id
      modifies this
      ensures Valid()
      ensures qas == old(qas) + [qa]
      ensures facts == old(facts) && drafts == old(drafts) && templates == old(templates)
    {
      qas := qas + [qa];
    }

    /** Action `setTemplate`: upserts the requester's template. */
    method SetTemplate(requester: User, name: string, template: string)
      requires Valid()
      modifies this
      ensures Valid()
      ensures templates == old(templates)[requester := Template(name, template)]
      ensures facts == old(facts) && qas == old(qas) && drafts == old(drafts)
    {
      templates := templates[requester := Template(name, template)];
    }

    /** Query `_getUserFacts`. */
    function GetUserFacts(owner: User): (r: seq<Fact>)
      reads this
      ensures forall f :: f in r <==> f in facts && f.owner == owner
    {
      Filter(facts, OwnedBy(owner))
    }

    /** Query `_getUserQAs`. */
    function GetUserQAs(owner: User): (r: seq<QA>)
      reads this
      ensures forall x :: x in r <==> x in qas && x.owner == owner
    {
      Filter(qas, (x: QA) => x.owner == owner)
    }

    /** Query `_getUserDrafts`. */
    function GetUserDrafts(owner: User): (r: seq<Draft>)
      reads this
      ensures forall d :: d in r <==> d in drafts && d.owner == owner
    {
      Filter(drafts, (d: Draft) => d.owner == owner)
    }
  }
}
