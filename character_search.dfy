/**
 * The character search of the meme catalogue: a word-overlap score between
 * a query and a character's searchable text, the threshold filter with a
 * descending ranking, the category filter, and the search panel whose
 * result list and "searching" flag follow its query and category.
 */
module CharacterSearch {

  import opened Options
  import opened Text
  import opened EditDistance
  import opened Ranking

  /** A named entry with a description (an ability or a meme). */
  datatype Described = Described(name: string, description: string)

  /** The fields of a character that the search reads. */
  datatype Character = Character(
    id: string,
    name: string,
    nameKorean: string,
    scientificName: string,
    category: seq<string>,
    origin: string,
    catchphrase: string,
    description: string,
    detailedDescription: Option<string>,
    personality: Option<seq<string>>,
    abilities: seq<string>,
    abilitiesDetails: Option<seq<Described>>,
    memeQuotes: Option<seq<string>>,
    memes: Option<seq<Described>>,
    trivia: Option<seq<string>>,
    tags: Option<seq<string>>,
    keywords: Option<seq<string>>)

  // ---------------------------------------------------------------------------
  // Order-preserving selection

  /** `xs` can be obtained from `ys` by deleting elements. */
  predicate IsSubsequence<T(==)>(xs: seq<T>, ys: seq<T>)
    decreases |ys|
  {
    if ys == [] then xs == []
    else (xs != [] && xs[0] == ys[0] && IsSubsequence(xs[1..], ys[1..])) || IsSubsequence(xs, ys[1..])
  }

  lemma {:induction false} EmptySubsequence<T>(ys: seq<T>)
    ensures IsSubsequence([], ys)
  {
    if ys != [] {
      EmptySubsequence(ys[1..]);
    }
  }

  lemma {:induction false} SubsequenceOfSelf<T>(xs: seq<T>)
    ensures IsSubsequence(xs, xs)
  {
    if xs != [] {
      SubsequenceOfSelf(xs[1..]);
    }
  }

  // ---------------------------------------------------------------------------
  // The score of a query against a text

  /** `.filter(word => word.length > 0)`. */
  function NonEmptyWords(words: seq<string>): (r: seq<string>)
    ensures forall k :: 0 <= k < |r| ==> r[k] != ""
    ensures forall w :: w in r <==> w in words && w != ""
  {
    if words == [] then []
    else (if words[0] != "" then [words[0]] else []) + NonEmptyWords(words[1..])
  }

  /** The query words: lower-cased, split on single spaces, empty pieces dropped. */
  function QueryWords(query: string): seq<string> {
    NonEmptyWords(Split(ToLower(query), ' '))
  }

  /** The text words: lower-cased and split on single spaces, empty pieces kept. */
  function TextWords(text: string): seq<string> {
    Split(ToLower(text), ' ')
  }

  /**
   * What one (query word, text word) pair adds: 1 when either contains the
   * other, plus half the similarity when both words are longer than two
   * characters and the similarity exceeds 0.7.
   */
  function PairScore(q: string, t: string): (p: real)
    ensures 0.0 <= p <= 1.5
    ensures (Contains(t, q) || Contains(q, t)) <==> p >= 1.0
  {
    (if Contains(t, q) || Contains(q, t) then 1.0 else 0.0)
    + (if |t| > 2 && |q| > 2 && Similarity(q, t) > 0.7 then Similarity(q, t) * 0.5 else 0.0)
  }

  /** The pair scores of one query word against the text words, summed. */
  function RowScore(q: string, ts: seq<string>): real
  {
    if ts == [] then 0.0 else RowScore(q, ts[..|ts| - 1]) + PairScore(q, ts[|ts| - 1])
  }

  /** The pair scores of all query words against all text words, summed. */
  function TotalScore(qs: seq<string>, ts: seq<string>): real
  {
    if qs == [] then 0.0 else TotalScore(qs[..|qs| - 1], ts) + RowScore(qs[|qs| - 1], ts)
  }

  /** `calculateSimilarity`: the summed pair score per query word, 0 without query words. */
  function Score(query: string, text: string): real
  {
    var qs := QueryWords(query);
    if |qs| > 0 then TotalScore(qs, TextWords(text)) / (|qs| as real) else 0.0
  }

  /** `calculateSimilarity` with its two nested loops accumulating `score`. */
  method CalculateSimilarity(query: string, text: string) returns (result: real)
    ensures result == Score(query, text)
  {
    var queryWords := NonEmptyWords(Split(ToLower(query), ' '));
    var textWords := Split(ToLower(text), ' ');
    var score := 0.0;
    for k := 0 to |queryWords|
      invariant score == TotalScore(queryWords[..k], textWords)
    {
      var queryWord := queryWords[k];
      var before := score;
      for l := 0 to |textWords|
        invariant score == before + RowScore(queryWord, textWords[..l])
      {
        var textWord := textWords[l];
        ghost var acc := score;
        if Contains(textWord, queryWord) || Contains(queryWord, textWord) {
          score := score + 1.0;
        }
        if |textWord| > 2 && |queryWord| > 2 {
          var similarity := GetEditDistance(queryWord, textWord);
          if similarity > 0.7 {
            score := score + similarity * 0.5;
          }
        }
        assert score == acc + PairScore(queryWord, textWord);
        RowScoreStep(queryWord, textWords, l);
      }
      assert textWords[..|textWords|] == textWords;
      assert queryWords[..k + 1][..k] == queryWords[..k];
    }
    assert queryWords[..|queryWords|] == queryWords;
    result := if |queryWords| > 0 then score / (|queryWords| as real) else 0.0;
  }

  /** One more text word adds its pair score to the row. */
  lemma RowScoreStep(q: string, ts: seq<string>, l: nat)
    requires l < |ts|
    ensures RowScore(q, ts[..l + 1]) == RowScore(q, ts[..l]) + PairScore(q, ts[l])
  {
    assert ts[..l + 1][..l] == ts[..l];
  }

  lemma {:induction false} RowScoreBounds(q: string, ts: seq<string>)
    ensures 0.0 <= RowScore(q, ts) <= 1.5 * (|ts| as real)
  {
    if ts != [] {
      RowScoreBounds(q, ts[..|ts| - 1]);
    }
  }

  /** A row is at least any one of its pairs. */
  lemma {:induction false} RowScoreAtLeastPair(q: string, ts: seq<string>, l: nat)
    requires l < |ts|
    ensures RowScore(q, ts) >= PairScore(q, ts[l])
  {
    var init := ts[..|ts| - 1];
    RowScoreBounds(q, init);
    if l < |ts| - 1 {
      RowScoreAtLeastPair(q, init, l);
    }
  }

  /** Dividing by a positive count keeps the order of two reals. */
  lemma DivideKeepsOrder(x: real, y: real, n: real)
    requires n > 0.0 && x <= y
    ensures x / n <= y / n
  {
  }

  lemma DividePositive(x: real, n: real)
    requires x > 0.0 && n > 0.0
    ensures x / n > 0.0
  {
    assert (x / n) * n == x;
  }

  lemma MulDivCancel(b: real, n: real)
    requires n > 0.0
    ensures (b * n) / n == b
  {
  }

  lemma {:induction false} TotalScoreBounds(qs: seq<string>, ts: seq<string>)
    ensures 0.0 <= TotalScore(qs, ts) <= (1.5 * (|ts| as real)) * (|qs| as real)
  {
    TotalScoreWithin(qs, ts, 1.5 * (|ts| as real));
    ScaledIsProduct(1.5 * (|ts| as real), |qs|);
  }

  /** `b` added up `n` times. */
  function Scaled(b: real, n: nat): real {
    if n == 0 then 0.0 else Scaled(b, n - 1) + b
  }

  lemma {:induction false} ScaledIsProduct(b: real, n: nat)
    ensures Scaled(b, n) == b * (n as real)
  {
    if n > 0 {
      ScaledIsProduct(b, n - 1);
      assert b * (n as real) == b * ((n - 1) as real) + b;
    }
  }

  /** With every row within `b`, the total is within `b` per query word. */
  lemma {:induction false} TotalScoreWithin(qs: seq<string>, ts: seq<string>, b: real)
    requires b == 1.5 * (|ts| as real)
    ensures 0.0 <= TotalScore(qs, ts) <= Scaled(b, |qs|)
  {
    if qs != [] {
      var init := qs[..|qs| - 1];
      TotalScoreWithin(init, ts, b);
      RowScoreBounds(qs[|qs| - 1], ts);
      assert TotalScore(qs, ts) == TotalScore(init, ts) + RowScore(qs[|qs| - 1], ts);
      assert Scaled(b, |qs|) == Scaled(b, |init|) + b;
    }
  }

  /** The total is at least the row of any one query word. */
  lemma {:induction false} TotalScoreAtLeastRow(qs: seq<string>, ts: seq<string>, k: nat)
    requires k < |qs|
    ensures TotalScore(qs, ts) >= RowScore(qs[k], ts)
  {
    var init := qs[..|qs| - 1];
    TotalScoreBounds(init, ts);
    RowScoreBounds(qs[|qs| - 1], ts);
    if k < |qs| - 1 {
      TotalScoreAtLeastRow(init, ts, k);
    }
  }

  /** The score is never negative and at most 1.5 per text word. */
  lemma ScoreBounds(query: string, text: string)
    ensures 0.0 <= Score(query, text) <= 1.5 * (|TextWords(text)| as real)
  {
    var qs, ts := QueryWords(query), TextWords(text);
    if |qs| > 0 {
      TotalScoreWithin(qs, ts, 1.5 * (|ts| as real));
      AverageWithin(TotalScore(qs, ts), 1.5 * (|ts| as real), |qs|);
    }
  }

  /** A total within `b` per item averages to within `b`. */
  lemma AverageWithin(x: real, b: real, m: nat)
    requires m > 0 && 0.0 <= x <= Scaled(b, m)
    ensures 0.0 <= x / (m as real) <= b
  {
    var n := m as real;
    ScaledIsProduct(b, m);
    DivideKeepsOrder(0.0, x, n);
    DivideKeepsOrder(x, b * n, n);
    MulDivCancel(b, n);
  }

  /**
   * A query word contained in a text word (or the other way round) earns the
   * text at least one point per query word.
   */
  lemma SharedWordScores(query: string, text: string, k: nat, l: nat)
    requires k < |QueryWords(query)| && l < |TextWords(text)|
    requires Contains(TextWords(text)[l], QueryWords(query)[k]) || Contains(QueryWords(query)[k], TextWords(text)[l])
    ensures Score(query, text) >= 1.0 / (|QueryWords(query)| as real)
  {
    var qs, ts := QueryWords(query), TextWords(text);
    RowScoreAtLeastPair(qs[k], ts, l);
    TotalScoreAtLeastRow(qs, ts, k);
    DivideKeepsOrder(1.0, TotalScore(qs, ts), |qs| as real);
  }

  /** Splitting a run of separators gives only empty pieces. */
  lemma {:induction false} SplitSeparatorsOnly(s: string, sep: char)
    requires forall i :: 0 <= i < |s| ==> s[i] == sep
    ensures forall k :: 0 <= k < |Split(s, sep)| ==> Split(s, sep)[k] == ""
    decreases |s|
  {
    if s != [] {
      assert IndexOf(s, sep) == 0;
      SplitSeparatorsOnly(s[1..], sep);
    }
  }

  /** A query made of spaces only has no words and scores 0 against any text. */
  lemma SpacesOnlyScoresZero(query: string, text: string)
    requires forall i :: 0 <= i < |query| ==> query[i] == ' '
    ensures QueryWords(query) == []
    ensures Score(query, text) == 0.0
  {
    var lowered := ToLower(query);
    assert forall i :: 0 <= i < |lowered| ==> lowered[i] == ' ';
    SplitSeparatorsOnly(lowered, ' ');
    NoWordsAmongEmpties(Split(lowered, ' '));
  }

  lemma {:induction false} NoWordsAmongEmpties(words: seq<string>)
    requires forall k :: 0 <= k < |words| ==> words[k] == ""
    ensures NonEmptyWords(words) == []
  {
    if words != [] {
      NoWordsAmongEmpties(words[1..]);
    }
  }

  // ---------------------------------------------------------------------------
  // Empty text words

  /** A query word contains the empty word, so an empty text word adds 1 to every query word's row. */
  lemma {:induction false} TotalScoreWithEmptyWord(qs: seq<string>, ts: seq<string>)
    requires "" in ts
    ensures TotalScore(qs, ts) >= |qs| as real
  {
    if qs != [] {
      var l :| 0 <= l < |ts| && ts[l] == "";
      ContainsEmpty(qs[|qs| - 1]);
      RowScoreAtLeastPair(qs[|qs| - 1], ts, l);
      TotalScoreWithEmptyWord(qs[..|qs| - 1], ts);
    }
  }

  /**
   * As written, a text with an empty word (two spaces in a row, or an empty
   * field) scores at least 1 against every query that has a word, whatever
   * the words are.
   */
  lemma EmptyTextWordMatchesAll(query: string, text: string)
    requires |QueryWords(query)| > 0 && "" in TextWords(text)
    ensures Score(query, text) >= 1.0
  {
    var qs, ts := QueryWords(query), TextWords(text);
    var n := |qs| as real;
    TotalScoreWithEmptyWord(qs, ts);
    DivideKeepsOrder(1.0 * n, TotalScore(qs, ts), n);
    MulDivCancel(1.0, n);
  }

  lemma ExampleQueryWords()
    ensures QueryWords("zzz") == ["zzz"]
  {
    assert ToLower("zzz") == "zzz";
    assert Split("zzz", ' ') == ["zzz"];
  }

  lemma ExampleSplitTail()
    ensures Split(" b", ' ') == ["", "b"]
  {
    assert IndexOf(" b", ' ') == 0 && " b"[1..] == "b" && " b"[..0] == "";
    assert Split("b", ' ') == ["b"];
  }

  lemma ExampleSplit()
    ensures Split("a  b", ' ') == ["a", "", "b"]
  {
    var text := "a  b";
    assert IndexOf(text, ' ') == 1;
    assert text[2..] == " b" && text[..1] == "a";
    ExampleSplitTail();
  }

  lemma ExampleNonEmpty()
    ensures NonEmptyWords(["a", "", "b"]) == ["a", "b"]
  {
    assert ["a", "", "b"][1..] == ["", "b"] && ["", "b"][1..] == ["b"];
  }

  /** The text `"a  b"` has the words `a`, `` and `b`, of which the corrected score keeps `a` and `b`. */
  lemma ExampleTextWords()
    ensures TextWords("a  b") == ["a", "", "b"]
    ensures FixedTextWords("a  b") == ["a", "b"]
  {
    ExampleLower();
    ExampleSplit();
    ExampleNonEmpty();
  }

  lemma ExampleLower()
    ensures ToLower("a  b") == "a  b"
  {
  }

  /** The input that shows it: `"zzz"` shares nothing with `"a  b"` and still scores at least 1. */
  lemma UnrelatedQueryScores()
    ensures Score("zzz", "a  b") >= 1.0
  {
    ExampleQueryWords();
    ExampleTextWords();
    EmptyTextWordMatchesAll("zzz", "a  b");
  }

  /** With empty text words dropped, the same query scores 0 against the same text. */
  lemma UnrelatedQueryFixed()
    ensures FixedScore("zzz", "a  b") == 0.0
  {
    ExampleQueryWords();
    ExampleTextWords();
    NotRelatedToZzz("a");
    NotRelatedToZzz("b");
    FixedScoreUnrelated("zzz", "a  b");
  }

  lemma NotRelatedToZzz(t: string)
    requires t == "a" || t == "b"
    ensures !Related("zzz", t)
  {
    ContainsIff(t, "zzz");
    ContainsIff("zzz", t);
    forall i | 0 <= i < 3 ensures !OccursAt("zzz", t, i) {
      assert "zzz"[i..i + 1] == "z";
    }
  }

  /** Joining the fields with spaces puts two spaces around an empty middle field. */
  lemma JoinedEmptyFieldGivesEmptyWord(fields: seq<string>, k: nat)
    requires 0 < k < |fields| - 1 && fields[k] == ""
    ensures "" in TextWords(Join(fields, ' '))
  {
    var joined := Join(fields, ' ');
    JoinEmptyPart(fields, ' ', k);
    var i :| 0 <= i && i + 1 < |joined| && joined[i] == ' ' && joined[i + 1] == ' ';
    SplitDoubleSeparator(ToLower(joined), ' ', i);
  }

  /** A query with a character other than whitespace has a word. */
  lemma NonBlankHasWords(query: string)
    requires !IsBlank(query)
    ensures |QueryWords(query)| > 0
  {
    var i :| 0 <= i < |query| && !IsSpace(query[i]);
    var parts := Split(ToLower(query), ' ');
    SplitKeepsNonSeparator(ToLower(query), ' ', i);
    var k :| 0 <= k < |parts| && parts[k] != "";
    assert parts[k] in NonEmptyWords(parts);
  }

  // ---------------------------------------------------------------------------
  // The score with empty text words dropped

  /** The text words as the query words are taken: lower-cased, split on single spaces, empty pieces dropped. */
  function FixedTextWords(text: string): (ts: seq<string>)
    ensures forall l :: 0 <= l < |ts| ==> ts[l] != ""
    ensures forall w :: w in ts <==> w in TextWords(text) && w != ""
  {
    NonEmptyWords(Split(ToLower(text), ' '))
  }

  /** The score the search evidently means: the pair scores over non-empty words only. */
  function FixedScore(query: string, text: string): real
  {
    var qs := QueryWords(query);
    if |qs| > 0 then TotalScore(qs, FixedTextWords(text)) / (|qs| as real) else 0.0
  }

  /** One word contains the other, or both are longer than two characters and similar above 0.7. */
  predicate Related(q: string, t: string) {
    Contains(t, q) || Contains(q, t) || (|t| > 2 && |q| > 2 && Similarity(q, t) > 0.7)
  }

  /** A pair adds something exactly when its words are related. */
  lemma PairScorePositive(q: string, t: string)
    ensures PairScore(q, t) > 0.0 <==> Related(q, t)
  {
  }

  /** No related pair means a zero row. */
  lemma {:induction false} RowScoreZero(q: string, ts: seq<string>)
    requires forall l :: 0 <= l < |ts| ==> !Related(q, ts[l])
    ensures RowScore(q, ts) == 0.0
  {
    if ts != [] {
      PairScorePositive(q, ts[|ts| - 1]);
      RowScoreZero(q, ts[..|ts| - 1]);
    }
  }

  lemma {:induction false} TotalScoreZero(qs: seq<string>, ts: seq<string>)
    requires forall k, l :: 0 <= k < |qs| && 0 <= l < |ts| ==> !Related(qs[k], ts[l])
    ensures TotalScore(qs, ts) == 0.0
  {
    if qs != [] {
      TotalScoreZero(qs[..|qs| - 1], ts);
      RowScoreZero(qs[|qs| - 1], ts);
    }
  }

  /** A related pair of a query word and a non-empty text word makes the corrected score positive. */
  lemma {:induction false} FixedScoreRelatedPair(query: string, text: string, k: nat, l: nat)
    requires k < |QueryWords(query)| && l < |FixedTextWords(text)|
    requires Related(QueryWords(query)[k], FixedTextWords(text)[l])
    ensures FixedScore(query, text) > 0.0
  {
    var qs, ts := QueryWords(query), FixedTextWords(text);
    PairScorePositive(qs[k], ts[l]);
    RowScoreAtLeastPair(qs[k], ts, l);
    TotalScoreAtLeastRow(qs, ts, k);
    DividePositive(TotalScore(qs, ts), |qs| as real);
  }

  /** Without a related pair the corrected score is 0. */
  lemma {:induction false} FixedScoreUnrelated(query: string, text: string)
    requires forall k, l :: 0 <= k < |QueryWords(query)| && 0 <= l < |FixedTextWords(text)| ==>
      !Related(QueryWords(query)[k], FixedTextWords(text)[l])
    ensures FixedScore(query, text) == 0.0
  {
    TotalScoreZero(QueryWords(query), FixedTextWords(text));
  }

  /**
   * With empty text words dropped, a text scores above 0 exactly when some
   * query word and some non-empty text word are related; otherwise it
   * scores 0.
   */
  lemma FixedScorePositive(query: string, text: string)
    ensures FixedScore(query, text) >= 0.0
    ensures FixedScore(query, text) > 0.0 <==>
      exists q, t :: q in QueryWords(query) && t in TextWords(text) && t != "" && Related(q, t)
  {
    var qs, ts := QueryWords(query), FixedTextWords(text);
    TotalScoreBounds(qs, ts);
    if |qs| > 0 {
      DivideKeepsOrder(0.0, TotalScore(qs, ts), |qs| as real);
    }
    if exists q, t :: q in qs && t in TextWords(text) && t != "" && Related(q, t) {
      var q, t :| q in qs && t in TextWords(text) && t != "" && Related(q, t);
      var k :| 0 <= k < |qs| && qs[k] == q;
      var l :| 0 <= l < |ts| && ts[l] == t;
      FixedScoreRelatedPair(query, text, k, l);
    } else {
      forall k, l | 0 <= k < |qs| && 0 <= l < |ts| ensures !Related(qs[k], ts[l]) {
        assert qs[k] in qs && ts[l] in TextWords(text);
      }
      FixedScoreUnrelated(query, text);
    }
  }

  /**
   * With empty text words dropped, a query word and a non-empty text word
   * that contain one another still earn the text at least one point per
   * query word.
   */
  lemma FixedSharedWordScores(query: string, text: string, k: nat, l: nat)
    requires k < |QueryWords(query)| && l < |FixedTextWords(text)|
    requires Contains(FixedTextWords(text)[l], QueryWords(query)[k]) || Contains(QueryWords(query)[k], FixedTextWords(text)[l])
    ensures FixedScore(query, text) >= 1.0 / (|QueryWords(query)| as real)
  {
    var qs, ts := QueryWords(query), FixedTextWords(text);
    RowScoreAtLeastPair(qs[k], ts, l);
    TotalScoreAtLeastRow(qs, ts, k);
    DivideKeepsOrder(1.0, TotalScore(qs, ts), |qs| as real);
  }

  // ---------------------------------------------------------------------------
  // searchCharacters and getCharactersByCategory

  /**
   * The searchable text: the fields joined with spaces, then lower-cased;
   * the name and the description occur in it, lower-cased.
   */
  function SearchableText(c: Character): (text: string)
    ensures ToLower(text) == text
    ensures Contains(text, ToLower(c.name)) && Contains(text, ToLower(c.description))
  {
    var described := (d: Described) => d.name + " " + d.description;
    var fields :=
      [c.name, c.nameKorean, c.scientificName, c.description,
       OrDefault(c.detailedDescription, ""), c.origin, c.catchphrase]
      + c.keywords.GetOr([])
      + c.category
      + c.personality.GetOr([])
      + c.abilities
      + Apply(c.abilitiesDetails.GetOr([]), described)
      + c.memeQuotes.GetOr([])
      + Apply(c.memes.GetOr([]), described)
      + c.trivia.GetOr([])
      + c.tags.GetOr([]);
    JoinContainsPart(fields, ' ', 0);
    JoinContainsPart(fields, ' ', 3);
    LowerKeepsContains(Join(fields, ' '), c.name);
    LowerKeepsContains(Join(fields, ' '), c.description);
    ToLowerIdempotent(Join(fields, ' '));
    ToLower(Join(fields, ' '))
  }

  /** `xs.map(f)`. */
  function Apply<A, B>(xs: seq<A>, f: A -> B): (r: seq<B>)
    ensures |r| == |xs| && forall i :: 0 <= i < |xs| ==> r[i] == f(xs[i])
  {
    seq(|xs|, i requires 0 <= i < |xs| => f(xs[i]))
  }

  /** The relevance of a character to a query. */
  function CharacterScore(query: string, c: Character): real {
    Score(query, SearchableText(c))
  }

  /** The sort key of a search: a character's score for this query. */
  function ScoreKey(query: string): Character -> real {
    c => CharacterScore(query, c)
  }

  /** The characters scoring above 0.2, in catalogue order. */
  function Relevant(all: seq<Character>, query: string): (r: seq<Character>)
    ensures forall i :: 0 <= i < |r| ==> CharacterScore(query, r[i]) > 0.2
    ensures forall c :: c in r <==> c in all && CharacterScore(query, c) > 0.2
    ensures IsSubsequence(r, all)
  {
    if all == [] then []
    else
      var rest := Relevant(all[1..], query);
      if CharacterScore(query, all[0]) > 0.2 then [all[0]] + rest
      else rest
  }

  /**
   * `searchCharacters`: everything for a blank query, otherwise the relevant
   * characters ranked by score, ties kept in catalogue order.
   */
  function SearchCharacters(all: seq<Character>, query: string): (found: seq<Character>)
    ensures IsBlank(query) ==> found == all
  {
    if IsBlank(query) then all else RankBy(Relevant(all, query), ScoreKey(query))
  }

  /** A non-blank search lists its characters in non-increasing score order. */
  lemma SearchSorted(all: seq<Character>, query: string)
    requires !IsBlank(query)
    ensures var found := SearchCharacters(all, query);
      forall i, j :: 0 <= i < j < |found| ==> CharacterScore(query, found[i]) >= CharacterScore(query, found[j])
  {
    var key := ScoreKey(query);
    RankBySorted(Relevant(all, query), key);
    var found := SearchCharacters(all, query);
    forall i, j | 0 <= i < j < |found| ensures CharacterScore(query, found[i]) >= CharacterScore(query, found[j]) {
      assert key(found[i]) >= key(found[j]);
    }
  }

  /** A non-blank search finds exactly the characters scoring above 0.2. */
  lemma SearchFindsRelevant(all: seq<Character>, query: string)
    requires !IsBlank(query)
    ensures var found := SearchCharacters(all, query);
      && (forall i :: 0 <= i < |found| ==> CharacterScore(query, found[i]) > 0.2)
      && (forall c :: c in found <==> c in all && CharacterScore(query, c) > 0.2)
  {
    var relevant := Relevant(all, query);
    RankByMembers(relevant, ScoreKey(query));
    var found := SearchCharacters(all, query);
    forall i | 0 <= i < |found| ensures CharacterScore(query, found[i]) > 0.2 {
      assert found[i] in relevant;
    }
  }

  /**
   * A non-blank search returns exactly the characters scoring above 0.2,
   * each as often as in the catalogue, in non-increasing score order, with
   * equal scores in catalogue order.
   */
  lemma SearchRanksRelevant(all: seq<Character>, query: string)
    requires !IsBlank(query)
    ensures var found := SearchCharacters(all, query);
      && (forall i :: 0 <= i < |found| ==> CharacterScore(query, found[i]) > 0.2)
      && (forall i, j :: 0 <= i < j < |found| ==> CharacterScore(query, found[i]) >= CharacterScore(query, found[j]))
      && (forall c :: c in found <==> c in all && CharacterScore(query, c) > 0.2)
      && multiset(found) == multiset(Relevant(all, query))
      && (forall k :: WithKey(found, ScoreKey(query), k) == WithKey(Relevant(all, query), ScoreKey(query), k))
  {
    var relevant, key := Relevant(all, query), ScoreKey(query);
    SearchSorted(all, query);
    SearchFindsRelevant(all, query);
    RankByPermutes(relevant, key);
    forall k ensures WithKey(SearchCharacters(all, query), key, k) == WithKey(relevant, key, k) {
      RankByStable(relevant, key, k);
    }
  }

  /**
   * As written, a character without a detailed description has an empty
   * field in the middle of its searchable text, so every non-blank search
   * returns it.
   */
  lemma MissingDetailAlwaysFound(all: seq<Character>, query: string, c: Character)
    requires c in all && !Truthy(c.detailedDescription) && !IsBlank(query)
    ensures CharacterScore(query, c) >= 1.0
    ensures c in SearchCharacters(all, query)
  {
    var described := (d: Described) => d.name + " " + d.description;
    var fields :=
      [c.name, c.nameKorean, c.scientificName, c.description,
       OrDefault(c.detailedDescription, ""), c.origin, c.catchphrase]
      + c.keywords.GetOr([])
      + c.category
      + c.personality.GetOr([])
      + c.abilities
      + Apply(c.abilitiesDetails.GetOr([]), described)
      + c.memeQuotes.GetOr([])
      + Apply(c.memes.GetOr([]), described)
      + c.trivia.GetOr([])
      + c.tags.GetOr([]);
    assert SearchableText(c) == ToLower(Join(fields, ' '));
    assert fields[4] == "";
    JoinedEmptyFieldGivesEmptyWord(fields, 4);
    var text := ToLower(Join(fields, ' '));
    assert TextWords(SearchableText(c)) == Split(ToLower(text), ' ');
    assert ToLower(text) == text by {
      ToLowerIdempotent(Join(fields, ' '));
    }
    NonBlankHasWords(query);
    EmptyTextWordMatchesAll(query, SearchableText(c));
    SearchFindsRelevant(all, query);
  }

  /** No character appears in a search result more often than in the catalogue. */
  lemma {:induction false} RelevantAtMostOnce(all: seq<Character>, query: string)
    ensures multiset(Relevant(all, query)) <= multiset(all)
  {
    if all != [] {
      RelevantAtMostOnce(all[1..], query);
      assert all == [all[0]] + all[1..];
    }
  }

  /** `characters.filter(char => char.category.includes(category))`. */
  function InCategory(all: seq<Character>, category: string): (r: seq<Character>)
    ensures forall i :: 0 <= i < |r| ==> category in r[i].category
    ensures forall c :: c in r <==> c in all && category in c.category
    ensures IsSubsequence(r, all)
  {
    if all == [] then []
    else
      var rest := InCategory(all[1..], category);
      if category in all[0].category then [all[0]] + rest
      else rest
  }

  /** `getCharactersByCategory`: the whole catalogue for `'all'`. */
  function GetCharactersByCategory(all: seq<Character>, category: string): (r: seq<Character>)
    ensures category == "all" ==> r == all
    ensures category != "all" ==> forall c :: c in r <==> c in all && category in c.category
    ensures IsSubsequence(r, all)
  {
    if category == "all" then SubsequenceOfSelf(all); all else InCategory(all, category)
  }

  // ---------------------------------------------------------------------------
  // The search panel

  /** The list a search starts from: the search result for a query, else the catalogue. */
  function Base(all: seq<Character>, query: string): seq<Character> {
    if !IsBlank(query) then SearchCharacters(all, query) else GetCharactersByCategory(all, "all")
  }

  /**
   * The `searchResults` memo: nothing for a blank query under `'all'`,
   * otherwise the starting list narrowed to the selected category, in order.
   */
  function SearchResults(all: seq<Character>, query: string, category: string): (r: seq<Character>)
    ensures IsBlank(query) && category == "all" ==> r == []
    ensures category != "all" ==> forall i :: 0 <= i < |r| ==> category in r[i].category
    ensures IsSubsequence(r, Base(all, query))
    ensures !(IsBlank(query) && category == "all") ==>
      forall c :: c in r <==> c in Base(all, query) && (category == "all" || category in c.category)
  {
    if IsBlank(query) && category == "all" then EmptySubsequence(Base(all, query)); []
    else
      var results := Base(all, query);
      if category != "all" then InCategory(results, category)
      else SubsequenceOfSelf(results); results
  }

  /** `query.trim().length > 0 || selectedCategory !== 'all'`. */
  predicate Searching(query: string, category: string) {
    !IsBlank(query) || category != "all"
  }

  /** A search that is not active shows nothing; an active one starts from the search or the catalogue. */
  lemma IdleShowsNothing(all: seq<Character>, query: string, category: string)
    ensures !Searching(query, category) <==> IsBlank(query) && category == "all"
    ensures !Searching(query, category) ==> SearchResults(all, query, category) == []
  {
  }

  /** The panel's state: the query box and the selected category. */
  class SearchPanel {
    const characters: seq<Character>
    var query: string
    var selectedCategory: string

    constructor(characters: seq<Character>)
      ensures this.characters == characters
      ensures query == "" && selectedCategory == "all"
    {
      this.characters := characters;
      query := "";
      selectedCategory := "all";
    }

    /** The list handed to `onResults`. */
    function Results(): seq<Character>
      reads this
    {
      SearchResults(characters, query, selectedCategory)
    }

    /** The flag handed to `onSearchStateChange`. */
    predicate IsSearching()
      reads this
    {
      Searching(query, selectedCategory)
    }

    method SetQuery(q: string)
      modifies this
      ensures query == q && selectedCategory == old(selectedCategory)
    {
      query := q;
    }

    method SetCategory(category: string)
      modifies this
      ensures selectedCategory == category && query == old(query)
    {
      selectedCategory := category;
    }

    /** `clearSearch`: back to an empty query under `'all'`, which shows nothing. */
    method ClearSearch()
      modifies this
      ensures query == "" && selectedCategory == "all"
      ensures Results() == [] && !IsSearching()
    {
      query := "";
      selectedCategory := "all";
    }
  }
}
