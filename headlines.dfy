/**
 * The headline classifier of the market-trend page: every title is lower-cased and sorted
 * into Positive, Negative or Neutral by the first keyword list it contains as a whole word,
 * or left Unclassified; the counts of Positive and Negative titles then give the verdict.
 */
module Headlines {

  // ---------------------------------------------------------------------------
  // Lower case and whole-word search
  // ---------------------------------------------------------------------------

  /** `str.lower()` on one character, for the ASCII letters. */
  function LowerChar(c: char): (l: char)
    ensures !('A' <= l <= 'Z')
  {
    if 'A' <= c <= 'Z' then (c as int - 'A' as int + 'a' as int) as char else c
  }

  function Lower(s: string): (l: string)
    ensures |l| == |s| && forall k :: 0 <= k < |s| ==> l[k] == LowerChar(s[k])
  {
    seq(|s|, k requires 0 <= k < |s| => LowerChar(s[k]))
  }

  /** A character `\w` matches: a letter, a digit or the underscore. */
  predicate IsWordChar(c: char) {
    ('a' <= c <= 'z') || ('A' <= c <= 'Z') || ('0' <= c <= '9') || c == '_'
  }

  /** `w` occurs in `t` at p with a word boundary `\b` on both sides. */
  predicate WordAt(t: string, w: string, p: nat) {
    p + |w| <= |t| && t[p..p + |w|] == w &&
    (p == 0 || !IsWordChar(t[p - 1])) &&
    (p + |w| == |t| || !IsWordChar(t[p + |w|]))
  }

  /** `re.search(r"\b(w1|w2|...)\b", t)` finds a match. */
  predicate Search(t: string, words: seq<string>) {
    exists j, p :: 0 <= j < |words| && 0 <= p <= |t| && WordAt(t, words[j], p)
  }

  const PositiveWords: seq<string> := ["up", "rise", "gain", "positive", "bullish"]
  const NegativeWords: seq<string> := ["down", "fall", "drop", "negative", "bearish"]
  const NeutralWords: seq<string> := ["stable", "steady", "unchanged", "flat"]

  // ---------------------------------------------------------------------------
  // Classification
  // ---------------------------------------------------------------------------

  datatype Category = Positive | Negative | Neutral | Unclassified

  /** The category the loop gives one title: the lists are tried in the order positive,
      negative, neutral. */
  function Classify(title: string): Category {
    var t := Lower(title);
    if Search(t, PositiveWords) then Positive
    else if Search(t, NegativeWords) then Negative
    else if Search(t, NeutralWords) then Neutral
    else Unclassified
  }

  /** The number of titles of the given category. */
  function CountOf(titles: seq<string>, c: Category): (n: nat)
    ensures n <= |titles|
  {
    if |titles| == 0 then 0
    else CountOf(titles[..|titles| - 1], c) + (if Classify(titles[|titles| - 1]) == c then 1 else 0)
  }

  /** `get_stock_market_trend` over the titles of the search results: the counts and the
      (title, category) list. `neutral_count` is never incremented. */
  method GetStockMarketTrend(titles: seq<string>)
    returns (positiveCount: nat, negativeCount: nat, neutralCount: nat, articles: seq<(string, Category)>)
    ensures |articles| == |titles|
    ensures forall k :: 0 <= k < |titles| ==> articles[k] == (titles[k], Classify(titles[k]))
    ensures positiveCount == CountOf(titles, Positive) && negativeCount == CountOf(titles, Negative)
    ensures neutralCount == 0
  {
    positiveCount, negativeCount, neutralCount := 0, 0, 0;
    articles := [];
    var i := 0;
    while i < |titles|
      invariant 0 <= i <= |titles| && |articles| == i
      invariant forall k :: 0 <= k < i ==> articles[k] == (titles[k], Classify(titles[k]))
      invariant positiveCount == CountOf(titles[..i], Positive)
      invariant negativeCount == CountOf(titles[..i], Negative)
      invariant neutralCount == 0
    {
      ghost var expected := Classify(titles[i]);
      var title := Lower(titles[i]);
      var category := Unclassified;
      if Search(title, PositiveWords) {
        positiveCount := positiveCount + 1;
        category := Positive;
      } else if Search(title, NegativeWords) {
        negativeCount := negativeCount + 1;
        category := Negative;
      } else if Search(title, NeutralWords) {
        category := Neutral;
      }
      assert category == expected;
      articles := articles + [(titles[i], category)];
      CountOfNext(titles, i, Positive);
      CountOfNext(titles, i, Negative);
      i := i + 1;
    }
    assert titles[..i] == titles;
  }

  /** One more title adds one to the count of its own category. */
  lemma CountOfNext(titles: seq<string>, i: nat, c: Category)
    requires i < |titles|
    ensures CountOf(titles[..i + 1], c) == CountOf(titles[..i], c) + (if Classify(titles[i]) == c then 1 else 0)
  {
    assert titles[..i + 1][..i] == titles[..i];
  }

  // ---------------------------------------------------------------------------
  // The verdict
  // ---------------------------------------------------------------------------

  datatype Verdict = TrendUp | TrendDown | Stable | Mixed

  /** The if/elif chain under the counts. */
  function TrendVerdict(positiveCount: nat, negativeCount: nat, neutralCount: nat): Verdict {
    if positiveCount > negativeCount && positiveCount > neutralCount then TrendUp
    else if negativeCount > positiveCount && negativeCount > neutralCount then TrendDown
    else if neutralCount > positiveCount && neutralCount > negativeCount then Stable
    else Mixed
  }

  // ---------------------------------------------------------------------------
  // Properties
  // ---------------------------------------------------------------------------

  /** A verdict names the category with the strictly largest count, and "mixed" is given
      exactly when no count is strictly larger than both others. */
  lemma VerdictIsStrictMaximum(p: nat, n: nat, u: nat)
    ensures TrendVerdict(p, n, u) == TrendUp <==> p > n && p > u
    ensures TrendVerdict(p, n, u) == TrendDown <==> n > p && n > u
    ensures TrendVerdict(p, n, u) == Stable <==> u > p && u > n
    ensures TrendVerdict(p, n, u) == Mixed <==> !(p > n && p > u) && !(n > p && n > u) && !(u > p && u > n)
  {
  }

  /** With the counts the classifier returns, the page never says the market is stable, and
      it says "positive" exactly when more titles are Positive than Negative (and at least
      one is). */
  lemma NeverStable(titles: seq<string>)
    ensures TrendVerdict(CountOf(titles, Positive), CountOf(titles, Negative), 0) != Stable
    ensures TrendVerdict(CountOf(titles, Positive), CountOf(titles, Negative), 0) == TrendUp <==>
      CountOf(titles, Positive) > CountOf(titles, Negative)
    ensures TrendVerdict(CountOf(titles, Positive), CountOf(titles, Negative), 0) == TrendDown <==>
      CountOf(titles, Negative) > CountOf(titles, Positive)
  {
  }

  /** Each title has one category, so the counts of two categories never add up to more than
      the number of titles. */
  lemma {:induction false} CountsWithinTitles(titles: seq<string>, a: Category, b: Category)
    requires a != b
    ensures CountOf(titles, a) + CountOf(titles, b) <= |titles|
  {
    if |titles| > 0 {
      CountsWithinTitles(titles[..|titles| - 1], a, b);
    }
  }

  /** The categories of all the titles add up to the number of titles. */
  lemma {:induction false} CountsPartition(titles: seq<string>)
    ensures CountOf(titles, Positive) + CountOf(titles, Negative) + CountOf(titles, Neutral) +
            CountOf(titles, Unclassified) == |titles|
  {
    if |titles| > 0 {
      CountsPartition(titles[..|titles| - 1]);
    }
  }

  /** Lower-casing twice changes nothing, so a title and its lower-case form get the same
      category: the match ignores case. */
  lemma ClassifyIgnoresCase(title: string)
    ensures Lower(Lower(title)) == Lower(title)
    ensures Classify(Lower(title)) == Classify(title)
  {
    assert Lower(Lower(title)) == Lower(title);
  }

  /** A whole-word match survives text appended after a space, so a title that is Positive
      stays Positive when more words follow it. */
  lemma SearchKeptByAppend(t: string, u: string, words: seq<string>)
    requires Search(t, words)
    ensures Search(t + " " + u, words)
  {
    var j, p :| 0 <= j < |words| && 0 <= p <= |t| && WordAt(t, words[j], p);
    var w := words[j];
    var t' := t + " " + u;
    assert t'[p..p + |w|] == t[p..p + |w|];
    assert p > 0 ==> t'[p - 1] == t[p - 1];
    assert p + |w| < |t| ==> t'[p + |w|] == t[p + |w|];
    assert p + |w| == |t| ==> t'[p + |w|] == ' ';
    assert WordAt(t', w, p);
  }

  lemma PositiveKeptByAppend(title: string, more: string)
    requires Classify(title) == Positive
    ensures Classify(title + " " + more) == Positive
  {
    var t := Lower(title);
    assert Lower(title + " " + more) == t + " " + Lower(more);
    SearchKeptByAppend(t, Lower(more), PositiveWords);
  }

  /** A keyword inside a longer word does not count: "update" holds "up", but not as a
      word. */
  lemma KeywordInsideWord()
    ensures !WordAt("update", "up", 0)
    ensures WordAt("go up", "up", 3)
  {
  }

  /** "Stocks up" is Positive, whatever the case of its letters. */
  lemma StocksUpIsPositive()
    ensures Classify("Stocks UP") == Positive
  {
    assert Lower("Stocks UP") == "stocks up";
    assert PositiveWords[0] == "up" && WordAt("stocks up", PositiveWords[0], 7);
  }

  /** A title with both a negative and a positive word is Positive: that list is tried first. */
  lemma PositiveBeatsNegative()
    ensures Classify("Stocks Down, bonds up") == Positive
  {
    assert Lower("Stocks Down, bonds up") == "stocks down, bonds up";
    assert PositiveWords[0] == "up" && WordAt("stocks down, bonds up", PositiveWords[0], 19);
  }

  /** "Markets fall" is Negative. */
  lemma MarketsFallIsNegative()
    ensures Classify("Markets fall") == Negative
  {
    assert Lower("Markets fall") == "markets fall";
    assert NegativeWords[1] == "fall" && WordAt("markets fall", NegativeWords[1], 8);
    NoPositiveIn("markets fall");
  }

  /** "markets fall" holds no positive keyword anywhere. */
  lemma NoPositiveIn(t: string)
    requires t == "markets fall"
    ensures !Search(t, PositiveWords)
  {
    forall j, p | 0 <= j < |PositiveWords| && 0 <= p <= |t|
      ensures !WordAt(t, PositiveWords[j], p)
    {
      var w := PositiveWords[j];
      if p + |w| <= |t| && t[p..p + |w|] == w {
        assert t[p] == w[0];
        assert t[p + 1] == w[1];
      }
    }
  }
}
