/**
 * Keyword density of a page: keep the letters, digits and whitespace of the
 * raw HTML, split it into words, keep the words longer than three UTF-8
 * bytes, lowercase them and count them; each distinct word's share of the
 * kept words is reported as a percentage.
 *
 * `char::is_alphanumeric` and `str::to_lowercase` are Unicode tables; they
 * enter as the parameters `isAlnum` and `lower`.
 */
module Keywords {
  import opened RustStr

  /** The characters of `s` that are alphanumeric or whitespace, in order. */
  function KeptChars(s: string, isAlnum: char -> bool): (r: string)
    ensures |r| <= |s|
    ensures forall i :: 0 <= i < |r| ==> isAlnum(r[i]) || IsWhitespace(r[i])
    decreases |s|
  {
    if s == [] then []
    else
      var c := s[|s| - 1];
      KeptChars(s[..|s| - 1], isAlnum) + (if isAlnum(c) || IsWhitespace(c) then [c] else [])
  }

  lemma {:induction false} KeptCharsAppend(a: string, b: string, isAlnum: char -> bool)
    ensures KeptChars(a + b, isAlnum) == KeptChars(a, isAlnum) + KeptChars(b, isAlnum)
    decreases |b|
  {
    if b == [] {
      assert a + b == a;
    } else {
      assert (a + b)[..|a + b| - 1] == a + b[..|b| - 1];
      KeptCharsAppend(a, b[..|b| - 1], isAlnum);
    }
  }

  /** One character is kept exactly when it is alphanumeric or whitespace. */
  lemma KeptCharsSingle(c: char, isAlnum: char -> bool)
    ensures KeptChars([c], isAlnum) == if isAlnum(c) || IsWhitespace(c) then [c] else []
  {
    assert [c][..0] == [];
  }

  /** A string made only of kept characters passes the filter unchanged. */
  lemma {:induction false} KeptCharsKeepsKept(s: string, isAlnum: char -> bool)
    requires forall i :: 0 <= i < |s| ==> isAlnum(s[i]) || IsWhitespace(s[i])
    ensures KeptChars(s, isAlnum) == s
    decreases |s|
  {
    if s != [] {
      KeptCharsKeepsKept(s[..|s| - 1], isAlnum);
    }
  }

  /** Filtering is idempotent. */
  lemma KeptCharsIdempotent(s: string, isAlnum: char -> bool)
    ensures KeptChars(KeptChars(s, isAlnum), isAlnum) == KeptChars(s, isAlnum)
  {
    KeptCharsKeepsKept(KeptChars(s, isAlnum), isAlnum);
  }

  /** The words of more than three UTF-8 bytes, in order. */
  function LongWords(ws: seq<string>): (r: seq<string>)
    ensures |r| <= |ws|
    ensures forall i :: 0 <= i < |r| ==> ByteLen(r[i]) > 3
    ensures forall w :: w in r <==> w in ws && ByteLen(w) > 3
    ensures forall w :: Occurrences(r, w) == if ByteLen(w) > 3 then Occurrences(ws, w) else 0
    decreases |ws|
  {
    if ws == [] then []
    else
      var w := ws[|ws| - 1];
      var front := LongWords(ws[..|ws| - 1]);
      LongWordsStep(ws, front);
      if ByteLen(w) > 3 then front + [w] else front
  }

  /** One step of the filter keeps every long word's occurrences and no short word's. */
  lemma LongWordsStep(ws: seq<string>, front: seq<string>)
    requires ws != []
    requires forall x :: Occurrences(front, x) == if ByteLen(x) > 3 then Occurrences(ws[..|ws| - 1], x) else 0
    ensures var w := ws[|ws| - 1];
      var r := if ByteLen(w) > 3 then front + [w] else front;
      forall x :: Occurrences(r, x) == if ByteLen(x) > 3 then Occurrences(ws, x) else 0
  {
    OccurrencesPush(front, ws[|ws| - 1]);
  }

  lemma OccurrencesPush(ws: seq<string>, t: string)
    ensures forall w :: Occurrences(ws + [t], w) == Occurrences(ws, w) + (if t == w then 1 else 0)
  {
    assert (ws + [t])[..|ws|] == ws;
  }

  /** The words that enter the count: `words` in `calculate_keyword_density`. */
  function Tokens(html: string, isAlnum: char -> bool): seq<string> {
    LongWords(SplitWhitespace(KeptChars(html, isAlnum)))
  }

  /** A token is a non-empty run of kept non-whitespace characters of more than three bytes. */
  lemma TokensAreLongWords(html: string, isAlnum: char -> bool)
    ensures forall w :: w in Tokens(html, isAlnum) ==> IsWord(w) && ByteLen(w) > 3
  {
  }

  /** Every word lowered, in order. */
  function Lowered(ws: seq<string>, lower: string -> string): (r: seq<string>)
    ensures |r| == |ws|
    ensures forall i :: 0 <= i < |ws| ==> r[i] == lower(ws[i])
    decreases |ws|
  {
    if ws == [] then [] else Lowered(ws[..|ws| - 1], lower) + [lower(ws[|ws| - 1])]
  }

  lemma LoweredPush(ws: seq<string>, i: nat, lower: string -> string)
    requires i < |ws|
    ensures Lowered(ws[..i + 1], lower) == Lowered(ws[..i], lower) + [lower(ws[i])]
  {
    assert ws[..i + 1][..i] == ws[..i];
  }

  /** How many times `w` occurs in `ws`. */
  function Occurrences(ws: seq<string>, w: string): (n: nat)
    ensures n <= |ws|
    ensures n > 0 <==> w in ws
    decreases |ws|
  {
    if ws == [] then 0
    else Occurrences(ws[..|ws| - 1], w) + (if ws[|ws| - 1] == w then 1 else 0)
  }

  /**
   * The word-count map: one key per distinct word, holding the number of
   * times the word occurs.
   */
  function Tally(ws: seq<string>): (m: map<string, nat>)
    ensures forall w :: w in m <==> w in ws
    ensures forall w :: w in m ==> m[w] == Occurrences(ws, w)
    decreases |ws|
  {
    if ws == [] then map[]
    else
      var m := Tally(ws[..|ws| - 1]);
      var w := ws[|ws| - 1];
      assert ws == ws[..|ws| - 1] + [w];
      m[w := if w in m then m[w] + 1 else 1]
  }

  /** `*word_count.entry(word).or_insert(0) += 1`. */
  function Bump(m: map<string, nat>, w: string): map<string, nat> {
    m[w := (if w in m then m[w] else 0) + 1]
  }

  /** Counting one more word bumps its entry. */
  lemma TallyPush(ws: seq<string>, w: string)
    ensures Tally(ws + [w]) == Bump(Tally(ws), w)
  {
    assert (ws + [w])[..|ws|] == ws;
  }

  /**
   * The sum of the values of a map. The key removed at each step is chosen
   * freely; `SumValuesRemove` shows the choice does not matter.
   */
  ghost function SumValues(m: map<string, nat>): nat
    decreases |m.Keys|
  {
    if m == map[] then 0
    else
      var k :| k in m;
      m[k] + SumValues(m - {k})
  }

  lemma {:induction false} SumValuesRemove(m: map<string, nat>, k: string)
    requires k in m
    ensures SumValues(m) == m[k] + SumValues(m - {k})
    decreases |m.Keys|
  {
    var j :| j in m && SumValues(m) == m[j] + SumValues(m - {j});
    if j != k {
      var mj, mk := m - {j}, m - {k};
      SumValuesRemove(mj, k);
      SumValuesRemove(mk, j);
      assert mj - {k} == mk - {j};
    }
  }

  /** Bumping a key adds one to the sum. */
  lemma SumValuesBump(m: map<string, nat>, w: string)
    ensures SumValues(Bump(m, w)) == SumValues(m) + 1
  {
    var b := Bump(m, w);
    SumValuesRemove(b, w);
    assert b - {w} == m - {w};
    if w in m {
      SumValuesRemove(m, w);
    } else {
      assert m - {w} == m;
    }
  }

  /** The counts add up to the number of words counted. */
  lemma {:induction false} TallySum(ws: seq<string>)
    ensures SumValues(Tally(ws)) == |ws|
    decreases |ws|
  {
    if ws != [] {
      var init := ws[..|ws| - 1];
      TallySum(init);
      TallyPush(init, ws[|ws| - 1]);
      assert init + [ws[|ws| - 1]] == ws;
      SumValuesBump(Tally(init), ws[|ws| - 1]);
    }
  }

  /** The percentage map built from the counts and the number of words. */
  function Densities(counts: map<string, nat>, total: nat): (d: map<string, real>)
    requires counts != map[] ==> total > 0
    ensures d.Keys == counts.Keys
  {
    map w | w in counts :: (counts[w] as real / total as real) * 100.0
  }

  /** What `calculate_keyword_density` returns. */
  function KeywordDensity(html: string, isAlnum: char -> bool, lower: string -> string): map<string, real> {
    var words := Tokens(html, isAlnum);
    var counts := Tally(Lowered(words, lower));
    assert counts != map[] ==> |words| > 0;
    Densities(counts, |words|)
  }

  /** The counting loop of `calculate_keyword_density`: one map update per word. */
  method CountWords(words: seq<string>, lower: string -> string) returns (wordCount: map<string, nat>)
    ensures wordCount == Tally(Lowered(words, lower))
  {
    wordCount := map[];
    var i := 0;
    while i < |words|
      invariant 0 <= i <= |words|
      invariant wordCount == Tally(Lowered(words[..i], lower))
    {
      var word := lower(words[i]);
      LoweredPush(words, i, lower);
      TallyPush(Lowered(words[..i], lower), word);
      wordCount := wordCount[word := (if word in wordCount then wordCount[word] else 0) + 1];
      i := i + 1;
    }
    assert words[..i] == words;
  }

  /**
   * `calculate_keyword_density`: filter, split and keep the long words,
   * count the lowered words, then turn each count into a percentage.
   */
  method CalculateKeywordDensity(html: string, isAlnum: char -> bool, lower: string -> string)
    returns (density: map<string, real>)
    ensures density == KeywordDensity(html, isAlnum, lower)
  {
    var words := Tokens(html, isAlnum);
    var wordCount := CountWords(words, lower);
    assert wordCount != map[] ==> |words| > 0;
    density := Densities(wordCount, |words|);
  }

  /**
   * The keys are exactly the lowered tokens, and each maps to its share of
   * the tokens in percent.
   */
  lemma KeywordDensityMeaning(html: string, isAlnum: char -> bool, lower: string -> string, w: string)
    ensures var words := Tokens(html, isAlnum);
      w in KeywordDensity(html, isAlnum, lower)
      <==> (exists i :: 0 <= i < |words| && w == lower(words[i]))
    ensures var words := Tokens(html, isAlnum);
      w in KeywordDensity(html, isAlnum, lower) ==>
        KeywordDensity(html, isAlnum, lower)[w]
        == (Occurrences(Lowered(words, lower), w) as real / |words| as real) * 100.0
  {
    var words := Tokens(html, isAlnum);
    var lw := Lowered(words, lower);
    if w in lw {
      var i :| 0 <= i < |lw| && lw[i] == w;
      assert w == lower(words[i]);
    }
  }

  /** The counts behind the densities add up to the number of tokens. */
  lemma CountsSumToTokens(html: string, isAlnum: char -> bool, lower: string -> string)
    ensures SumValues(Tally(Lowered(Tokens(html, isAlnum), lower))) == |Tokens(html, isAlnum)|
  {
    TallySum(Lowered(Tokens(html, isAlnum), lower));
  }

  /** The sum of the values of a map of reals, removing keys as `SumValues` does. */
  ghost function SumReals(m: map<string, real>): real
    decreases |m.Keys|
  {
    if m == map[] then 0.0
    else
      var k :| k in m;
      m[k] + SumReals(m - {k})
  }

  lemma {:induction false} SumRealsRemove(m: map<string, real>, k: string)
    requires k in m
    ensures SumReals(m) == m[k] + SumReals(m - {k})
    decreases |m.Keys|
  {
    var j :| j in m && SumReals(m) == m[j] + SumReals(m - {j});
    if j != k {
      var mj, mk := m - {j}, m - {k};
      SumRealsRemove(mj, k);
      SumRealsRemove(mk, j);
      assert mj - {k} == mk - {j};
    }
  }

  lemma PercentAdd(a: real, b: real, t: real)
    requires t > 0.0
    ensures (a / t) * 100.0 + (b / t) * 100.0 == ((a + b) / t) * 100.0
  {
  }

  lemma PercentWhole(t: real)
    requires t > 0.0
    ensures (t / t) * 100.0 == 100.0
  {
  }

  /** The percentages add up to the share of the summed counts. */
  lemma {:induction false} DensitySum(counts: map<string, nat>, total: nat)
    requires total > 0
    ensures SumReals(Densities(counts, total)) == (SumValues(counts) as real / total as real) * 100.0
    decreases |counts.Keys|
  {
    var d := Densities(counts, total);
    if counts != map[] {
      var k :| k in counts;
      var rest := counts - {k};
      assert d - {k} == Densities(rest, total);
      SumRealsRemove(d, k);
      SumValuesRemove(counts, k);
      DensitySum(rest, total);
      PercentAdd(counts[k] as real, SumValues(rest) as real, total as real);
    } else {
      assert d == map[];
    }
  }

  /** The percentages of a non-empty word list add up to exactly 100. */
  lemma WordDensitiesSumTo100(words: seq<string>, lower: string -> string)
    requires words != []
    ensures SumReals(Densities(Tally(Lowered(words, lower)), |words|)) == 100.0
  {
    TallySum(Lowered(words, lower));
    DensitySum(Tally(Lowered(words, lower)), |words|);
    PercentWhole(|words| as real);
  }

  /** Whenever some word is counted, the page's percentages add up to exactly 100. */
  lemma DensitiesSumTo100(html: string, isAlnum: char -> bool, lower: string -> string)
    requires Tokens(html, isAlnum) != []
    ensures SumReals(KeywordDensity(html, isAlnum, lower)) == 100.0
  {
    WordDensitiesSumTo100(Tokens(html, isAlnum), lower);
  }

  /** A page without any word of more than three bytes has an empty density map. */
  lemma NoTokensNoDensity(html: string, isAlnum: char -> bool, lower: string -> string)
    requires Tokens(html, isAlnum) == []
    ensures KeywordDensity(html, isAlnum, lower) == map[]
  {
  }
}
