/** Corpus statistics of unsupervised.py: the token stream (get_tokens), the
    vocabulary (get_unique_words) and the feature words
    (get_frequent_words). A corpus is the list of its lines. */
module Vocabulary {
  import opened Builtins

  /** How many of the most frequent words get_frequent_words skips. */
  const ChopOffDistance: nat := 25

  /** The words of a list that are not empty, in order. */
  function NonEmpty(ws: seq<string>): (r: seq<string>)
    ensures forall w :: w in r <==> w in ws && w != ""
  {
    if ws == [] then []
    else
      assert ws == ws[..|ws| - 1] + [ws[|ws| - 1]];
      NonEmpty(ws[..|ws| - 1]) + (if ws[|ws| - 1] != "" then [ws[|ws| - 1]] else [])
  }

  lemma NonEmptySnoc(ws: seq<string>, j: nat)
    requires j < |ws|
    ensures NonEmpty(ws[..j + 1]) == NonEmpty(ws[..j]) + (if ws[j] != "" then [ws[j]] else [])
  {
    assert ws[..j + 1][..j] == ws[..j];
  }

  /** Every line of a corpus as the tagger splits it. */
  function SplitLines(lines: seq<string>): (sents: seq<seq<string>>)
    ensures |sents| == |lines|
  {
    seq(|lines|, k requires 0 <= k < |lines| => Words(lines[k]))
  }

  /** The non-empty words of split lines, in order. */
  function Flatten(sents: seq<seq<string>>): seq<string>
  {
    if sents == [] then []
    else Flatten(sents[..|sents| - 1]) + NonEmpty(sents[|sents| - 1])
  }

  /** The token stream of a corpus. */
  function TokensOf(lines: seq<string>): seq<string>
  {
    Flatten(SplitLines(lines))
  }

  lemma TokensOfSnoc(lines: seq<string>, i: nat)
    requires i < |lines|
    ensures TokensOf(lines[..i + 1]) == TokensOf(lines[..i]) + NonEmpty(Words(lines[i]))
  {
    var s := SplitLines(lines[..i + 1]);
    assert s[..i] == SplitLines(lines[..i]);
  }

  /** A token is exactly a non-empty word of some line. */
  lemma {:induction false} FlattenMembers(sents: seq<seq<string>>, t: string)
    ensures t in Flatten(sents) <==> t != "" && exists k :: 0 <= k < |sents| && t in sents[k]
  {
    if sents != [] {
      var p := sents[..|sents| - 1];
      FlattenMembers(p, t);
      if t in Flatten(p) {
        var k :| 0 <= k < |p| && t in p[k];
        assert sents[k] == p[k];
      }
      assert forall k :: 0 <= k < |p| ==> sents[k] == p[k];
    }
  }

  /** get_tokens on the lines of a file: extends the list line by line. */
  method GetTokens(lines: seq<string>) returns (tokens: seq<string>)
    ensures tokens == TokensOf(lines)
    ensures forall t :: t in tokens ==> t != ""
  {
    tokens := [];
    for i := 0 to |lines|
      invariant tokens == TokensOf(lines[..i])
    {
      var line := Words(lines[i]);
      tokens := tokens + NonEmpty(line);
      TokensOfSnoc(lines, i);
    }
    assert lines[..|lines|] == lines;
    forall t | t in tokens ensures t != "" {
      FlattenMembers(SplitLines(lines), t);
    }
  }

  /** One word of the scan of get_unique_words. */
  lemma DedupWordStep(before: seq<string>, ws: seq<string>, j: nat)
    requires j < |ws|
    ensures Dedup(before + NonEmpty(ws[..j + 1])) ==
            var d := Dedup(before + NonEmpty(ws[..j]));
            if ws[j] != "" && ws[j] !in d then d + [ws[j]] else d
  {
    NonEmptySnoc(ws, j);
    DedupSnoc(before + NonEmpty(ws[..j]), ws[j]);
    assert before + NonEmpty(ws[..j + 1]) ==
           if ws[j] != "" then (before + NonEmpty(ws[..j])) + [ws[j]] else before + NonEmpty(ws[..j]);
  }

  /** get_unique_words: every non-empty word once, in first-seen order. */
  method GetUniqueWords(lines: seq<string>) returns (wordTypes: seq<string>)
    ensures wordTypes == Dedup(TokensOf(lines))
    ensures NoDups(wordTypes)
    ensures forall w :: w in wordTypes <==> w in TokensOf(lines)
  {
    wordTypes := [];
    for i := 0 to |lines|
      invariant wordTypes == Dedup(TokensOf(lines[..i]))
    {
      var ws := Words(lines[i]);
      ghost var before := TokensOf(lines[..i]);
      assert before + NonEmpty(ws[..0]) == before;
      for j := 0 to |ws|
        invariant wordTypes == Dedup(before + NonEmpty(ws[..j]))
      {
        var word := ws[j];
        DedupWordStep(before, ws, j);
        if word != "" && word !in wordTypes {
          wordTypes := wordTypes + [word];
        }
      }
      assert ws[..|ws|] == ws;
      TokensOfSnoc(lines, i);
    }
    assert lines[..|lines|] == lines;
    DedupMembers(TokensOf(lines));
  }

  // ---------------------------------------------------------------------
  // The frequency ranking: Python's sorted(word_list.items(),
  // key=lambda item: item[1], reverse=True), which is stable, taken on the
  // positions of the dictionary's items (insertion order).

  /** Item a sorts before item b: a higher count, or an equal count and
      an earlier insertion. */
  predicate RanksBefore(cnt: seq<nat>, a: nat, b: nat)
    requires a < |cnt| && b < |cnt|
  {
    cnt[a] > cnt[b] || (cnt[a] == cnt[b] && a < b)
  }

  predicate Ranked(r: seq<nat>, cnt: seq<nat>)
  {
    (forall i :: 0 <= i < |r| ==> r[i] < |cnt|) &&
    forall i, j :: 0 <= i < j < |r| ==> RanksBefore(cnt, r[i], r[j])
  }

  /** Inserts item k, which came after every item of r, into the ranking r:
      after every item with a count at least k's. */
  function InsertRanked(r: seq<nat>, k: nat, cnt: seq<nat>): (s: seq<nat>)
    requires k < |cnt| && Ranked(r, cnt)
    requires forall i :: 0 <= i < |r| ==> r[i] < k
    ensures Ranked(s, cnt)
    ensures |s| == |r| + 1
    ensures forall x :: x in s <==> x in r || x == k
  {
    if r == [] then [k]
    else if cnt[r[0]] < cnt[k] then
      var s := [k] + r;
      assert forall j :: 0 < j < |s| ==> s[j] == r[j - 1];
      s
    else
      var rest := InsertRanked(r[1..], k, cnt);
      var s := [r[0]] + rest;
      assert r == [r[0]] + r[1..];
      forall i, j | 0 <= i < j < |s|
        ensures RanksBefore(cnt, s[i], s[j])
      {
        if i > 0 {
          assert s[i] == rest[i - 1] && s[j] == rest[j - 1];
        } else if s[j] != k {
          assert s[j] == rest[j - 1];
          assert s[j] in rest;
          assert s[j] in r[1..];
          var q :| 0 <= q < |r[1..]| && r[1..][q] == s[j];
          assert r[q + 1] == s[j];
        }
      }
      s
  }

  /** The stable descending sort of items 0..m-1 by count. */
  function RankByCount(cnt: seq<nat>, m: nat): (r: seq<nat>)
    requires m <= |cnt|
    ensures |r| == m && Ranked(r, cnt)
    ensures forall i :: 0 <= i < |r| ==> r[i] < m
    ensures forall k :: 0 <= k < m ==> k in r
  {
    if m == 0 then []
    else
      var p := RankByCount(cnt, m - 1);
      var r := InsertRanked(p, m - 1, cnt);
      assert forall i :: 0 <= i < |r| ==> r[i] in p || r[i] == m - 1;
      r
  }

  /** How many times w occurs in the token stream. */
  function Frequency(tokens: seq<string>, w: string): nat
  {
    multiset(tokens)[w]
  }

  /** The frequency of each vocabulary word, in vocabulary order. */
  function Counts(tokens: seq<string>): (cnt: seq<nat>)
    ensures |cnt| == |Dedup(tokens)|
  {
    var items := Dedup(tokens);
    seq(|items|, i requires 0 <= i < |items| => Frequency(tokens, items[i]))
  }

  /** The vocabulary ranked by frequency, equal frequencies in first-seen
      order: what sorted() makes of the dictionary of counts. */
  function FrequencyRanking(tokens: seq<string>): seq<string>
  {
    var items := Dedup(tokens);
    var order := RankByCount(Counts(tokens), |items|);
    seq(|order|, i requires 0 <= i < |order| => items[order[i]])
  }

  /** Word a is ahead of word b in the ranking: more frequent, or as
      frequent and seen first. */
  predicate FrequencyBefore(tokens: seq<string>, a: string, b: string)
    requires a in tokens && b in tokens
  {
    Frequency(tokens, a) > Frequency(tokens, b) ||
    (Frequency(tokens, a) == Frequency(tokens, b) && IndexOf(tokens, a) < IndexOf(tokens, b))
  }

  /** The ranking is a permutation of the vocabulary ordered by descending
      frequency, with ties in order of first appearance. */
  lemma FrequencyRankingOrdered(tokens: seq<string>)
    ensures |FrequencyRanking(tokens)| == |Dedup(tokens)|
    ensures forall w :: w in FrequencyRanking(tokens) <==> w in tokens
    ensures forall i, j :: 0 <= i < j < |FrequencyRanking(tokens)| ==>
              FrequencyRanking(tokens)[i] in tokens && FrequencyRanking(tokens)[j] in tokens &&
              FrequencyBefore(tokens, FrequencyRanking(tokens)[i], FrequencyRanking(tokens)[j])
    ensures NoDups(FrequencyRanking(tokens))
  {
    var items := Dedup(tokens);
    var cnt := Counts(tokens);
    var order := RankByCount(cnt, |items|);
    var r := FrequencyRanking(tokens);
    assert |r| == |order|;
    assert forall i :: 0 <= i < |r| ==> r[i] == items[order[i]];
    DedupMembers(tokens);
    forall i, j | 0 <= i < j < |r|
      ensures r[i] in tokens && r[j] in tokens && FrequencyBefore(tokens, r[i], r[j])
    {
      if order[i] < order[j] {
        DedupFirstSeen(tokens, order[i], order[j]);
      } else if order[j] < order[i] {
        DedupFirstSeen(tokens, order[j], order[i]);
      }
      assert RanksBefore(cnt, order[i], order[j]);
      assert cnt[order[i]] == Frequency(tokens, r[i]);
      assert cnt[order[j]] == Frequency(tokens, r[j]);
    }
    forall w | w in tokens ensures w in r {
      var k :| 0 <= k < |items| && items[k] == w;
      assert k in order;
      var i :| 0 <= i < |order| && order[i] == k;
      assert r[i] == w;
    }
  }

  /** What get_frequent_words returns: the words ranked 26th to 25+n-th,
      or the IndexError of reading past the end of the ranking. */
  function FrequentWords(tokens: seq<string>, n: nat): Result<seq<string>>
  {
    var ranking := FrequencyRanking(tokens);
    if n > 0 && |ranking| < n + ChopOffDistance then Err(IndexError)
    else Ok(seq(n, i requires 0 <= i < n => ranking[i + ChopOffDistance]))
  }

  /** The dictionary of counts after counting the words `seen` one by one. */
  function FrequencyMap(seen: seq<string>): map<string, nat>
  {
    if seen == [] then map[]
    else
      var m := FrequencyMap(seen[..|seen| - 1]);
      var w := seen[|seen| - 1];
      m[w := (if w in m then m[w] else 0) + 1]
  }

  /** The dictionary holds exactly the words seen, each with its frequency. */
  lemma {:induction false} FrequencyMapCounts(seen: seq<string>)
    ensures forall w :: w in FrequencyMap(seen) <==> w in seen
    ensures forall w :: w in FrequencyMap(seen) ==> FrequencyMap(seen)[w] == Frequency(seen, w)
  {
    if seen != [] {
      var p, x := seen[..|seen| - 1], seen[|seen| - 1];
      FrequencyMapCounts(p);
      assert seen == p + [x];
      assert multiset(seen) == multiset(p) + multiset{x};
    }
  }

  /** The state of get_frequent_words' dictionary after scanning the
      words `seen`: its keys in insertion order and the count of each. */
  ghost predicate CountsOf(order: seq<string>, counts: map<string, nat>, seen: seq<string>)
  {
    order == Dedup(seen) && counts == FrequencyMap(seen)
  }

  /** One `word_list[word] = word_list.get(word, 0) + 1`. */
  lemma CountWord(order: seq<string>, counts: map<string, nat>, seen: seq<string>, word: string,
                  order': seq<string>, counts': map<string, nat>)
    requires CountsOf(order, counts, seen)
    requires order' == if word in counts then order else order + [word]
    requires counts' == counts[word := (if word in counts then counts[word] else 0) + 1]
    ensures CountsOf(order', counts', seen + [word])
  {
    DedupSnoc(seen, word);
    DedupMembers(seen);
    FrequencyMapCounts(seen);
    assert (seen + [word])[..|seen|] == seen;
  }

  lemma NonEmptyAppend(before: seq<string>, ws: seq<string>, j: nat)
    requires j < |ws|
    ensures before + NonEmpty(ws[..j + 1]) ==
            if ws[j] != "" then (before + NonEmpty(ws[..j])) + [ws[j]] else before + NonEmpty(ws[..j])
  {
    NonEmptySnoc(ws, j);
  }

  /** The counted dictionary's values, in insertion order, are the
      frequencies of the vocabulary words. */
  lemma CountsAreFrequencies(order: seq<string>, counts: map<string, nat>, tokens: seq<string>)
    requires CountsOf(order, counts, tokens)
    ensures forall k :: 0 <= k < |order| ==> order[k] in counts
    ensures seq(|order|, k requires 0 <= k < |order| => counts[order[k]]) == Counts(tokens)
  {
    DedupMembers(tokens);
    FrequencyMapCounts(tokens);
    assert forall k :: 0 <= k < |order| ==> order[k] in order;
  }

  /** Sorting the counted dictionary's items and slicing the result is
      get_frequent_words' result. */
  lemma SortedCounts(order: seq<string>, counts: map<string, nat>, tokens: seq<string>, n: nat)
    requires CountsOf(order, counts, tokens)
    ensures forall k :: 0 <= k < |order| ==> order[k] in counts
    ensures var cnt := seq(|order|, k requires 0 <= k < |order| => counts[order[k]]);
            var ranked := RankByCount(cnt, |cnt|);
            |ranked| == |Dedup(tokens)| &&
            FrequentWords(tokens, n) ==
              if n > 0 && |ranked| < n + ChopOffDistance then Err(IndexError)
              else Ok(seq(n, i requires 0 <= i < n => order[ranked[i + ChopOffDistance]]))
  {
    CountsAreFrequencies(order, counts, tokens);
    var cnt := seq(|order|, k requires 0 <= k < |order| => counts[order[k]]);
    var ranked := RankByCount(cnt, |cnt|);
    var ranking := FrequencyRanking(tokens);
    assert forall i :: 0 <= i < |ranked| ==> order[ranked[i]] == ranking[i];
    if !(n > 0 && |ranked| < n + ChopOffDistance) {
      assert seq(n, i requires 0 <= i < n => order[ranked[i + ChopOffDistance]]) ==
             seq(n, i requires 0 <= i < n => ranking[i + ChopOffDistance]);
    }
  }

  /** get_frequent_words returns n distinct words in descending order of
      frequency, and raises exactly when the vocabulary has fewer than
      n + 25 words. */
  lemma FrequentWordsRanks(tokens: seq<string>, n: nat)
    ensures FrequentWords(tokens, n).Err? <==> n > 0 && |Dedup(tokens)| < n + ChopOffDistance
    ensures FrequentWords(tokens, n).Ok? ==>
              var top := FrequentWords(tokens, n).value;
              |top| == n && NoDups(top) &&
              (forall i :: 0 <= i < n ==> top[i] in tokens) &&
              forall i, j :: 0 <= i < j < n ==> Frequency(tokens, top[i]) >= Frequency(tokens, top[j])
  {
    FrequencyRankingOrdered(tokens);
    var ranking := FrequencyRanking(tokens);
    if FrequentWords(tokens, n).Ok? {
      var top := FrequentWords(tokens, n).value;
      assert forall i :: 0 <= i < n ==> top[i] == ranking[i + ChopOffDistance];
      forall i, j | 0 <= i < j < n ensures top[i] != top[j] {
        assert ranking[i + ChopOffDistance] != ranking[j + ChopOffDistance];
      }
      forall i | 0 <= i < n ensures top[i] in tokens {
        assert ranking[i + ChopOffDistance] in ranking;
      }
      forall i, j | 0 <= i < j < n ensures Frequency(tokens, top[i]) >= Frequency(tokens, top[j]) {
        assert FrequencyBefore(tokens, ranking[i + ChopOffDistance], ranking[j + ChopOffDistance]);
      }
    }
  }

  /** The counting loop of get_frequent_words: a dictionary from every
      non-empty word to its number of occurrences, with its keys in
      insertion order (Python dictionaries keep that order). */
  method CountWords(lines: seq<string>) returns (order: seq<string>, counts: map<string, nat>)
    ensures CountsOf(order, counts, TokensOf(lines))
  {
    order := [];
    counts := map[];
    for i := 0 to |lines|
      invariant CountsOf(order, counts, TokensOf(lines[..i]))
    {
      var ws := Words(lines[i]);
      ghost var before := TokensOf(lines[..i]);
      ghost var seen := before;
      assert before + NonEmpty(ws[..0]) == before;
      for j := 0 to |ws|
        invariant seen == before + NonEmpty(ws[..j])
        invariant CountsOf(order, counts, seen)
      {
        var word := ws[j];
        NonEmptyAppend(before, ws, j);
        if word != "" {
          ghost var order0, counts0 := order, counts;
          var c := if word in counts then counts[word] else 0;
          if word !in counts {
            order := order + [word];
          }
          counts := counts[word := c + 1];
          CountWord(order0, counts0, seen, word, order, counts);
          seen := seen + [word];
        }
      }
      assert ws[..|ws|] == ws;
      TokensOfSnoc(lines, i);
    }
    assert lines[..|lines|] == lines;
  }

  /** get_frequent_words: counts every non-empty word, sorts the
      dictionary's items by descending count (a stable sort) and keeps
      ranks 26 to 25+n. */
  method GetFrequentWords(lines: seq<string>, n: nat) returns (r: Result<seq<string>>)
    ensures r == FrequentWords(TokensOf(lines), n)
    ensures r.Err? <==> n > 0 && |Dedup(TokensOf(lines))| < n + ChopOffDistance
  {
    var order, counts := CountWords(lines);
    SortedCounts(order, counts, TokensOf(lines), n);
    var cnt := seq(|order|, k requires 0 <= k < |order| => counts[order[k]]);
    var ranked := RankByCount(cnt, |cnt|);
    if n > 0 && |ranked| < n + ChopOffDistance {
      return Err(IndexError);
    }
    r := Ok(seq(n, i requires 0 <= i < n => order[ranked[i + ChopOffDistance]]));
  }
}
