/** Estimation of the bigram hidden Markov model from the pseudo-tagged
    training corpus: the vocabulary and tag counts of the first pass, the
    emission and transition counts of the second pass, and the division of
    every row by its tag's count. */
module Hmm {
  import opened Builtins
  import PseudoTags

  /** The 26 tags C0 .. C25, the names the pseudo-tagger gives its clusters. */
  const Tags: seq<string> := TagNames(26)

  /** The names of the first n clusters, in cluster order. */
  function TagNames(n: nat): (r: seq<string>)
    ensures |r| == n && forall i :: 0 <= i < n ==> r[i] == PseudoTags.TagName(i)
  {
    seq(n, i requires 0 <= i => PseudoTags.TagName(i))
  }

  /** First words that are sentence markers rather than corpus words. */
  const Exclude: seq<string> := ["<s>", "</s>", "START", "END"]

  lemma TagsDistinct()
    ensures |Tags| == 26 && NoDups(Tags)
    ensures forall t :: t in Tags ==> t !in Exclude
  {
    forall i, j | 0 <= i < j < 26 ensures Tags[i] != Tags[j] {
      if Tags[i] == Tags[j] {
        assert NatToString(i) == Tags[i][1..] == Tags[j][1..] == NatToString(j);
        NatToStringInjective(i, j);
      }
    }
    forall t | t in Tags ensures t !in Exclude {
      assert t[0] == 'C';
      assert forall e :: e in Exclude ==> e[0] != 'C';
    }
  }

  /** A line after line.strip().split(' '): never an empty list. */
  type SplitLine = ws: seq<string> | |ws| >= 1 witness [""]

  /** Every line of a file, split into its words. */
  function Tokenized(lines: seq<string>): (r: seq<SplitLine>)
    ensures |r| == |lines|
  {
    if lines == [] then [] else Tokenized(lines[..|lines| - 1]) + [Words(lines[|lines| - 1])]
  }

  /** Splits every line of a file into its words (the
      line.strip().split(' ') both passes apply to each line). */
  method TokenizeLines(lines: seq<string>) returns (corpus: seq<SplitLine>)
    ensures corpus == Tokenized(lines)
  {
    corpus := [];
    for l := 0 to |lines|
      invariant corpus == Tokenized(lines[..l])
    {
      assert lines[..l + 1][..l] == lines[..l];
      corpus := corpus + [Words(lines[l])];
    }
    assert lines[..|lines|] == lines;
  }

  lemma {:induction false} TokenizedAt(lines: seq<string>, l: nat)
    requires l < |lines|
    ensures Tokenized(lines)[l] == Words(lines[l])
  {
    if l < |lines| - 1 {
      TokenizedAt(lines[..|lines| - 1], l);
    }
  }

  // ---------------------------------------------------------------------
  // First pass: word types and tag counts

  /** The first words of the first n lines that are not markers, in line order. */
  function FirstWords(corpus: seq<SplitLine>, n: nat): seq<string>
    requires n <= |corpus|
  {
    if n == 0 then []
    else FirstWords(corpus, n - 1) + (if corpus[n - 1][0] !in Exclude then [corpus[n - 1][0]] else [])
  }

  /** The word types of the first n lines: their distinct non-marker first
      words, in first-seen order. */
  function WordTypesOf(corpus: seq<SplitLine>, n: nat): seq<string>
    requires n <= |corpus|
  {
    Dedup(FirstWords(corpus, n))
  }

  /** Whether word i of a line adds to a tag count, `known` being the
      word types collected before the line: a first word that becomes a
      new word type is not counted, any other tag word is. */
  predicate CountsAsTag(ws: SplitLine, i: nat, known: seq<string>)
    requires i < |ws|
  {
    !(i == 0 && ws[0] !in Exclude && ws[0] !in known) && ws[i] in Tags && ws[i] !in Exclude
  }

  /** How many of the first m words of a line count for tag t. */
  function LineTagCount(ws: SplitLine, known: seq<string>, t: nat, m: nat): nat
    requires t < |Tags| && m <= |ws|
  {
    if m == 0 then 0
    else LineTagCount(ws, known, t, m - 1) + (if CountsAsTag(ws, m - 1, known) && ws[m - 1] == Tags[t] then 1 else 0)
  }

  /** tagscount[t] after the first pass over the first n lines. */
  function TagCount(corpus: seq<SplitLine>, n: nat, t: nat): nat
    requires n <= |corpus| && t < |Tags|
  {
    if n == 0 then 0
    else TagCount(corpus, n - 1, t) + LineTagCount(corpus[n - 1], WordTypesOf(corpus, n - 1), t, |corpus[n - 1]|)
  }

  lemma WordTypesSnoc(corpus: seq<SplitLine>, l: nat)
    requires l < |corpus|
    ensures var w := corpus[l][0]; var known := WordTypesOf(corpus, l);
      WordTypesOf(corpus, l + 1) == if w !in Exclude && w !in known then known + [w] else known
  {
    if corpus[l][0] !in Exclude {
      DedupSnoc(FirstWords(corpus, l), corpus[l][0]);
    } else {
      assert FirstWords(corpus, l + 1) == FirstWords(corpus, l) + [] == FirstWords(corpus, l);
    }
  }

  /** One line of the first pass (the body of helper.py:34-40). */
  method CountLine(ws: SplitLine, wordtypes: seq<string>, tagscount: array<nat>) returns (updated: seq<string>)
    requires tagscount.Length == |Tags|
    modifies tagscount
    ensures updated == if ws[0] !in Exclude && ws[0] !in wordtypes then wordtypes + [ws[0]] else wordtypes
    ensures forall t :: 0 <= t < |Tags| ==> tagscount[t] == old(tagscount[t]) + LineTagCount(ws, wordtypes, t, |ws|)
  {
    TagsDistinct();
    updated := wordtypes;
    for i := 0 to |ws|
      invariant updated == if i == 0 then wordtypes
        else if ws[0] !in Exclude && ws[0] !in wordtypes then wordtypes + [ws[0]] else wordtypes
      invariant forall t :: 0 <= t < |Tags| ==> tagscount[t] == old(tagscount[t]) + LineTagCount(ws, wordtypes, t, i)
    {
      var word := ws[i];
      if i == 0 && word !in Exclude && word !in updated {
        updated := updated + [word];
      } else if word in Tags && word !in Exclude {
        var t := IndexOf(Tags, word);
        tagscount[t] := tagscount[t] + 1;
        forall u | 0 <= u < |Tags| && u != t ensures Tags[u] != word {
          IndexOfDistinct(Tags, u);
        }
      }
    }
  }

  /** The first pass (helper.py:30-40). */
  method CountTypesAndTags(corpus: seq<SplitLine>) returns (wordtypes: seq<string>, tagscount: array<nat>)
    ensures wordtypes == WordTypesOf(corpus, |corpus|)
    ensures fresh(tagscount) && tagscount.Length == |Tags|
    ensures forall t :: 0 <= t < |Tags| ==> tagscount[t] == TagCount(corpus, |corpus|, t)
  {
    wordtypes := [];
    tagscount := new nat[|Tags|](_ => 0);
    for l := 0 to |corpus|
      invariant wordtypes == WordTypesOf(corpus, l)
      invariant forall t :: 0 <= t < |Tags| ==> tagscount[t] == TagCount(corpus, l, t)
    {
      WordTypesSnoc(corpus, l);
      wordtypes := CountLine(corpus[l], wordtypes, tagscount);
    }
  }

  /** wordtypes holds exactly the non-marker first words, once each. */
  lemma WordTypesAreFirstWords(corpus: seq<SplitLine>, n: nat, w: string)
    requires n <= |corpus|
    ensures NoDups(WordTypesOf(corpus, n))
    ensures w in WordTypesOf(corpus, n) <==> exists k :: 0 <= k < n && corpus[k][0] == w && w !in Exclude
  {
    DedupMembers(FirstWords(corpus, n));
    FirstWordsMembers(corpus, n, w);
  }

  lemma {:induction false} FirstWordsMembers(corpus: seq<SplitLine>, n: nat, w: string)
    requires n <= |corpus|
    ensures w in FirstWords(corpus, n) <==> exists k :: 0 <= k < n && corpus[k][0] == w && w !in Exclude
  {
    if n > 0 {
      FirstWordsMembers(corpus, n - 1, w);
    }
  }

  // ---------------------------------------------------------------------
  // Second pass: emission and transition counts

  /** A line that carries a word and a tag: its first word is no marker
      and it has at least two words. */
  predicate Qualifies(ws: SplitLine)
  {
    |ws| >= 2 && ws[0] !in Exclude
  }

  /** A qualifying line whose second word is not a tag: tags.index raises. */
  predicate Raises(ws: SplitLine)
  {
    Qualifies(ws) && ws[1] !in Tags
  }

  /** The number of the first line on which the second pass raises. */
  function FirstBadLine(corpus: seq<SplitLine>): (r: Option<nat>)
    ensures r.Some? ==> r.value < |corpus| && Raises(corpus[r.value])
    ensures r.Some? ==> forall k :: 0 <= k < r.value ==> !Raises(corpus[k])
    ensures r.None? ==> forall k :: 0 <= k < |corpus| ==> !Raises(corpus[k])
  {
    if corpus == [] then None
    else if Raises(corpus[0]) then Some(0)
    else
      match FirstBadLine(corpus[1..])
      case None => None
      case Some(k) => Some(k + 1)
  }

  /** The row_id a line leaves behind: the index of its tag, or -1 when
      the line resets it. */
  function Row(ws: SplitLine): (r: int)
    ensures -1 <= r < |Tags|
  {
    if Qualifies(ws) && ws[1] in Tags then IndexOf(Tags, ws[1]) else -1
  }

  /** Whether a line adds one to emission[t][w]. */
  predicate Emits(ws: SplitLine, wordtypes: seq<string>, t: nat, w: nat)
  {
    Row(ws) == t && ws[0] in wordtypes && IndexOf(wordtypes, ws[0]) == w
  }

  /** emission_matrix[t][w] before normalisation, over the first n lines. */
  function Emission(corpus: seq<SplitLine>, n: nat, wordtypes: seq<string>, t: nat, w: nat): nat
    requires n <= |corpus|
  {
    if n == 0 then 0
    else Emission(corpus, n - 1, wordtypes, t, w) + (if Emits(corpus[n - 1], wordtypes, t, w) then 1 else 0)
  }

  /** transmission_matrix[a][b] before normalisation, over the first n
      lines: pairs of adjacent lines, the first with tag a and the second
      with tag b. */
  function Transition(corpus: seq<SplitLine>, n: nat, a: nat, b: nat): nat
    requires n <= |corpus|
  {
    if n < 2 then 0
    else Transition(corpus, n - 1, a, b) + (if Row(corpus[n - 2]) == a && Row(corpus[n - 1]) == b then 1 else 0)
  }

  lemma FirstWordKnown(corpus: seq<SplitLine>, l: nat)
    requires l < |corpus| && Qualifies(corpus[l])
    ensures corpus[l][0] in WordTypesOf(corpus, |corpus|)
  {
    WordTypesAreFirstWords(corpus, |corpus|, corpus[l][0]);
  }

  lemma NoRaiseStep(corpus: seq<SplitLine>, l: nat)
    requires l < |corpus| && !Raises(corpus[l])
    requires FirstBadLine(corpus).Some? ==> FirstBadLine(corpus).value >= l
    ensures FirstBadLine(corpus).Some? ==> FirstBadLine(corpus).value >= l + 1
  {
  }

  /** One line of the second pass (the body of helper.py:51-61): whether
      it raises, the new row_id, and the counts it adds. */
  method CountLinePairs(ws: SplitLine, wordtypes: seq<string>, prev: int, emission: array2<real>, transition: array2<real>)
    returns (row: int, raised: bool)
    requires (Qualifies(ws) ==> ws[0] in wordtypes) && -1 <= prev < |Tags|
    requires emission.Length0 == |Tags| && emission.Length1 == |wordtypes|
    requires transition.Length0 == |Tags| && transition.Length1 == |Tags| && emission != transition
    modifies emission, transition
    ensures raised == Raises(ws)
    ensures !raised ==> row == Row(ws)
    ensures forall t, w :: 0 <= t < |Tags| && 0 <= w < |wordtypes| ==>
      emission[t, w] == old(emission[t, w]) + (if !raised && Emits(ws, wordtypes, t, w) then 1.0 else 0.0)
    ensures forall a, b :: 0 <= a < |Tags| && 0 <= b < |Tags| ==>
      transition[a, b] == old(transition[a, b]) + (if !raised && prev == a && row == b then 1.0 else 0.0)
  {
    raised := false;
    if ws[0] !in Exclude && |ws| >= 2 {
      var col := IndexOf(wordtypes, ws[0]);
      if ws[1] !in Tags {
        raised := true;
        row := prev;
        return;
      }
      row := IndexOf(Tags, ws[1]);
      assert Row(ws) == row && forall t, w :: Emits(ws, wordtypes, t, w) <==> t == row && w == col;
      emission[row, col] := emission[row, col] + 1.0;
      if prev != -1 {
        transition[prev, row] := transition[prev, row] + 1.0;
      }
    } else {
      row := -1;
      assert forall t: nat, w :: !Emits(ws, wordtypes, t, w);
    }
  }

  /** The matrices hold the counts of the first n lines. */
  ghost predicate CountsAfter(corpus: seq<SplitLine>, wordtypes: seq<string>, n: nat, emission: array2<real>, transition: array2<real>)
    reads emission, transition
  {
    n <= |corpus|
    && emission.Length0 == |Tags| && emission.Length1 == |wordtypes|
    && transition.Length0 == |Tags| && transition.Length1 == |Tags|
    && (forall t, w :: 0 <= t < |Tags| && 0 <= w < |wordtypes| ==> emission[t, w] == Emission(corpus, n, wordtypes, t, w) as real)
    && (forall a, b :: 0 <= a < |Tags| && 0 <= b < |Tags| ==> transition[a, b] == Transition(corpus, n, a, b) as real)
  }

  /** The second pass (helper.py:43-44, 50-61): the matrices count the
      lines up to the first bad one, which raises ValueError. */
  method CountPairs(corpus: seq<SplitLine>, wordtypes: seq<string>)
    returns (emission: array2<real>, transition: array2<real>, err: Option<nat>)
    requires wordtypes == WordTypesOf(corpus, |corpus|)
    ensures fresh(emission) && fresh(transition) && emission != transition
    ensures err == FirstBadLine(corpus)
    ensures CountsAfter(corpus, wordtypes, if err.Some? then err.value else |corpus|, emission, transition)
  {
    emission := new real[|Tags|, |wordtypes|]((_, _) => 0.0);
    transition := new real[|Tags|, |Tags|]((_, _) => 0.0);
    var rowId := -1;
    var l := 0;
    while l < |corpus|
      invariant l <= |corpus|
      invariant FirstBadLine(corpus).Some? ==> FirstBadLine(corpus).value >= l
      invariant rowId == if l == 0 then -1 else Row(corpus[l - 1])
      invariant CountsAfter(corpus, wordtypes, l, emission, transition)
    {
      var raised;
      rowId, raised := CountLineAt(corpus, wordtypes, l, rowId, emission, transition);
      if raised {
        err := Some(l);
        return;
      }
      NoRaiseStep(corpus, l);
      l := l + 1;
    }
    err := None;
  }

  /** Counts line l, given the counts of the lines before it. */
  method CountLineAt(corpus: seq<SplitLine>, wordtypes: seq<string>, l: nat, prev: int, emission: array2<real>, transition: array2<real>)
    returns (row: int, raised: bool)
    requires wordtypes == WordTypesOf(corpus, |corpus|) && l < |corpus| && emission != transition
    requires prev == if l == 0 then -1 else Row(corpus[l - 1])
    requires CountsAfter(corpus, wordtypes, l, emission, transition)
    modifies emission, transition
    ensures raised == Raises(corpus[l])
    ensures raised ==> CountsAfter(corpus, wordtypes, l, emission, transition)
    ensures !raised ==> row == Row(corpus[l]) && CountsAfter(corpus, wordtypes, l + 1, emission, transition)
  {
    if Qualifies(corpus[l]) {
      FirstWordKnown(corpus, l);
    }
    row, raised := CountLinePairs(corpus[l], wordtypes, prev, emission, transition);
  }

  // ---------------------------------------------------------------------
  // Normalisation and the trained model

  /** Divides every row of m by its tag's count, leaving the rows of tags
      with count 0 as they are (helper.py:64-73, once per matrix). */
  method Normalize(m: array2<real>, tagscount: array<nat>)
    requires m.Length0 == tagscount.Length
    modifies m
    ensures forall x, y :: 0 <= x < m.Length0 && 0 <= y < m.Length1 ==>
      m[x, y] == if tagscount[x] != 0 then old(m[x, y]) / tagscount[x] as real else old(m[x, y])
  {
    for x := 0 to m.Length0
      invariant forall i, j :: 0 <= i < m.Length0 && 0 <= j < m.Length1 ==>
        m[i, j] == if i < x && tagscount[i] != 0 then old(m[i, j]) / tagscount[i] as real else old(m[i, j])
    {
      for y := 0 to m.Length1
        invariant forall i, j :: 0 <= i < m.Length0 && 0 <= j < m.Length1 ==>
          m[i, j] == if (i < x || (i == x && j < y)) && tagscount[i] != 0 then old(m[i, j]) / tagscount[i] as real else old(m[i, j])
      {
        if tagscount[x] != 0 {
          m[x, y] := m[x, y] / tagscount[x] as real;
        }
      }
    }
  }

  /** The trained model: the word types and the two matrices, row by row. */
  datatype Model = Model(wordtypes: seq<string>, emission: seq<seq<real>>, transition: seq<seq<real>>)

  /** A count divided by the tag's count when that is not 0. */
  function Normalized(count: nat, tagCount: nat): (r: real)
    ensures 0.0 <= r && (count <= tagCount ==> r <= 1.0)
  {
    if tagCount != 0 then QuotientBounds(count, tagCount); count as real / tagCount as real else count as real
  }

  lemma QuotientBounds(x: nat, c: nat)
    requires c != 0
    ensures 0.0 <= x as real / c as real
    ensures x <= c ==> x as real / c as real <= 1.0
  {
    var q := x as real / c as real;
    assert q * c as real == x as real;
  }

  /** Row t of the normalised emission matrix. */
  function EmissionRow(corpus: seq<SplitLine>, t: nat): (r: seq<real>)
    requires t < |Tags|
    ensures |r| == |WordTypesOf(corpus, |corpus|)|
  {
    var n := |corpus|;
    var wt := WordTypesOf(corpus, n);
    seq(|wt|, w requires 0 <= w => Normalized(Emission(corpus, n, wt, t, w), TagCount(corpus, n, t)))
  }

  /** Row a of the normalised transition matrix. */
  function TransitionRow(corpus: seq<SplitLine>, a: nat): (r: seq<real>)
    requires a < |Tags|
    ensures |r| == |Tags|
  {
    var n := |corpus|;
    seq(|Tags|, b requires 0 <= b => Normalized(Transition(corpus, n, a, b), TagCount(corpus, n, a)))
  }

  /** The model estimated from the whole corpus. */
  function Estimate(corpus: seq<SplitLine>): Model
  {
    Model(WordTypesOf(corpus, |corpus|), EmissionRows(corpus), TransitionRows(corpus))
  }

  function EmissionRows(corpus: seq<SplitLine>): (r: seq<seq<real>>)
    ensures |r| == |Tags| && forall t :: 0 <= t < |Tags| ==> r[t] == EmissionRow(corpus, t)
  {
    seq(|Tags|, t requires 0 <= t < |Tags| => EmissionRow(corpus, t))
  }

  function TransitionRows(corpus: seq<SplitLine>): (r: seq<seq<real>>)
    ensures |r| == |Tags| && forall a :: 0 <= a < |Tags| ==> r[a] == TransitionRow(corpus, a)
  {
    seq(|Tags|, a requires 0 <= a < |Tags| => TransitionRow(corpus, a))
  }

  /** The rows of a matrix as a list of lists. */
  function Rows(m: array2<real>): (r: seq<seq<real>>)
    reads m
    ensures |r| == m.Length0
    ensures forall i :: 0 <= i < m.Length0 ==> |r[i]| == m.Length1
    ensures forall i, j :: 0 <= i < m.Length0 && 0 <= j < m.Length1 ==> r[i][j] == m[i, j]
  {
    seq(m.Length0, i requires 0 <= i < m.Length0 reads m => seq(m.Length1, j requires 0 <= j < m.Length1 reads m => m[i, j]))
  }

  lemma EmissionRowsMatch(corpus: seq<SplitLine>, rows: seq<seq<real>>)
    requires var wt := WordTypesOf(corpus, |corpus|);
      |rows| == |Tags| && (forall t :: 0 <= t < |Tags| ==> |rows[t]| == |wt|)
      && forall t, w :: 0 <= t < |Tags| && 0 <= w < |wt| ==>
        rows[t][w] == Normalized(Emission(corpus, |corpus|, wt, t, w), TagCount(corpus, |corpus|, t))
    ensures rows == EmissionRows(corpus)
  {
    forall t | 0 <= t < |Tags| ensures rows[t] == EmissionRow(corpus, t) {
    }
  }

  lemma TransitionRowsMatch(corpus: seq<SplitLine>, rows: seq<seq<real>>)
    requires |rows| == |Tags| && (forall a :: 0 <= a < |Tags| ==> |rows[a]| == |Tags|)
      && forall a, b :: 0 <= a < |Tags| && 0 <= b < |Tags| ==>
        rows[a][b] == Normalized(Transition(corpus, |corpus|, a, b), TagCount(corpus, |corpus|, a))
    ensures rows == TransitionRows(corpus)
  {
    forall a | 0 <= a < |Tags| ensures rows[a] == TransitionRow(corpus, a) {
      TransitionRowMatches(corpus, a, rows[a]);
    }
  }

  lemma TransitionRowMatches(corpus: seq<SplitLine>, a: nat, row: seq<real>)
    requires a < |Tags| && |row| == |Tags|
    requires forall b :: 0 <= b < |Tags| ==> row[b] == Normalized(Transition(corpus, |corpus|, a, b), TagCount(corpus, |corpus|, a))
    ensures row == TransitionRow(corpus, a)
  {
  }

  /** Training (helper.py:30-73): the estimated model, or the ValueError
      the second pass raises on its first bad line. */
  method Train(lines: seq<string>) returns (r: Result<Model>)
    ensures var corpus := Tokenized(lines);
      r == match FirstBadLine(corpus)
        case Some(k) => Err(ValueError(k))
        case None => Ok(Estimate(corpus))
  {
    var corpus := TokenizeLines(lines);
    var wordtypes, tagscount := CountTypesAndTags(corpus);
    var emission, transition, err := CountPairs(corpus, wordtypes);
    if err.Some? {
      return Err(ValueError(err.value));
    }
    Normalize(emission, tagscount);
    var emissionRows := Rows(emission);
    EmissionRowsMatch(corpus, emissionRows);
    Normalize(transition, tagscount);
    var transitionRows := Rows(transition);
    TransitionRowsMatch(corpus, transitionRows);
    r := Ok(Model(wordtypes, emissionRows, transitionRows));
  }

  // ---------------------------------------------------------------------
  // What the estimated counts mean

  /** The number of the first n lines whose tag is t. */
  function RowCount(corpus: seq<SplitLine>, n: nat, t: nat): nat
    requires n <= |corpus|
  {
    if n == 0 then 0 else RowCount(corpus, n - 1, t) + (if Row(corpus[n - 1]) == t then 1 else 0)
  }

  /** A line adds to emission[t][w] exactly when it is a word-and-tag
      line whose word is word type w and whose tag is tag t. */
  lemma EmitsMeaning(ws: SplitLine, wordtypes: seq<string>, t: nat, w: nat)
    requires NoDups(wordtypes) && w < |wordtypes| && t < |Tags|
    ensures Emits(ws, wordtypes, t, w) <==> Qualifies(ws) && ws[1] == Tags[t] && ws[0] == wordtypes[w]
  {
    TagsDistinct();
    if Qualifies(ws) && ws[1] == Tags[t] {
      IndexOfDistinct(Tags, t);
    }
    if ws[0] == wordtypes[w] {
      IndexOfDistinct(wordtypes, w);
    }
  }

  /** The total of the first m cells of emission row t over the first n lines. */
  function EmissionTotal(corpus: seq<SplitLine>, n: nat, wordtypes: seq<string>, t: nat, m: nat): nat
    requires n <= |corpus|
  {
    if m == 0 then 0 else EmissionTotal(corpus, n, wordtypes, t, m - 1) + Emission(corpus, n, wordtypes, t, m - 1)
  }

  lemma {:induction false} EmissionTotalStep(corpus: seq<SplitLine>, n: nat, wordtypes: seq<string>, t: nat, m: nat)
    requires n < |corpus|
    ensures EmissionTotal(corpus, n + 1, wordtypes, t, m) == EmissionTotal(corpus, n, wordtypes, t, m)
      + (if Row(corpus[n]) == t && corpus[n][0] in wordtypes && IndexOf(wordtypes, corpus[n][0]) < m then 1 else 0)
  {
    if m > 0 {
      EmissionTotalStep(corpus, n, wordtypes, t, m - 1);
    }
  }

  lemma EmissionWithinTotal(corpus: seq<SplitLine>, n: nat, wordtypes: seq<string>, t: nat, w: nat)
    requires n <= |corpus| && w < |wordtypes|
    ensures Emission(corpus, n, wordtypes, t, w) <= EmissionTotal(corpus, n, wordtypes, t, |wordtypes|)
  {
    var counts := EmissionCounts(corpus, n, wordtypes, t);
    EmissionCountsTotal(corpus, n, wordtypes, t, |wordtypes|);
    assert counts[..|wordtypes|] == counts;
    WithinTotal(counts, w);
  }

  lemma {:induction false} NothingCountedYet(corpus: seq<SplitLine>, wordtypes: seq<string>, t: nat, m: nat)
    ensures EmissionTotal(corpus, 0, wordtypes, t, m) == 0 && TransitionTotal(corpus, 0, t, m) == 0
  {
    if m > 0 {
      NothingCountedYet(corpus, wordtypes, t, m - 1);
    }
  }

  /** Every line with tag t adds one to exactly one cell of emission row
      t: the row adds up to the number of lines with that tag. */
  lemma {:induction false} EmissionRowTotal(corpus: seq<SplitLine>, n: nat, t: nat)
    requires n <= |corpus|
    ensures var wt := WordTypesOf(corpus, |corpus|);
      EmissionTotal(corpus, n, wt, t, |wt|) == RowCount(corpus, n, t)
  {
    if n > 0 {
      var wt := WordTypesOf(corpus, |corpus|);
      EmissionRowTotal(corpus, n - 1, t);
      EmissionTotalStep(corpus, n - 1, wt, t, |wt|);
      if Row(corpus[n - 1]) == t {
        FirstWordKnown(corpus, n - 1);
      }
    } else {
      NothingCountedYet(corpus, WordTypesOf(corpus, |corpus|), t, |WordTypesOf(corpus, |corpus|)|);
    }
  }

  lemma {:induction false} LineTagCountGrows(ws: SplitLine, known: seq<string>, t: nat, k: nat, m: nat)
    requires t < |Tags| && k <= m <= |ws|
    ensures LineTagCount(ws, known, t, k) <= LineTagCount(ws, known, t, m)
  {
    if k < m {
      LineTagCountGrows(ws, known, t, k, m - 1);
    }
  }

  /** The first pass counts the tag of a word-and-tag line at least once:
      its second word. */
  lemma LineCountsItsTag(ws: SplitLine, known: seq<string>, t: nat)
    requires t < |Tags|
    ensures LineTagCount(ws, known, t, |ws|) >= if Row(ws) == t then 1 else 0
  {
    if Row(ws) == t {
      TagsDistinct();
      assert LineTagCount(ws, known, t, 2) >= 1;
      LineTagCountGrows(ws, known, t, 2, |ws|);
    }
  }

  /** tagscount[t] is at least the number of lines tagged t. */
  lemma {:induction false} RowCountAtMostTagCount(corpus: seq<SplitLine>, n: nat, t: nat)
    requires n <= |corpus| && t < |Tags|
    ensures RowCount(corpus, n, t) <= TagCount(corpus, n, t)
  {
    if n > 0 {
      RowCountAtMostTagCount(corpus, n - 1, t);
      LineCountsItsTag(corpus[n - 1], WordTypesOf(corpus, n - 1), t);
    }
  }

  /** A line in which a tag can only be the second word of a word-and-tag
      line, as in the files the pseudo-tagger writes. */
  predicate TagsOnlySecond(ws: SplitLine)
  {
    forall i :: 0 <= i < |ws| && ws[i] in Tags ==> i == 1 && ws[0] !in Exclude
  }

  predicate Clean(corpus: seq<SplitLine>)
  {
    forall k :: 0 <= k < |corpus| ==> TagsOnlySecond(corpus[k])
  }

  lemma {:induction false} CleanLineTagCount(ws: SplitLine, known: seq<string>, t: nat, m: nat)
    requires t < |Tags| && m <= |ws| && TagsOnlySecond(ws)
    ensures LineTagCount(ws, known, t, m) == if m >= 2 && Row(ws) == t then 1 else 0
  {
    if m > 0 {
      CleanLineTagCount(ws, known, t, m - 1);
      TagsDistinct();
      if ws[m - 1] == Tags[t] {
        assert m - 1 == 1 && ws[0] !in Exclude;
        IndexOfDistinct(Tags, t);
      }
    }
  }

  /** A clean line counts once for its own tag and for no other. */
  lemma CleanLineCount(ws: SplitLine, known: seq<string>, t: nat)
    requires t < |Tags| && TagsOnlySecond(ws)
    ensures LineTagCount(ws, known, t, |ws|) == if Row(ws) == t then 1 else 0
  {
    CleanLineTagCount(ws, known, t, |ws|);
  }

  /** On a clean corpus tagscount[t] is exactly the number of lines tagged t. */
  lemma {:induction false} CleanTagCount(corpus: seq<SplitLine>, n: nat, t: nat)
    requires n <= |corpus| && t < |Tags| && Clean(corpus)
    ensures TagCount(corpus, n, t) == RowCount(corpus, n, t)
  {
    if n > 0 {
      CleanTagCount(corpus, n - 1, t);
      CleanLineCount(corpus[n - 1], WordTypesOf(corpus, n - 1), t);
    }
  }

  /** The total of the first m cells of transition row a over the first n lines. */
  function TransitionTotal(corpus: seq<SplitLine>, n: nat, a: nat, m: nat): nat
    requires n <= |corpus|
  {
    if m == 0 then 0 else TransitionTotal(corpus, n, a, m - 1) + Transition(corpus, n, a, m - 1)
  }

  lemma {:induction false} TransitionTotalStep(corpus: seq<SplitLine>, n: nat, a: nat, m: nat)
    requires n < |corpus|
    ensures TransitionTotal(corpus, n + 1, a, m) == TransitionTotal(corpus, n, a, m)
      + (if n >= 1 && Row(corpus[n - 1]) == a && 0 <= Row(corpus[n]) < m then 1 else 0)
  {
    if m > 0 {
      TransitionTotalStep(corpus, n, a, m - 1);
    }
  }

  lemma TransitionWithinTotal(corpus: seq<SplitLine>, n: nat, a: nat, b: nat)
    requires n <= |corpus| && b < |Tags|
    ensures Transition(corpus, n, a, b) <= TransitionTotal(corpus, n, a, |Tags|)
  {
    var counts := TransitionCounts(corpus, n, a);
    TransitionCountsTotal(corpus, n, a, |Tags|);
    assert counts[..|Tags|] == counts;
    WithinTotal(counts, b);
  }

  /** Every transition out of tag a starts at a distinct line tagged a
      that is not the last one read. */
  lemma {:induction false} TransitionRowTotal(corpus: seq<SplitLine>, n: nat, a: nat)
    requires n <= |corpus|
    ensures TransitionTotal(corpus, n, a, |Tags|) + (if n > 0 && Row(corpus[n - 1]) == a then 1 else 0) <= RowCount(corpus, n, a)
  {
    if n > 0 {
      TransitionRowTotal(corpus, n - 1, a);
      TransitionTotalStep(corpus, n - 1, a, |Tags|);
    } else {
      NothingCountedYet(corpus, [], a, |Tags|);
    }
  }

  /** A line that resets row_id separates the transition counts: the
      lines before it and the lines after it are counted on their own. */
  lemma {:induction false} TransitionsSplitAtReset(corpus: seq<SplitLine>, k: nat, n: nat, a: nat, b: nat)
    requires k < n <= |corpus| && Row(corpus[k]) == -1
    ensures Transition(corpus, n, a, b) == Transition(corpus, k, a, b) + Transition(corpus[k + 1..], n - k - 1, a, b)
  {
    if n > k + 2 {
      TransitionsSplitAtReset(corpus, k, n - 1, a, b);
      assert corpus[k + 1..][n - k - 3] == corpus[n - 2];
      assert corpus[k + 1..][n - k - 2] == corpus[n - 1];
    } else if n == k + 2 {
      assert Transition(corpus, k + 1, a, b) == Transition(corpus, k, a, b);
    }
  }

  // ---------------------------------------------------------------------
  // Row sums of the estimated model

  function Sum(s: seq<real>): real
  {
    if s == [] then 0.0 else Sum(s[..|s| - 1]) + s[|s| - 1]
  }

  function Total(counts: seq<nat>): nat
  {
    if counts == [] then 0 else Total(counts[..|counts| - 1]) + counts[|counts| - 1]
  }

  /** A row of counts divided by one common count adds up to their total
      divided by it. */
  lemma {:induction false} SumOfQuotients(row: seq<real>, counts: seq<nat>, c: real)
    requires c != 0.0 && |row| == |counts|
    requires forall w :: 0 <= w < |row| ==> row[w] == counts[w] as real / c
    ensures Sum(row) == Total(counts) as real / c
  {
    if row != [] {
      var k := |row| - 1;
      SumOfQuotients(row[..k], counts[..k], c);
      assert row[k] == counts[k] as real / c;
      QuotientOfSum(Total(counts[..k]) as real, counts[k] as real, c);
    }
  }

  /** Two quotients by one divisor add up to the quotient of their sum. */
  lemma QuotientOfSum(x: real, y: real, c: real)
    requires c != 0.0
    ensures x / c + y / c == (x + y) / c
  {
  }

  /** No count exceeds the total of its row. */
  lemma {:induction false} WithinTotal(counts: seq<nat>, b: nat)
    requires b < |counts|
    ensures counts[b] <= Total(counts)
  {
    var k := |counts| - 1;
    if b < k {
      WithinTotal(counts[..k], b);
    }
  }

  lemma QuotientAtMostOne(x: nat, c: nat)
    requires x <= c && c != 0
    ensures x as real / c as real <= 1.0
    ensures x == c ==> x as real / c as real == 1.0
  {
  }

  /** Emission row t over the first n lines, before normalisation. */
  function EmissionCounts(corpus: seq<SplitLine>, n: nat, wordtypes: seq<string>, t: nat): (r: seq<nat>)
    requires n <= |corpus|
    ensures |r| == |wordtypes| && forall w :: 0 <= w < |r| ==> r[w] == Emission(corpus, n, wordtypes, t, w)
  {
    seq(|wordtypes|, w requires 0 <= w => Emission(corpus, n, wordtypes, t, w))
  }

  /** Transition row a over the first n lines, before normalisation. */
  function TransitionCounts(corpus: seq<SplitLine>, n: nat, a: nat): (r: seq<nat>)
    requires n <= |corpus|
    ensures |r| == |Tags| && forall b :: 0 <= b < |r| ==> r[b] == Transition(corpus, n, a, b)
  {
    seq(|Tags|, b requires 0 <= b => Transition(corpus, n, a, b))
  }

  lemma {:induction false} EmissionCountsTotal(corpus: seq<SplitLine>, n: nat, wordtypes: seq<string>, t: nat, m: nat)
    requires n <= |corpus| && m <= |wordtypes|
    ensures Total(EmissionCounts(corpus, n, wordtypes, t)[..m]) == EmissionTotal(corpus, n, wordtypes, t, m)
  {
    if m > 0 {
      var counts := EmissionCounts(corpus, n, wordtypes, t);
      EmissionCountsTotal(corpus, n, wordtypes, t, m - 1);
      assert counts[..m][..m - 1] == counts[..m - 1];
    }
  }

  lemma {:induction false} TransitionCountsTotal(corpus: seq<SplitLine>, n: nat, a: nat, m: nat)
    requires n <= |corpus| && m <= |Tags|
    ensures Total(TransitionCounts(corpus, n, a)[..m]) == TransitionTotal(corpus, n, a, m)
  {
    if m > 0 {
      var counts := TransitionCounts(corpus, n, a);
      TransitionCountsTotal(corpus, n, a, m - 1);
      assert counts[..m][..m - 1] == counts[..m - 1];
    }
  }

  /** Emission row t of the model: all zero when tag t was never counted,
      otherwise adding up to at most 1, and to exactly 1 on a clean corpus. */
  lemma EmissionRowSum(corpus: seq<SplitLine>, t: nat)
    requires t < |Tags|
    ensures var row := Estimate(corpus).emission[t]; var c := TagCount(corpus, |corpus|, t);
      (c == 0 ==> forall w :: 0 <= w < |row| ==> row[w] == 0.0)
      && (c != 0 ==> Sum(row) <= 1.0)
      && (c != 0 && Clean(corpus) ==> Sum(row) == 1.0)
  {
    var n := |corpus|;
    var wt := WordTypesOf(corpus, n);
    var row := EmissionRow(corpus, t);
    EmissionRowTotal(corpus, n, t);
    RowCountAtMostTagCount(corpus, n, t);
    if TagCount(corpus, n, t) == 0 {
      forall w | 0 <= w < |row| ensures row[w] == 0.0 {
        EmissionWithinTotal(corpus, n, wt, t, w);
      }
    } else {
      var counts := EmissionCounts(corpus, n, wt, t);
      var c := TagCount(corpus, n, t);
      SumOfQuotients(row, counts, c as real);
      EmissionCountsTotal(corpus, n, wt, t, |wt|);
      assert counts[..|wt|] == counts;
      if Clean(corpus) {
        CleanTagCount(corpus, n, t);
      }
      QuotientAtMostOne(Total(counts), c);
    }
  }

  /** Transition row a of the model: all zero when tag a was never
      counted, otherwise adding up to at most 1. */
  lemma TransitionRowSum(corpus: seq<SplitLine>, a: nat)
    requires a < |Tags|
    ensures var row := Estimate(corpus).transition[a]; var c := TagCount(corpus, |corpus|, a);
      (c == 0 ==> forall b :: 0 <= b < |row| ==> row[b] == 0.0)
      && (c != 0 ==> Sum(row) <= 1.0)
  {
    var n := |corpus|;
    var row := TransitionRow(corpus, a);
    TransitionRowTotal(corpus, n, a);
    RowCountAtMostTagCount(corpus, n, a);
    if TagCount(corpus, n, a) == 0 {
      forall b | 0 <= b < |row| ensures row[b] == 0.0 {
        TransitionWithinTotal(corpus, n, a, b);
      }
    } else {
      var counts := TransitionCounts(corpus, n, a);
      var c := TagCount(corpus, n, a);
      SumOfQuotients(row, counts, c as real);
      TransitionCountsTotal(corpus, n, a, |Tags|);
      assert counts[..|Tags|] == counts;
      QuotientAtMostOne(Total(counts), c);
    }
  }

  /** A model of the expected shape whose entries are probabilities: 26
      rows per matrix, one emission column per word type, word types
      listed once each. */
  predicate WellFormed(m: Model)
  {
    NoDups(m.wordtypes)
    && |m.emission| == |Tags| && |m.transition| == |Tags|
    && (forall t :: 0 <= t < |Tags| ==> |m.emission[t]| == |m.wordtypes| && |m.transition[t]| == |Tags|)
    && (forall t, w :: 0 <= t < |Tags| && 0 <= w < |m.emission[t]| ==> 0.0 <= m.emission[t][w] <= 1.0)
    && (forall a, b :: 0 <= a < |Tags| && 0 <= b < |m.transition[a]| ==> 0.0 <= m.transition[a][b] <= 1.0)
  }

  lemma EmissionEntryBound(corpus: seq<SplitLine>, t: nat, w: nat)
    requires t < |Tags| && w < |WordTypesOf(corpus, |corpus|)|
    ensures Emission(corpus, |corpus|, WordTypesOf(corpus, |corpus|), t, w) <= TagCount(corpus, |corpus|, t)
  {
    var wt := WordTypesOf(corpus, |corpus|);
    EmissionWithinTotal(corpus, |corpus|, wt, t, w);
    EmissionRowTotal(corpus, |corpus|, t);
    RowCountAtMostTagCount(corpus, |corpus|, t);
  }

  lemma TransitionEntryBound(corpus: seq<SplitLine>, a: nat, b: nat)
    requires a < |Tags| && b < |Tags|
    ensures Transition(corpus, |corpus|, a, b) <= TagCount(corpus, |corpus|, a)
  {
    TransitionWithinTotal(corpus, |corpus|, a, b);
    TransitionRowTotal(corpus, |corpus|, a);
    RowCountAtMostTagCount(corpus, |corpus|, a);
  }

  /** The estimated model is well formed. */
  lemma EstimateWellFormed(corpus: seq<SplitLine>)
    ensures WellFormed(Estimate(corpus))
  {
    var m := Estimate(corpus);
    WordTypesAreFirstWords(corpus, |corpus|, "");
    forall t, w | 0 <= t < |Tags| && 0 <= w < |m.emission[t]| ensures m.emission[t][w] <= 1.0 {
      EmissionEntryBound(corpus, t, w);
    }
    forall a, b | 0 <= a < |Tags| && 0 <= b < |m.transition[a]| ensures m.transition[a][b] <= 1.0 {
      TransitionEntryBound(corpus, a, b);
    }
  }

  /** The tags are the list C0, C1, ..., C25 spelled out in helper.py. */
  lemma TagsSpelledOut()
    ensures Tags == ["C0", "C1", "C2", "C3", "C4", "C5", "C6", "C7", "C8", "C9",
      "C10", "C11", "C12", "C13", "C14", "C15", "C16", "C17", "C18", "C19",
      "C20", "C21", "C22", "C23", "C24", "C25"]
  {
    TagDigits();
    assert Tags[0] == "C0";
    assert Tags[1] == "C1";
    assert Tags[2] == "C2";
    assert Tags[3] == "C3";
    assert Tags[4] == "C4";
    assert Tags[5] == "C5";
    assert Tags[6] == "C6";
    assert Tags[7] == "C7";
    assert Tags[8] == "C8";
    assert Tags[9] == "C9";
    assert Tags[10] == "C10";
    assert Tags[11] == "C11";
    assert Tags[12] == "C12";
    assert Tags[13] == "C13";
    assert Tags[14] == "C14";
    assert Tags[15] == "C15";
    assert Tags[16] == "C16";
    assert Tags[17] == "C17";
    assert Tags[18] == "C18";
    assert Tags[19] == "C19";
    assert Tags[20] == "C20";
    assert Tags[21] == "C21";
    assert Tags[22] == "C22";
    assert Tags[23] == "C23";
    assert Tags[24] == "C24";
    assert Tags[25] == "C25";
  }

  lemma TagDigits()
    ensures forall i :: 0 <= i < 10 ==> Tags[i] == ['C', DigitChar(i)]
    ensures forall i :: 10 <= i < |Tags| ==> Tags[i] == ['C', DigitChar(i / 10), DigitChar(i % 10)]
  {
  }
}
