/** The two programs end to end. main of unsupervised.py tokenises the
    corpus, picks the feature words, builds the context vectors, runs ten
    rounds of k-means from the seed words and writes the cluster listing
    and the pseudo-tagged training corpus; main of helper.py trains the
    bigram model on that corpus and tags the test file. Files are
    sequences of lines; the seed word indices are a parameter. */
module Pipeline {
  import opened Builtins
  import Vocabulary
  import Features
  import KMeans
  import PseudoTags
  import Hmm
  import Output

  /** number_of_top_words of main. */
  const TopWords: nat := 100

  /** The number of seed words, one per cluster. */
  const NumClusters: nat := 26

  // ---------------------------------------------------------------------
  // The training corpus never makes training raise

  lemma {:induction false} LeadingSpaceAppend(x: string, y: string)
    ensures LeadingSpace(x + y) == if LeadingSpace(x) < |x| then LeadingSpace(x) else |x| + LeadingSpace(y)
  {
    if x == [] {
      assert x + y == y;
    } else if IsSpace(x[0]) {
      assert (x + y)[1..] == x[1..] + y;
      LeadingSpaceAppend(x[1..], y);
    }
  }

  lemma StripOf(s: string, u: string)
    requires LeadingSpace(s) <= |s| && s[LeadingSpace(s)..] == u
    requires u != [] && !IsSpace(u[|u| - 1])
    ensures Strip(s) == u
  {
    assert TrailingSpace(u) == 0;
    assert u[..|u|] == u;
  }

  /** strip() of a word, a space and a word t with no whitespace at its
      ends, when the word is not all whitespace: the word loses its
      leading whitespace. */
  lemma StripKeepsWord(word: string, t: string)
    requires t != [] && !IsSpace(t[|t| - 1])
    requires LeadingSpace(word) < |word|
    ensures Strip(word + (" " + t)) == word[LeadingSpace(word)..] + (" " + t)
  {
    LeadingSpaceAppend(word, " " + t);
    DropWithin(word, " " + t, LeadingSpace(word));
    StripOf(word + (" " + t), word[LeadingSpace(word)..] + (" " + t));
  }

  /** ... and when it is all whitespace, it vanishes with the space. */
  lemma StripDropsSpaces(word: string, t: string)
    requires t != [] && !IsSpace(t[0]) && !IsSpace(t[|t| - 1])
    requires LeadingSpace(word) == |word|
    ensures Strip(word + (" " + t)) == t
  {
    var s := word + (" " + t);
    LeadingSpaceAppend(word, " " + t);
    assert (" " + t)[1..] == t;
    assert LeadingSpace(" " + t) == 1;
    AfterSeparator(word, ' ', t);
    StripOf(s, t);
  }

  /** Dropping part of the first of two joined sequences. */
  lemma DropWithin<T>(a: seq<T>, b: seq<T>, n: nat)
    requires n <= |a|
    ensures (a + b)[n..] == a[n..] + b
  {
  }

  /** What follows a separator that comes right after a prefix. */
  lemma AfterSeparator<T>(a: seq<T>, sep: T, b: seq<T>)
    ensures (a + ([sep] + b))[|a| + 1..] == b
  {
  }

  /** A tag name has no space and no whitespace at its ends. */
  lemma TagNameClean(i: nat)
    ensures var t := PseudoTags.TagName(i);
      ' ' !in t && !IsSpace(t[0]) && !IsSpace(t[|t| - 1])
  {
    var t := PseudoTags.TagName(i);
    assert t == "C" + NatToString(i);
    assert forall k :: 0 <= k < |t| ==> t[k] != ' ';
  }

  lemma JoinPair(a: string, b: string)
    ensures JoinSpace([a, b]) == a + (" " + b)
  {
    assert [a, b][1..] == [b];
    assert a + (" " + b) == (a + " ") + b;
  }

  /** The words of a word, a space and a clean word t: the first word
      without its leading whitespace, and t. */
  lemma WordsKeepWord(word: string, t: string)
    requires ' ' !in word && ' ' !in t
    requires t != [] && !IsSpace(t[|t| - 1])
    requires LeadingSpace(word) < |word|
    ensures Words(word + (" " + t)) == [word[LeadingSpace(word)..], t]
  {
    var a := word[LeadingSpace(word)..];
    StripKeepsWord(word, t);
    assert ' ' !in a;
    JoinPair(a, t);
    SplitJoin([a, t]);
  }

  /** ... and just t when the first word is all whitespace. */
  lemma WordsDropWord(word: string, t: string)
    requires ' ' !in t
    requires t != [] && !IsSpace(t[0]) && !IsSpace(t[|t| - 1])
    requires LeadingSpace(word) == |word|
    ensures Words(word + (" " + t)) == [t]
  {
    StripDropsSpaces(word, t);
    FindSpaceAt(t, "");
  }

  /** A tag line reads back as at most two words, the last being the tag:
      the word itself, or nothing when strip() swallows a word made only
      of whitespace. */
  lemma TagLineWords(word: string, i: nat)
    requires ' ' !in word
    ensures var ws := Words(PseudoTags.TagLine(word, i));
      |ws| <= 2 && ws[|ws| - 1] == PseudoTags.TagName(i)
  {
    var t := PseudoTags.TagName(i);
    TagNameClean(i);
    assert PseudoTags.TagLine(word, i) == word + (" " + t);
    if LeadingSpace(word) < |word| {
      WordsKeepWord(word, t);
    } else {
      WordsDropWord(word, t);
    }
  }

  /** The lines the pseudo-tagger writes: the two sentence markers, and
      tag lines of space-free words with a tag below n. */
  ghost predicate PseudoLine(line: string, n: nat)
  {
    line == PseudoTags.StartLine || line == PseudoTags.EndLine
    || exists w: string, i: nat :: ' ' !in w && i < n && line == PseudoTags.TagLine(w, i)
  }

  /** The sentence markers split into a marker word and its partner. */
  lemma StartWords()
    ensures Words(PseudoTags.StartLine) == ["<s>", "START"]
  {
    var ps := ["<s>", "START"];
    assert JoinSpace(ps) == PseudoTags.StartLine by {
      assert ps[1..] == ["START"];
    }
    WordsOfJoin(ps);
  }

  lemma EndWords()
    ensures Words(PseudoTags.EndLine) == ["</s>", "END"]
  {
    var ps := ["</s>", "END"];
    assert JoinSpace(ps) == PseudoTags.EndLine by {
      assert ps[1..] == ["END"];
    }
    WordsOfJoin(ps);
  }

  /** A tag line of a cluster below 26 has one of the tags as its second
      word, if it has one. */
  lemma TagLineTrains(word: string, i: nat)
    requires ' ' !in word && i < |Hmm.Tags|
    ensures !Hmm.Raises(Words(PseudoTags.TagLine(word, i)))
  {
    TagLineWords(word, i);
    assert Hmm.Tags[i] == PseudoTags.TagName(i);
  }

  /** None of those lines makes the second pass of training raise when
      there are no more clusters than tags. */
  lemma PseudoLineTrains(line: string, n: nat)
    requires PseudoLine(line, n) && n <= |Hmm.Tags|
    ensures !Hmm.Raises(Words(line))
  {
    if line == PseudoTags.StartLine || line == PseudoTags.EndLine {
      StartWords();
      EndWords();
    } else {
      var w: string, i: nat :| ' ' !in w && i < n && line == PseudoTags.TagLine(w, i);
      TagLineTrains(w, i);
    }
  }

  lemma {:induction false} TagLinesArePseudo(wordTypes: seq<string>, clusters: seq<seq<nat>>, ws: seq<string>)
    requires PseudoTags.ValidClusters(wordTypes, clusters)
    requires forall j :: 0 <= j < |ws| ==> ' ' !in ws[j]
    ensures forall k :: 0 <= k < |PseudoTags.TagLines(wordTypes, clusters, ws)| ==>
              PseudoLine(PseudoTags.TagLines(wordTypes, clusters, ws)[k], |clusters|)
  {
    if ws != [] {
      var front := ws[..|ws| - 1];
      var last := ws[|ws| - 1];
      TagLinesArePseudo(wordTypes, clusters, front);
      var before := PseudoTags.TagLines(wordTypes, clusters, front);
      var out := PseudoTags.TagLines(wordTypes, clusters, ws);
      assert out == before + PseudoTags.WordLines(wordTypes, clusters, last);
      assert forall k :: 0 <= k < |before| ==> out[k] == before[k];
      match PseudoTags.FirstCluster(wordTypes, clusters, last)
      case Some(i) =>
        assert ' ' !in last && i < |clusters|;
        assert out[|before|] == PseudoTags.TagLine(last, i);
        assert PseudoLine(out[|before|], |clusters|);
      case None =>
        assert |out| == |before|;
    }
  }

  lemma {:induction false} CorpusLinesArePseudo(lines: seq<string>, wordTypes: seq<string>, clusters: seq<seq<nat>>)
    requires PseudoTags.ValidClusters(wordTypes, clusters)
    ensures forall k :: 0 <= k < |PseudoTags.PseudoCorpus(lines, wordTypes, clusters)| ==>
              PseudoLine(PseudoTags.PseudoCorpus(lines, wordTypes, clusters)[k], |clusters|)
  {
    if lines != [] {
      var front := lines[..|lines| - 1];
      CorpusLinesArePseudo(front, wordTypes, clusters);
      var ws := Words(lines[|lines| - 1]);
      assert forall j :: 0 <= j < |ws| ==> ' ' !in ws[j] by {
        assert forall j :: 0 <= j < |ws| ==> ws[j] in ws;
      }
      TagLinesArePseudo(wordTypes, clusters, ws);
      var before := PseudoTags.PseudoCorpus(front, wordTypes, clusters);
      var tagLines := PseudoTags.TagLines(wordTypes, clusters, ws);
      var out := PseudoTags.PseudoCorpus(lines, wordTypes, clusters);
      assert out == before + ([PseudoTags.StartLine] + tagLines + [PseudoTags.EndLine]);
      forall k | 0 <= k < |out| ensures PseudoLine(out[k], |clusters|) {
        if k < |before| {
          assert out[k] == before[k];
        } else if k == |before| {
          assert out[k] == PseudoTags.StartLine;
        } else if k < |before| + 1 + |tagLines| {
          assert out[k] == tagLines[k - |before| - 1];
        } else {
          assert out[k] == PseudoTags.EndLine;
        }
      }
    }
  }

  /** Training on the corpus main writes never raises ValueError, whatever
      the clusters, as long as there are no more clusters than tags: every
      second word of a line that carries a word is one of C0 .. C25. */
  lemma TrainingCorpusTrains(lines: seq<string>, wordTypes: seq<string>, clusters: seq<seq<nat>>)
    requires PseudoTags.ValidClusters(wordTypes, clusters) && |clusters| <= |Hmm.Tags|
    ensures Hmm.FirstBadLine(Hmm.Tokenized(PseudoTags.PseudoCorpus(lines, wordTypes, clusters))).None?
  {
    var out := PseudoTags.PseudoCorpus(lines, wordTypes, clusters);
    var corpus := Hmm.Tokenized(out);
    CorpusLinesArePseudo(lines, wordTypes, clusters);
    forall k | 0 <= k < |corpus| ensures !Hmm.Raises(corpus[k]) {
      Hmm.TokenizedAt(out, k);
      PseudoLineTrains(out[k], |clusters|);
    }
  }

  // ---------------------------------------------------------------------
  // main of unsupervised.py

  /** The feature vectors of the vocabulary words, as the vectors of reals
      k-means averages. */
  function FeatureVectors(tokens: seq<string>, uw: seq<string>, fw: seq<string>): (fv: seq<KMeans.Point>)
    ensures |fv| == |uw| && KMeans.Rectangular(fv, 2 * |fw|)
    ensures forall w, c :: 0 <= w < |uw| && 0 <= c < 2 * |fw| ==>
              fv[w][c] == Features.Entry(tokens, uw, fw, w, c, |tokens|) as real
  {
    seq(|uw|, w requires 0 <= w < |uw| =>
      seq(2 * |fw|, c requires 0 <= c < 2 * |fw| => Features.Entry(tokens, uw, fw, w, c, |tokens|) as real))
  }

  /** The rows of a count matrix, as vectors of reals. */
  function Points(m: array2<nat>): (fv: seq<KMeans.Point>)
    reads m
    ensures |fv| == m.Length0 && KMeans.Rectangular(fv, m.Length1)
    ensures forall w, c :: 0 <= w < m.Length0 && 0 <= c < m.Length1 ==> fv[w][c] == m[w, c] as real
  {
    seq(m.Length0, w requires 0 <= w < m.Length0 reads m =>
      seq(m.Length1, c requires 0 <= c < m.Length1 reads m => m[w, c] as real))
  }

  lemma SameVectors(fv: seq<KMeans.Point>, gv: seq<KMeans.Point>, d: nat)
    requires |fv| == |gv| && KMeans.Rectangular(fv, d) && KMeans.Rectangular(gv, d)
    requires forall w, c :: 0 <= w < |fv| && 0 <= c < d ==> fv[w][c] == gv[w][c]
    ensures fv == gv
  {
    forall w | 0 <= w < |fv| ensures fv[w] == gv[w] {
    }
  }

  /** Every seed indexes a vocabulary word; otherwise building the first
      centroids raises IndexError. */
  predicate SeedsFit(seeds: seq<nat>, n: nat)
  {
    forall k :: 0 <= k < |seeds| ==> seeds[k] < n
  }

  /** The clusters main of unsupervised.py ends with: the assignment made
      with the centroids of the ninth update, started from the seed words'
      vectors; or the IndexError raised when there are fewer than 125
      distinct words or a seed is no vocabulary index. */
  function Clustering(lines: seq<string>, seeds: seq<nat>): (r: Result<seq<seq<nat>>>)
    requires |seeds| == NumClusters
    ensures r.Err? <==>
      Vocabulary.FrequentWords(Vocabulary.TokensOf(lines), TopWords).Err? ||
      !SeedsFit(seeds, |Dedup(Vocabulary.TokensOf(lines))|)
    ensures r.Ok? ==>
      |r.value| == NumClusters && PseudoTags.ValidClusters(Dedup(Vocabulary.TokensOf(lines)), r.value)
  {
    var tokens := Vocabulary.TokensOf(lines);
    var uw := Dedup(tokens);
    match Vocabulary.FrequentWords(tokens, TopWords)
    case Err(e) => Err(e)
    case Ok(fw) =>
      if !SeedsFit(seeds, |uw|) then Err(IndexError)
      else
        var fv := FeatureVectors(tokens, uw, fw);
        Ok(KMeans.Assignment(KMeans.CentroidsAfter(fv, seeds, KMeans.Rounds - 1), fv))
  }

  /** The two files main of unsupervised.py writes: the cluster listing
      and the training corpus. */
  function UnsupervisedFiles(lines: seq<string>, seeds: seq<nat>): Result<(seq<string>, seq<string>)>
    requires |seeds| == NumClusters
  {
    var uw := Dedup(Vocabulary.TokensOf(lines));
    match Clustering(lines, seeds)
    case Err(e) => Err(e)
    case Ok(clusters) =>
      Ok((PseudoTags.ClusterFileLines(uw, clusters), PseudoTags.PseudoCorpus(lines, uw, clusters)))
  }

  /** Every word type lies in exactly one cluster, the one whose final
      centroid is closest to its vector, and the training corpus tags it
      with that cluster. */
  lemma WordTaggedWithItsCluster(lines: seq<string>, seeds: seq<nat>, j: nat)
    requires |seeds| == NumClusters && Clustering(lines, seeds).Ok?
    requires j < |Dedup(Vocabulary.TokensOf(lines))|
    ensures var tokens := Vocabulary.TokensOf(lines);
      var uw := Dedup(tokens);
      var fv := FeatureVectors(tokens, uw, Vocabulary.FrequentWords(tokens, TopWords).value);
      var k := KMeans.ClosestCluster(fv[j], KMeans.CentroidsAfter(fv, seeds, KMeans.Rounds - 1));
      var clusters := Clustering(lines, seeds).value;
      (forall l :: 0 <= l < |clusters| ==> (j in clusters[l] <==> l == k))
      && PseudoTags.WordLines(uw, clusters, uw[j]) == [PseudoTags.TagLine(uw[j], k)]
  {
    var tokens := Vocabulary.TokensOf(lines);
    var uw := Dedup(tokens);
    var fv := FeatureVectors(tokens, uw, Vocabulary.FrequentWords(tokens, TopWords).value);
    var cs := KMeans.CentroidsAfter(fv, seeds, KMeans.Rounds - 1);
    var k := KMeans.ClosestCluster(fv[j], cs);
    var clusters := Clustering(lines, seeds).value;
    assert clusters == KMeans.Assignment(cs, fv);
    KMeans.AssignmentPartition(cs, fv);
    PseudoTags.TaggedWithItsCluster(uw, clusters, j, k);
  }

  /** main of unsupervised.py without its file handling and prints. */
  method Unsupervised(lines: seq<string>, seeds: seq<nat>) returns (r: Result<(seq<string>, seq<string>)>)
    requires |seeds| == NumClusters
    ensures r == UnsupervisedFiles(lines, seeds)
  {
    var tokens := Vocabulary.GetTokens(lines);
    var wordTypes := Vocabulary.GetUniqueWords(lines);
    var topWords := Vocabulary.GetFrequentWords(lines, TopWords);
    if topWords.Err? {
      return Err(topWords.error);
    }
    var matrix := Features.GetFeatureVectors(tokens, wordTypes, topWords.value);
    var fv := Points(matrix);
    SameVectors(fv, FeatureVectors(tokens, wordTypes, topWords.value), 2 * |topWords.value|);
    if !SeedsFit(seeds, |fv|) {
      return Err(IndexError);
    }
    var clusters := KMeans.Cluster(fv, seeds);
    var listing := PseudoTags.WriteClusterFile(wordTypes, clusters);
    var corpus := PseudoTags.WritePseudoCorpus(lines, wordTypes, clusters);
    r := Ok((listing, corpus));
  }

  // ---------------------------------------------------------------------
  // main of helper.py

  /** What main of helper.py writes for a test file: one tagged line per
      test line under the model estimated from the training corpus, or
      the ValueError of the corpus's first bad line. */
  function HelperFile(training: seq<string>, test: seq<string>): Result<seq<string>>
  {
    var corpus := Hmm.Tokenized(training);
    match Hmm.FirstBadLine(corpus)
    case Some(k) => Err(ValueError(k))
    case None =>
      Hmm.EstimateWellFormed(corpus);
      Ok(Output.TaggedFile(Hmm.Estimate(corpus), test))
  }

  /** main of helper.py without its file handling: trains, then tags the
      test lines one by one. */
  method Helper(training: seq<string>, test: seq<string>) returns (r: Result<seq<string>>)
    ensures r == HelperFile(training, test)
  {
    var model := Hmm.Train(training);
    if model.Err? {
      return Err(model.error);
    }
    Hmm.EstimateWellFormed(Hmm.Tokenized(training));
    var out := Output.TagTestFile(model.value, test);
    r := Ok(out);
  }

  // ---------------------------------------------------------------------
  // Both

  /** unsupervised.py run on a corpus and a test file: the cluster listing,
      the training corpus and the tagged test file. The only errors are
      the IndexErrors of the clustering; helper.py never raises on the
      corpus unsupervised.py hands it. */
  method Run(lines: seq<string>, seeds: seq<nat>, test: seq<string>)
    returns (r: Result<(seq<string>, seq<string>, seq<string>)>)
    requires |seeds| == NumClusters
    ensures r.Err? <==> Clustering(lines, seeds).Err?
    ensures r.Err? ==> r.error == Clustering(lines, seeds).error
    ensures r.Ok? ==> UnsupervisedFiles(lines, seeds) == Ok((r.value.0, r.value.1))
    ensures r.Ok? ==> HelperFile(r.value.1, test) == Ok(r.value.2)
  {
    var files := Unsupervised(lines, seeds);
    if files.Err? {
      return Err(files.error);
    }
    var (listing, corpus) := files.value;
    ghost var uw := Dedup(Vocabulary.TokensOf(lines));
    TrainingCorpusTrains(lines, uw, Clustering(lines, seeds).value);
    var tagged := Helper(corpus, test);
    match tagged
    case Err(_) =>
      assert false;
    case Ok(out) =>
      r := Ok((listing, corpus, out));
  }
}
