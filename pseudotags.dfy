/** The two files main of unsupervised.py writes after clustering: the
    cluster listing (one BEGIN CLUSTER ... END CLUSTER block per cluster)
    and the pseudo-tagged training corpus that helper.py trains on, where
    every corpus word found in cluster i becomes the line `word Ci`. A
    file is the sequence of its lines; its text is each line followed by a
    newline. */
module PseudoTags {
  import opened Builtins

  /** Every cluster lists valid vocabulary indices. */
  predicate ValidClusters(wordTypes: seq<string>, clusters: seq<seq<nat>>)
  {
    forall k, j :: 0 <= k < |clusters| && 0 <= j < |clusters[k]| ==> clusters[k][j] < |wordTypes|
  }

  // ---------------------------------------------------------------------
  // The cluster listing

  const BeginCluster: string := "BEGIN CLUSTER"
  const EndCluster: string := "END CLUSTER"

  /** The words of one cluster, in cluster order. */
  function ClusterWords(wordTypes: seq<string>, cluster: seq<nat>): (ws: seq<string>)
    requires forall j :: 0 <= j < |cluster| ==> cluster[j] < |wordTypes|
    ensures |ws| == |cluster|
  {
    seq(|cluster|, j requires 0 <= j < |cluster| => wordTypes[cluster[j]])
  }

  /** The lines written for one cluster: the header, one word per line,
      the footer and the blank line of "END CLUSTER\n\n". */
  function Block(ws: seq<string>): seq<string>
  {
    [BeginCluster] + ws + [EndCluster, ""]
  }

  /** The lines of the cluster listing. */
  function ClusterFileLines(wordTypes: seq<string>, clusters: seq<seq<nat>>): seq<string>
    requires ValidClusters(wordTypes, clusters)
  {
    if clusters == [] then []
    else Block(ClusterWords(wordTypes, clusters[0])) + ClusterFileLines(wordTypes, clusters[1..])
  }

  lemma {:induction false} ClusterFileLinesSnoc(wordTypes: seq<string>, clusters: seq<seq<nat>>, k: nat)
    requires ValidClusters(wordTypes, clusters) && k < |clusters|
    ensures ClusterFileLines(wordTypes, clusters[..k + 1]) ==
            ClusterFileLines(wordTypes, clusters[..k]) + Block(ClusterWords(wordTypes, clusters[k]))
  {
    if k > 0 {
      ClusterFileLinesSnoc(wordTypes, clusters[1..], k - 1);
      assert clusters[1..][..k] == clusters[..k + 1][1..];
      assert clusters[1..][..k - 1] == clusters[..k][1..];
    } else {
      assert clusters[..1][1..] == [];
    }
  }

  /** The writing loop of the cluster listing. */
  method WriteClusterFile(wordTypes: seq<string>, clusters: seq<seq<nat>>) returns (out: seq<string>)
    requires ValidClusters(wordTypes, clusters)
    ensures out == ClusterFileLines(wordTypes, clusters)
  {
    out := [];
    for k := 0 to |clusters|
      invariant out == ClusterFileLines(wordTypes, clusters[..k])
    {
      ClusterFileLinesSnoc(wordTypes, clusters, k);
      out := out + [BeginCluster];
      var cluster := clusters[k];
      for j := 0 to |cluster|
        invariant out == ClusterFileLines(wordTypes, clusters[..k]) + [BeginCluster] +
                         ClusterWords(wordTypes, cluster)[..j]
      {
        assert ClusterWords(wordTypes, cluster)[..j + 1] ==
               ClusterWords(wordTypes, cluster)[..j] + [wordTypes[cluster[j]]];
        out := out + [wordTypes[cluster[j]]];
      }
      assert ClusterWords(wordTypes, cluster)[..|cluster|] == ClusterWords(wordTypes, cluster);
      out := out + [EndCluster, ""];
    }
    assert clusters[..|clusters|] == clusters;
  }

  /** Reads the words of one block up to its footer and blank line;
      returns them and the lines after the block. */
  function ReadBlock(lines: seq<string>): (r: Option<(seq<string>, seq<string>)>)
    ensures r.Some? ==> |r.value.1| < |lines|
  {
    if lines == [] then None
    else if lines[0] == EndCluster then
      (if |lines| >= 2 && lines[1] == "" then Some(([], lines[2..])) else None)
    else
      match ReadBlock(lines[1..])
      case None => None
      case Some((ws, rest)) => Some(([lines[0]] + ws, rest))
  }

  /** Reads a cluster listing back into the words of each cluster. */
  function ReadClusterFile(lines: seq<string>): Option<seq<seq<string>>>
    decreases |lines|
  {
    if lines == [] then Some([])
    else if lines[0] != BeginCluster then None
    else
      match ReadBlock(lines[1..])
      case None => None
      case Some((ws, rest)) =>
        match ReadClusterFile(rest)
        case None => None
        case Some(more) => Some([ws] + more)
  }

  lemma {:induction false} ReadBlockOf(ws: seq<string>, rest: seq<string>)
    requires forall j :: 0 <= j < |ws| ==> ws[j] != EndCluster
    ensures ReadBlock(ws + [EndCluster, ""] + rest) == Some((ws, rest))
  {
    var lines := ws + [EndCluster, ""] + rest;
    if ws == [] {
      assert lines[2..] == rest;
    } else {
      ReadBlockOf(ws[1..], rest);
      assert lines[1..] == ws[1..] + [EndCluster, ""] + rest;
      assert [ws[0]] + ws[1..] == ws;
    }
  }

  /** The words of every cluster, cluster by cluster. */
  function ListingWords(wordTypes: seq<string>, clusters: seq<seq<nat>>): (r: seq<seq<string>>)
    requires ValidClusters(wordTypes, clusters)
    ensures |r| == |clusters|
    ensures forall k :: 0 <= k < |r| ==> r[k] == ClusterWords(wordTypes, clusters[k])
  {
    if clusters == [] then []
    else [ClusterWords(wordTypes, clusters[0])] + ListingWords(wordTypes, clusters[1..])
  }

  /** No word of a cluster is the footer line (a word holds no space). */
  lemma NoFooterWord(wordTypes: seq<string>, cluster: seq<nat>)
    requires forall j :: 0 <= j < |cluster| ==> cluster[j] < |wordTypes|
    requires forall j :: 0 <= j < |wordTypes| ==> ' ' !in wordTypes[j]
    ensures forall j :: 0 <= j < |cluster| ==> ClusterWords(wordTypes, cluster)[j] != EndCluster
  {
    assert EndCluster[3] == ' ';
    forall j | 0 <= j < |cluster| ensures ClusterWords(wordTypes, cluster)[j] != EndCluster {
      assert ' ' !in wordTypes[cluster[j]];
    }
  }

  /** Reading the listing back gives the words of every cluster, in
      order, as long as no word is the footer line itself (no word is: a
      word holds no space). */
  lemma {:induction false} ClusterFileReadsBack(wordTypes: seq<string>, clusters: seq<seq<nat>>)
    requires ValidClusters(wordTypes, clusters)
    requires forall j :: 0 <= j < |wordTypes| ==> ' ' !in wordTypes[j]
    ensures ReadClusterFile(ClusterFileLines(wordTypes, clusters)) == Some(ListingWords(wordTypes, clusters))
  {
    if clusters != [] {
      var ws := ClusterWords(wordTypes, clusters[0]);
      var rest := ClusterFileLines(wordTypes, clusters[1..]);
      NoFooterWord(wordTypes, clusters[0]);
      ReadBlockOf(ws, rest);
      var lines := ClusterFileLines(wordTypes, clusters);
      assert lines == [BeginCluster] + (ws + [EndCluster, ""] + rest);
      assert lines[1..] == ws + [EndCluster, ""] + rest;
      ClusterFileReadsBack(wordTypes, clusters[1..]);
    }
  }

  // ---------------------------------------------------------------------
  // The pseudo-tagged corpus

  const StartLine: string := "<s> START"
  const EndLine: string := "</s> END"

  /** The pseudo-tag of cluster i: "C" followed by i in decimal. */
  function TagName(i: nat): (t: string)
    ensures |t| >= 2 && t[0] == 'C'
  {
    "C" + NatToString(i)
  }

  /** The line f"{word} C{i}". */
  function TagLine(word: string, i: nat): string
  {
    word + " " + TagName(i)
  }

  /** any(word_types[j] == word for j in cluster) */
  predicate InCluster(wordTypes: seq<string>, cluster: seq<nat>, word: string)
    requires forall j :: 0 <= j < |cluster| ==> cluster[j] < |wordTypes|
  {
    exists j :: 0 <= j < |cluster| && wordTypes[cluster[j]] == word
  }

  /** The first cluster, from index i on, that contains the word. */
  function FirstClusterFrom(wordTypes: seq<string>, clusters: seq<seq<nat>>, word: string, i: nat): (r: Option<nat>)
    requires ValidClusters(wordTypes, clusters) && i <= |clusters|
    ensures r.Some? ==> i <= r.value < |clusters| && InCluster(wordTypes, clusters[r.value], word)
    ensures r.Some? ==> forall k :: i <= k < r.value ==> !InCluster(wordTypes, clusters[k], word)
    ensures r.None? ==> forall k :: i <= k < |clusters| ==> !InCluster(wordTypes, clusters[k], word)
    decreases |clusters| - i
  {
    if i == |clusters| then None
    else if InCluster(wordTypes, clusters[i], word) then Some(i)
    else FirstClusterFrom(wordTypes, clusters, word, i + 1)
  }

  /** The first cluster that contains the word, if any. */
  function FirstCluster(wordTypes: seq<string>, clusters: seq<seq<nat>>, word: string): Option<nat>
    requires ValidClusters(wordTypes, clusters)
  {
    FirstClusterFrom(wordTypes, clusters, word, 0)
  }

  /** The lines written for one word: its tag line for the first cluster
      that contains it, or nothing. */
  function WordLines(wordTypes: seq<string>, clusters: seq<seq<nat>>, word: string): seq<string>
    requires ValidClusters(wordTypes, clusters)
  {
    match FirstCluster(wordTypes, clusters, word)
    case Some(i) => [TagLine(word, i)]
    case None => []
  }

  /** The lines written for the words of one corpus line. */
  function TagLines(wordTypes: seq<string>, clusters: seq<seq<nat>>, ws: seq<string>): seq<string>
    requires ValidClusters(wordTypes, clusters)
  {
    if ws == [] then []
    else
      TagLines(wordTypes, clusters, ws[..|ws| - 1]) + WordLines(wordTypes, clusters, ws[|ws| - 1])
  }

  /** The lines written for one corpus line. */
  function SentenceLines(wordTypes: seq<string>, clusters: seq<seq<nat>>, line: string): seq<string>
    requires ValidClusters(wordTypes, clusters)
  {
    [StartLine] + TagLines(wordTypes, clusters, Words(line)) + [EndLine]
  }

  /** The pseudo-tagged corpus. */
  function PseudoCorpus(lines: seq<string>, wordTypes: seq<string>, clusters: seq<seq<nat>>): seq<string>
    requires ValidClusters(wordTypes, clusters)
  {
    if lines == [] then []
    else PseudoCorpus(lines[..|lines| - 1], wordTypes, clusters) + SentenceLines(wordTypes, clusters, lines[|lines| - 1])
  }

  lemma PseudoCorpusSnoc(lines: seq<string>, wordTypes: seq<string>, clusters: seq<seq<nat>>, n: nat)
    requires ValidClusters(wordTypes, clusters) && n < |lines|
    ensures PseudoCorpus(lines[..n + 1], wordTypes, clusters) ==
            PseudoCorpus(lines[..n], wordTypes, clusters) + SentenceLines(wordTypes, clusters, lines[n])
  {
    assert lines[..n + 1][..n] == lines[..n];
  }

  lemma TagLinesSnoc(wordTypes: seq<string>, clusters: seq<seq<nat>>, ws: seq<string>, w: nat)
    requires ValidClusters(wordTypes, clusters) && w < |ws|
    ensures TagLines(wordTypes, clusters, ws[..w + 1]) ==
            TagLines(wordTypes, clusters, ws[..w]) + WordLines(wordTypes, clusters, ws[w])
  {
    assert ws[..w + 1][..w] == ws[..w];
  }

  /** The inner loop over the clusters for one word: writes the tag line
      of the first cluster that contains the word and stops there. */
  method TagWord(wordTypes: seq<string>, clusters: seq<seq<nat>>, word: string) returns (out: seq<string>)
    requires ValidClusters(wordTypes, clusters)
    ensures out == WordLines(wordTypes, clusters, word)
  {
    out := [];
    var i := 0;
    while i < |clusters|
      invariant i <= |clusters|
      invariant FirstCluster(wordTypes, clusters, word) == FirstClusterFrom(wordTypes, clusters, word, i)
    {
      if InCluster(wordTypes, clusters[i], word) {
        out := [TagLine(word, i)];
        return;
      }
      i := i + 1;
    }
  }

  /** The lines written for one corpus line: the start line, the tag
      lines of its words and the end line. */
  method TagSentence(wordTypes: seq<string>, clusters: seq<seq<nat>>, line: string) returns (sentence: seq<string>)
    requires ValidClusters(wordTypes, clusters)
    ensures sentence == SentenceLines(wordTypes, clusters, line)
  {
    var words := Words(line);
    var tags := [];
    for w := 0 to |words|
      invariant tags == TagLines(wordTypes, clusters, words[..w])
    {
      TagLinesSnoc(wordTypes, clusters, words, w);
      var tagged := TagWord(wordTypes, clusters, words[w]);
      tags := tags + tagged;
    }
    assert words[..|words|] == words;
    sentence := [StartLine] + tags + [EndLine];
  }

  /** The writing loop of the training corpus: a start line, one line per
      word that some cluster contains (the first such cluster) and an end
      line, for every corpus line. */
  method WritePseudoCorpus(lines: seq<string>, wordTypes: seq<string>, clusters: seq<seq<nat>>)
    returns (out: seq<string>)
    requires ValidClusters(wordTypes, clusters)
    ensures out == PseudoCorpus(lines, wordTypes, clusters)
  {
    out := [];
    for n := 0 to |lines|
      invariant out == PseudoCorpus(lines[..n], wordTypes, clusters)
    {
      PseudoCorpusSnoc(lines, wordTypes, clusters, n);
      var sentence := TagSentence(wordTypes, clusters, lines[n]);
      out := out + sentence;
    }
    assert lines[..|lines|] == lines;
  }

  // ---------------------------------------------------------------------
  // What helper.py reads back from the training corpus

  /** A tag line splits back into the word and its tag, and the tag's
      digits into the cluster number, when the word has no whitespace at
      its ends (a corpus word can have none at the start of its line, but
      one after a single space could start with a tab, say). */
  lemma TagLineReadsBack(word: string, i: nat)
    requires word != [] && ' ' !in word
    requires !IsSpace(word[0]) && !IsSpace(word[|word| - 1])
    ensures Words(TagLine(word, i)) == [word, TagName(i)]
    ensures ParseNat(TagName(i)[1..]) == i
  {
    var t := TagName(i);
    assert ' ' !in t by {
      assert t == "C" + NatToString(i);
      assert forall k :: 0 <= k < |t| ==> t[k] != ' ';
    }
    assert '0' <= t[|t| - 1] <= '9';
    assert JoinSpace([word, t]) == word + " " + JoinSpace([t]);
    WordsOfJoin([word, t]);
    assert t[1..] == NatToString(i);
    ParseNatToString(i);
  }

  /** No tag line is a sentence marker line. */
  lemma TagLineIsNoMarker(word: string, i: nat)
    requires ' ' !in word
    ensures TagLine(word, i) != StartLine && TagLine(word, i) != EndLine
  {
    var line := TagLine(word, i);
    FindSpaceAt(word, TagName(i));
    FindSpaceAt("<s>", "START");
    FindSpaceAt("</s>", "END");
    assert StartLine == "<s>" + " " + "START" && EndLine == "</s>" + " " + "END";
    if |word| == 3 {
      assert line[4] == 'C' != StartLine[4];
    }
    if |word| == 4 {
      assert line[5] == 'C' != EndLine[5];
    }
  }

  lemma {:induction false} TagLinesHaveNoMarker(wordTypes: seq<string>, clusters: seq<seq<nat>>, ws: seq<string>)
    requires ValidClusters(wordTypes, clusters)
    requires forall j :: 0 <= j < |ws| ==> ' ' !in ws[j]
    ensures StartLine !in TagLines(wordTypes, clusters, ws) && EndLine !in TagLines(wordTypes, clusters, ws)
  {
    if ws != [] {
      TagLinesHaveNoMarker(wordTypes, clusters, ws[..|ws| - 1]);
      var last := ws[|ws| - 1];
      match FirstCluster(wordTypes, clusters, last)
      case Some(i) => TagLineIsNoMarker(last, i);
      case None =>
    }
  }

  lemma MarkersDiffer()
    ensures StartLine != EndLine
  {
    assert StartLine[1] == 's' && EndLine[1] == '/';
  }

  lemma Framed<T>(a: T, mid: seq<T>, b: T)
    requires a != b && a !in mid && b !in mid
    ensures multiset([a] + mid + [b])[a] == 1 && multiset([a] + mid + [b])[b] == 1
  {
    assert multiset([a] + mid + [b]) == multiset{a} + multiset(mid) + multiset{b};
  }

  /** The lines of one corpus line hold one start line and one end line. */
  lemma SentenceMarkers(wordTypes: seq<string>, clusters: seq<seq<nat>>, line: string)
    requires ValidClusters(wordTypes, clusters)
    ensures multiset(SentenceLines(wordTypes, clusters, line))[StartLine] == 1
    ensures multiset(SentenceLines(wordTypes, clusters, line))[EndLine] == 1
  {
    var ws := Words(line);
    assert forall j :: 0 <= j < |ws| ==> ' ' !in ws[j] by {
      assert forall j :: 0 <= j < |ws| ==> ws[j] in ws;
    }
    TagLinesHaveNoMarker(wordTypes, clusters, ws);
    MarkersDiffer();
    Framed(StartLine, TagLines(wordTypes, clusters, ws), EndLine);
  }

  /** The training corpus holds exactly one start line and one end line
      per corpus line. */
  lemma {:induction false} MarkersPerLine(lines: seq<string>, wordTypes: seq<string>, clusters: seq<seq<nat>>)
    requires ValidClusters(wordTypes, clusters)
    ensures multiset(PseudoCorpus(lines, wordTypes, clusters))[StartLine] == |lines|
    ensures multiset(PseudoCorpus(lines, wordTypes, clusters))[EndLine] == |lines|
  {
    if lines != [] {
      var prefix := lines[..|lines| - 1];
      MarkersPerLine(prefix, wordTypes, clusters);
      SentenceMarkers(wordTypes, clusters, lines[|lines| - 1]);
      assert multiset(PseudoCorpus(lines, wordTypes, clusters)) ==
             multiset(PseudoCorpus(prefix, wordTypes, clusters)) +
             multiset(SentenceLines(wordTypes, clusters, lines[|lines| - 1]));
    }
  }

  /** When the clusters partition the vocabulary (as k-means leaves them),
      a vocabulary word is tagged with the one cluster that holds it. */
  lemma TaggedWithItsCluster(wordTypes: seq<string>, clusters: seq<seq<nat>>, j: nat, k: nat)
    requires ValidClusters(wordTypes, clusters) && NoDups(wordTypes)
    requires j < |wordTypes| && k < |clusters| && j in clusters[k]
    requires forall l :: 0 <= l < |clusters| && l != k ==> j !in clusters[l]
    ensures FirstCluster(wordTypes, clusters, wordTypes[j]) == Some(k)
    ensures WordLines(wordTypes, clusters, wordTypes[j]) == [TagLine(wordTypes[j], k)]
  {
    var word := wordTypes[j];
    var q :| 0 <= q < |clusters[k]| && clusters[k][q] == j;
    assert InCluster(wordTypes, clusters[k], word);
    forall l | 0 <= l < |clusters| && l != k
      ensures !InCluster(wordTypes, clusters[l], word)
    {
      forall p | 0 <= p < |clusters[l]| ensures wordTypes[clusters[l][p]] != word {
        assert clusters[l][p] in clusters[l];
      }
    }
  }
}
