/** Tagging a test sentence with the trained model: the Viterbi fill of
    helper.py, the choice of the last tag, the backtrack, and the line
    written for the sentence. */
module Viterbi {
  import opened Builtins
  import opened Hmm

  /** The number of tags, len(tags). */
  const NumTags: nat := 26
  /** The emission score of a word the training corpus never had. */
  const UnknownEmission: real := 0.001
  /** The maximum max_connect starts from. */
  const ConnectStart: real := -99999.0
  /** The maximum the scan of the last column starts from. */
  const FinalStart: real := -999999.0

  lemma NumTagsIsTags()
    ensures |Tags| == NumTags
  {
    TagsDistinct();
  }

  /** The emission score of tag y for a test word: its cell in emission
      row y when the word is a word type, 0.001 otherwise. */
  function EmissionOf(m: Model, word: string, y: nat): (e: real)
    requires WellFormed(m) && y < NumTags
    ensures 0.0 <= e <= 1.0
    ensures word !in m.wordtypes ==> e == UnknownEmission
    ensures forall w :: 0 <= w < |m.wordtypes| && m.wordtypes[w] == word ==> e == m.emission[y][w]
  {
    NumTagsIsTags();
    if word in m.wordtypes then
      var w := IndexOf(m.wordtypes, word);
      assert forall v :: 0 <= v < |m.wordtypes| && m.wordtypes[v] == word ==> v == w by {
        forall v | 0 <= v < |m.wordtypes| && m.wordtypes[v] == word ensures v == w {
          IndexOfDistinct(m.wordtypes, v);
        }
      }
      m.emission[y][w]
    else UnknownEmission
  }

  /** A transition matrix over the tags with non-negative entries. */
  predicate Transitions(tr: seq<seq<real>>)
  {
    |tr| == NumTags && forall a :: 0 <= a < NumTags ==> |tr[a]| == NumTags && forall b :: 0 <= b < NumTags ==> 0.0 <= tr[a][b]
  }

  /** Non-negative emission scores of every tag, one column per word. */
  predicate Lattice(em: seq<seq<real>>)
  {
    forall x :: 0 <= x < |em| ==> |em[x]| == NumTags && forall y :: 0 <= y < NumTags ==> 0.0 <= em[x][y]
  }

  lemma TrainedTransitions(m: Model)
    requires WellFormed(m)
    ensures Transitions(m.transition)
  {
    NumTagsIsTags();
  }

  /** The emission score of every tag for every word of a test sentence,
      as the fill looks them up. */
  function EmissionTable(m: Model, words: seq<string>): (em: seq<seq<real>>)
    requires WellFormed(m)
    ensures |em| == |words| && Lattice(em)
    ensures forall x, y :: 0 <= x < |words| && 0 <= y < NumTags ==> em[x][y] == EmissionOf(m, words[x], y)
  {
    seq(|words|, x requires 0 <= x < |words| => seq(NumTags, y requires 0 <= y < NumTags => EmissionOf(m, words[x], y)))
  }

  /** The scan of max_connect and of the last column: the first of
      scores[..n] that is above init and above every score before it,
      with its position, or (init, -1) when no score is above init. */
  function FirstMax(scores: seq<real>, n: nat, init: real): (r: (real, int))
    requires n <= |scores|
    ensures r.1 == -1 ==> r.0 == init
    ensures r.1 != -1 ==> 0 <= r.1 < n && r.0 == scores[r.1] && init < r.0
    ensures forall k :: 0 <= k < n ==> scores[k] <= r.0
    ensures r.1 != -1 ==> forall k :: 0 <= k < r.1 ==> scores[k] < r.0
  {
    if n == 0 then (init, -1)
    else
      var best := FirstMax(scores, n - 1, init);
      if scores[n - 1] > best.0 then (scores[n - 1], n - 1) else best
  }

  /** How the fill combines two scores. helper.py multiplies them (see
      Times); the proofs below need only that the combination keeps
      non-negative scores non-negative and is monotone in each of them. */
  ghost predicate Monotone(mul: (real, real) -> real)
  {
    (forall a, b :: 0.0 <= a && 0.0 <= b ==> 0.0 <= mul(a, b))
    && (forall a, b, c :: 0.0 <= a <= b && 0.0 <= c ==> mul(a, c) <= mul(b, c))
    && (forall a, b, c :: 0.0 <= a <= b && 0.0 <= c ==> mul(c, a) <= mul(c, b))
  }

  /** Python's * on the scores. */
  function Times(a: real, b: real): real
  {
    a * b
  }

  lemma TimesMonotone()
    ensures Monotone(Times)
  {
    forall a, b, c | 0.0 <= a <= b && 0.0 <= c ensures Times(a, c) <= Times(b, c) && Times(c, a) <= Times(c, b) {
      assert a * c <= b * c && c * a <= c * b;
    }
  }

  /** What the imperative fill asks of its product: Monotone, and 1 is a
      right unit (the first column multiplies the emission score by 1). */
  ghost predicate Product(mul: (real, real) -> real)
  {
    Monotone(mul) && forall a :: mul(a, 1.0) == a
  }

  lemma TimesProduct()
    ensures Product(Times)
  {
    TimesMonotone();
  }

  /** The values max_connect compares for tag y, for the first n tags k:
      the previous column's score of k, times the transition from k to y,
      times the emission score e of y. */
  function Candidates(tr: seq<seq<real>>, mul: (real, real) -> real, prev: seq<real>, y: nat, e: real, n: nat): (c: seq<real>)
    requires Transitions(tr) && |prev| == NumTags && y < NumTags && n <= NumTags
    ensures |c| == n
  {
    if n == 0 then [] else Candidates(tr, mul, prev, y, e, n - 1) + [mul(mul(prev[n - 1], tr[n - 1][y]), e)]
  }

  lemma {:induction false} CandidateAt(tr: seq<seq<real>>, mul: (real, real) -> real, prev: seq<real>, y: nat, e: real, n: nat, k: nat)
    requires Transitions(tr) && |prev| == NumTags && y < NumTags && k < n <= NumTags
    ensures Candidates(tr, mul, prev, y, e, n)[k] == mul(mul(prev[k], tr[k][y]), e)
  {
    if k < n - 1 {
      CandidateAt(tr, mul, prev, y, e, n - 1, k);
    }
  }

  /** A column of non-negative scores, one per tag. */
  predicate Scores(col: seq<real>)
  {
    |col| == NumTags && forall k :: 0 <= k < NumTags ==> 0.0 <= col[k]
  }

  /** max_connect on a column of non-negative scores finds a tag. */
  function Connect(tr: seq<seq<real>>, mul: (real, real) -> real, prev: seq<real>, e: real, y: nat): (r: (real, int))
    requires Transitions(tr) && Monotone(mul) && Scores(prev) && 0.0 <= e && y < NumTags
    ensures 0.0 <= r.0 && 0 <= r.1 < NumTags
    ensures r == FirstMax(Candidates(tr, mul, prev, y, e, |prev|), |prev|, ConnectStart)
  {
    var c := Candidates(tr, mul, prev, y, e, |prev|);
    CandidateAt(tr, mul, prev, y, e, NumTags, 0);
    assert 0.0 <= mul(prev[0], tr[0][y]);
    FirstMax(c, |c|, ConnectStart)
  }

  /** Cell (y, x) of viterbi_matrix for x >= 1, given column x - 1 and
      the emission score e of y: e times what max_connect returns. */
  function Cell(tr: seq<seq<real>>, mul: (real, real) -> real, prev: seq<real>, e: real, y: nat): (v: real)
    requires Transitions(tr) && Monotone(mul) && Scores(prev) && 0.0 <= e && y < NumTags
    ensures 0.0 <= v
  {
    mul(e, Connect(tr, mul, prev, e, y).0)
  }

  /** The column of viterbi_matrix for a word with emission scores ey,
      given the column before it. */
  function NextColumn(tr: seq<seq<real>>, mul: (real, real) -> real, prev: seq<real>, ey: seq<real>): (col: seq<real>)
    requires Transitions(tr) && Monotone(mul) && Scores(prev) && Scores(ey)
    ensures Scores(col)
  {
    seq(NumTags, y requires 0 <= y < NumTags => Cell(tr, mul, prev, ey[y], y))
  }

  /** The column of viterbi_path for a word with emission scores ey,
      given the column of viterbi_matrix before it. */
  function NextPointers(tr: seq<seq<real>>, mul: (real, real) -> real, prev: seq<real>, ey: seq<real>): (ptrs: seq<nat>)
    requires Transitions(tr) && Monotone(mul) && Scores(prev) && Scores(ey)
    ensures |ptrs| == NumTags && forall y :: 0 <= y < NumTags ==> ptrs[y] < NumTags
  {
    seq(NumTags, y requires 0 <= y < NumTags => Connect(tr, mul, prev, ey[y], y).1 as nat)
  }

  /** Column x of viterbi_matrix: the score of every tag for word x; for
      word 0 its emission scores (times the initial 1). */
  function Column(em: seq<seq<real>>, tr: seq<seq<real>>, mul: (real, real) -> real, x: nat): (col: seq<real>)
    requires Lattice(em) && Transitions(tr) && Monotone(mul) && x < |em|
    ensures Scores(col)
  {
    if x == 0 then em[0] else NextColumn(tr, mul, Column(em, tr, mul, x - 1), em[x])
  }

  /** A table of backpointers: a column of NumTags tags per word. */
  predicate PointerTable(ptrs: seq<seq<nat>>)
  {
    forall x :: 0 <= x < |ptrs| ==> |ptrs[x]| == NumTags && forall y :: 0 <= y < NumTags ==> ptrs[x][y] < NumTags
  }

  /** viterbi_path after the fill: column 0 keeps its zeros, column x >= 1
      holds the tag of word x - 1 that max_connect picks for each tag. */
  function Pointers(em: seq<seq<real>>, tr: seq<seq<real>>, mul: (real, real) -> real): (ptrs: seq<seq<nat>>)
    requires Lattice(em) && Transitions(tr) && Monotone(mul)
    ensures |ptrs| == |em| && PointerTable(ptrs)
  {
    seq(|em|, x requires 0 <= x < |em| =>
      if x == 0 then seq(NumTags, _ => 0) else NextPointers(tr, mul, Column(em, tr, mul, x - 1), em[x]))
  }

  /** The tag chosen for the last word: the first maximum of the last
      column, the scan starting from -999999. */
  function FinalTag(em: seq<seq<real>>, tr: seq<seq<real>>, mul: (real, real) -> real): (s: nat)
    requires Lattice(em) && Transitions(tr) && Monotone(mul) && |em| >= 1
    ensures s < NumTags
  {
    var col := Column(em, tr, mul, |em| - 1);
    var r := FirstMax(col, |col|, FinalStart);
    assert col[0] <= r.0;
    r.1
  }

  /** The tags of words[..x + 1] that the backtrack yields when word x
      has tag s. */
  function BackTrack(ptrs: seq<seq<nat>>, x: nat, s: nat): (tags: seq<nat>)
    requires PointerTable(ptrs) && x < |ptrs| && s < NumTags
    ensures |tags| == x + 1 && tags[x] == s
    ensures forall i :: 0 <= i <= x ==> tags[i] < NumTags
  {
    if x == 0 then [s] else BackTrack(ptrs, x - 1, ptrs[x][s]) + [s]
  }

  /** The tags helper.py gives a sentence, one per word. */
  function Tagging(em: seq<seq<real>>, tr: seq<seq<real>>, mul: (real, real) -> real): (tags: seq<nat>)
    requires Lattice(em) && Transitions(tr) && Monotone(mul) && |em| >= 1
    ensures |tags| == |em| && forall i :: 0 <= i < |tags| ==> tags[i] < NumTags
  {
    BackTrack(Pointers(em, tr, mul), |em| - 1, FinalTag(em, tr, mul))
  }

  /** The score the fill gives the tags of words[..x + 1]: the emission
      of the first, then, for each later word, the transition into its
      tag times its emission taken twice (once inside max_connect, once
      when the cell is written). */
  function PathScore(em: seq<seq<real>>, tr: seq<seq<real>>, mul: (real, real) -> real, tags: seq<nat>, x: nat): real
    requires Lattice(em) && Transitions(tr) && x < |tags| <= |em|
    requires forall i :: 0 <= i < |tags| ==> tags[i] < NumTags
  {
    var e := em[x][tags[x]];
    if x == 0 then e else mul(e, mul(mul(PathScore(em, tr, mul, tags, x - 1), tr[tags[x - 1]][tags[x]]), e))
  }

  // ---------------------------------------------------------------------
  // What the fill and the backtrack compute

  /** max_connect's value is at least the candidate of every tag k. */
  lemma ConnectDominates(tr: seq<seq<real>>, mul: (real, real) -> real, prev: seq<real>, e: real, y: nat, k: nat)
    requires Transitions(tr) && Monotone(mul) && Scores(prev) && 0.0 <= e && y < NumTags && k < NumTags
    ensures mul(mul(prev[k], tr[k][y]), e) <= Connect(tr, mul, prev, e, y).0
  {
    CandidateAt(tr, mul, prev, y, e, NumTags, k);
  }

  /** max_connect's value is the candidate of the tag it returns. */
  lemma ConnectAchieved(tr: seq<seq<real>>, mul: (real, real) -> real, prev: seq<real>, e: real, y: nat)
    requires Transitions(tr) && Monotone(mul) && Scores(prev) && 0.0 <= e && y < NumTags
    ensures var r := Connect(tr, mul, prev, e, y); r.0 == mul(mul(prev[r.1], tr[r.1][y]), e)
  {
    CandidateAt(tr, mul, prev, y, e, NumTags, Connect(tr, mul, prev, e, y).1);
  }

  /** A cell is at least the score of reaching its tag from any tag k of
      the previous word, for any score p up to that of k. */
  lemma CellDominates(tr: seq<seq<real>>, mul: (real, real) -> real, prev: seq<real>, e: real, y: nat, k: nat, p: real)
    requires Transitions(tr) && Monotone(mul) && Scores(prev) && 0.0 <= e && y < NumTags && k < NumTags
    requires 0.0 <= p <= prev[k]
    ensures 0.0 <= mul(e, mul(mul(p, tr[k][y]), e)) <= Cell(tr, mul, prev, e, y)
  {
    ConnectDominates(tr, mul, prev, e, y, k);
    var t := tr[k][y];
    assert mul(p, t) <= mul(prev[k], t);
    assert 0.0 <= mul(p, t);
    assert mul(mul(p, t), e) <= mul(mul(prev[k], t), e);
    assert 0.0 <= mul(mul(p, t), e);
  }

  /** A cell is the score of reaching its tag from the tag its
      backpointer names. */
  lemma CellAchieved(tr: seq<seq<real>>, mul: (real, real) -> real, prev: seq<real>, ey: seq<real>, y: nat)
    requires Transitions(tr) && Monotone(mul) && Scores(prev) && Scores(ey) && y < NumTags
    ensures var k := NextPointers(tr, mul, prev, ey)[y];
      NextColumn(tr, mul, prev, ey)[y] == mul(ey[y], mul(mul(prev[k], tr[k][y]), ey[y]))
  {
    ConnectAchieved(tr, mul, prev, ey[y], y);
  }

  /** The score of words[..x + 1] depends only on their tags. */
  lemma {:induction false} PathScorePrefix(em: seq<seq<real>>, tr: seq<seq<real>>, mul: (real, real) -> real, a: seq<nat>, b: seq<nat>, x: nat)
    requires Lattice(em) && Transitions(tr) && x < |a| <= |em| && x < |b| <= |em|
    requires forall i :: 0 <= i < |a| ==> a[i] < NumTags
    requires forall i :: 0 <= i < |b| ==> b[i] < NumTags
    requires forall i :: 0 <= i <= x ==> a[i] == b[i]
    ensures PathScore(em, tr, mul, a, x) == PathScore(em, tr, mul, b, x)
  {
    if x > 0 {
      PathScorePrefix(em, tr, mul, a, b, x - 1);
    }
  }

  /** No tags for words[..x + 1] whose last is y score more than cell
      (y, x). */
  lemma {:induction false} ColumnBoundsPaths(em: seq<seq<real>>, tr: seq<seq<real>>, mul: (real, real) -> real, tags: seq<nat>, x: nat)
    requires Lattice(em) && Transitions(tr) && Monotone(mul) && x < |tags| <= |em|
    requires forall i :: 0 <= i < |tags| ==> tags[i] < NumTags
    ensures 0.0 <= PathScore(em, tr, mul, tags, x) <= Column(em, tr, mul, x)[tags[x]]
  {
    if x > 0 {
      ColumnBoundsPaths(em, tr, mul, tags, x - 1);
      var prev := Column(em, tr, mul, x - 1);
      var y := tags[x];
      CellDominates(tr, mul, prev, em[x][y], y, tags[x - 1], PathScore(em, tr, mul, tags, x - 1));
    }
  }

  /** All the columns of viterbi_matrix. */
  function Columns(em: seq<seq<real>>, tr: seq<seq<real>>, mul: (real, real) -> real): (cols: seq<seq<real>>)
    requires Lattice(em) && Transitions(tr) && Monotone(mul)
    ensures |cols| == |em| && forall x :: 0 <= x < |em| ==> cols[x] == Column(em, tr, mul, x)
  {
    seq(|em|, x requires 0 <= x < |em| => Column(em, tr, mul, x))
  }

  /** Every cell after the first column is the score of reaching it from
      the cell its backpointer names. */
  predicate Achieved(em: seq<seq<real>>, tr: seq<seq<real>>, mul: (real, real) -> real, cols: seq<seq<real>>, ptrs: seq<seq<nat>>)
    requires Lattice(em) && Transitions(tr) && PointerTable(ptrs) && |cols| == |ptrs| <= |em|
    requires forall x :: 0 <= x < |cols| ==> |cols[x]| == NumTags
  {
    forall x, y :: 1 <= x < |cols| && 0 <= y < NumTags ==>
      cols[x][y] == mul(em[x][y], mul(mul(cols[x - 1][ptrs[x][y]], tr[ptrs[x][y]][y]), em[x][y]))
  }

  lemma FillAchieved(em: seq<seq<real>>, tr: seq<seq<real>>, mul: (real, real) -> real)
    requires Lattice(em) && Transitions(tr) && Monotone(mul)
    ensures var cols := Columns(em, tr, mul);
      (forall x :: 0 <= x < |cols| ==> |cols[x]| == NumTags) && Achieved(em, tr, mul, cols, Pointers(em, tr, mul))
  {
    var cols := Columns(em, tr, mul);
    var ptrs := Pointers(em, tr, mul);
    forall x, y | 1 <= x < |cols| && 0 <= y < NumTags
      ensures cols[x][y] == mul(em[x][y], mul(mul(cols[x - 1][ptrs[x][y]], tr[ptrs[x][y]][y]), em[x][y]))
    {
      ColumnCellAchieved(em, tr, mul, x, y);
    }
  }

  /** Cell (y, x) of the fill is the score of reaching it from the cell
      its backpointer names. */
  lemma ColumnCellAchieved(em: seq<seq<real>>, tr: seq<seq<real>>, mul: (real, real) -> real, x: nat, y: nat)
    requires Lattice(em) && Transitions(tr) && Monotone(mul) && 1 <= x < |em| && y < NumTags
    ensures var k := Pointers(em, tr, mul)[x][y];
      Column(em, tr, mul, x)[y] == mul(em[x][y], mul(mul(Column(em, tr, mul, x - 1)[k], tr[k][y]), em[x][y]))
  {
    var prev := Column(em, tr, mul, x - 1);
    assert Pointers(em, tr, mul)[x] == NextPointers(tr, mul, prev, em[x]);
    CellAchieved(tr, mul, prev, em[x], y);
  }

  /** The tags the backtrack yields from cell (s, x) of a table of
      columns that its pointers achieve score exactly that cell. */
  lemma {:induction false} BackTrackAchieves(em: seq<seq<real>>, tr: seq<seq<real>>, mul: (real, real) -> real, cols: seq<seq<real>>, ptrs: seq<seq<nat>>, x: nat, s: nat)
    requires Lattice(em) && Transitions(tr) && PointerTable(ptrs) && |cols| == |ptrs| <= |em|
    requires forall x :: 0 <= x < |cols| ==> |cols[x]| == NumTags
    requires |cols| >= 1 && cols[0] == em[0] && Achieved(em, tr, mul, cols, ptrs)
    requires x < |cols| && s < NumTags
    ensures PathScore(em, tr, mul, BackTrack(ptrs, x, s), x) == cols[x][s]
  {
    if x > 0 {
      var k := ptrs[x][s];
      var front := BackTrack(ptrs, x - 1, k);
      var tags := BackTrack(ptrs, x, s);
      BackTrackAchieves(em, tr, mul, cols, ptrs, x - 1, k);
      assert tags == front + [s];
      PathScorePrefix(em, tr, mul, tags, front, x - 1);
    }
  }

  /** The tags the backtrack yields from cell (s, x) score exactly that cell. */
  lemma BackTrackScore(em: seq<seq<real>>, tr: seq<seq<real>>, mul: (real, real) -> real, x: nat, s: nat)
    requires Lattice(em) && Transitions(tr) && Monotone(mul) && x < |em| && s < NumTags
    ensures PathScore(em, tr, mul, BackTrack(Pointers(em, tr, mul), x, s), x) == Column(em, tr, mul, x)[s]
  {
    FillAchieved(em, tr, mul);
    BackTrackAchieves(em, tr, mul, Columns(em, tr, mul), Pointers(em, tr, mul), x, s);
  }

  /** The last word gets the first tag of greatest score in the last
      column. */
  lemma FinalTagIsFirstMax(em: seq<seq<real>>, tr: seq<seq<real>>, mul: (real, real) -> real)
    requires Lattice(em) && Transitions(tr) && Monotone(mul) && |em| >= 1
    ensures var col := Column(em, tr, mul, |em| - 1); var s := FinalTag(em, tr, mul);
      (forall y :: 0 <= y < NumTags ==> col[y] <= col[s]) && (forall y :: 0 <= y < s ==> col[y] < col[s])
  {
    var col := Column(em, tr, mul, |em| - 1);
    var r := FirstMax(col, |col|, FinalStart);
    assert col[0] <= r.0;
  }

  /** No tags for the whole sentence score more than the ones helper.py
      writes. */
  lemma TaggingIsOptimal(em: seq<seq<real>>, tr: seq<seq<real>>, mul: (real, real) -> real, tags: seq<nat>)
    requires Lattice(em) && Transitions(tr) && Monotone(mul) && 1 <= |tags| == |em|
    requires forall i :: 0 <= i < |tags| ==> tags[i] < NumTags
    ensures PathScore(em, tr, mul, tags, |em| - 1) <= PathScore(em, tr, mul, Tagging(em, tr, mul), |em| - 1)
  {
    var last := |em| - 1;
    ColumnBoundsPaths(em, tr, mul, tags, last);
    FinalTagIsFirstMax(em, tr, mul);
    BackTrackScore(em, tr, mul, last, FinalTag(em, tr, mul));
  }

  /** Each tag after the first names, through its backpointer, the tag
      before it. */
  predicate FollowsPointers(ptrs: seq<seq<nat>>, tags: seq<nat>)
    requires PointerTable(ptrs) && |tags| <= |ptrs|
    requires forall i :: 0 <= i < |tags| ==> tags[i] < NumTags
  {
    forall i {:trigger ptrs[i]} :: 1 <= i < |tags| ==> tags[i - 1] == ptrs[i][tags[i]]
  }

  /** The backtrack follows the backpointers, and any tags that follow
      them and end in s are the backtrack's. */
  lemma {:induction false} BackTrackFollowsPointers(ptrs: seq<seq<nat>>, x: nat, s: nat, tags: seq<nat>)
    requires PointerTable(ptrs) && x < |ptrs| && s < NumTags
    requires |tags| == x + 1 && forall i :: 0 <= i <= x ==> tags[i] < NumTags
    ensures FollowsPointers(ptrs, BackTrack(ptrs, x, s))
    ensures FollowsPointers(ptrs, tags) && tags[x] == s ==> tags == BackTrack(ptrs, x, s)
  {
    if x > 0 {
      var k := ptrs[x][s];
      var front := BackTrack(ptrs, x - 1, k);
      var back := BackTrack(ptrs, x, s);
      BackTrackFollowsPointers(ptrs, x - 1, k, tags[..x]);
      assert back == front + [s];
      forall i | 1 <= i < |back| ensures back[i - 1] == ptrs[i][back[i]] {
        if i < x {
          assert back[i - 1] == front[i - 1] && back[i] == front[i];
        }
      }
      if FollowsPointers(ptrs, tags) && tags[x] == s {
        assert FollowsPointers(ptrs, tags[..x]) by {
          forall i | 1 <= i < x ensures tags[..x][i - 1] == ptrs[i][tags[..x][i]] {
            assert ptrs[i] == ptrs[i];
          }
        }
        assert tags[x - 1] == k by {
          assert ptrs[x] == ptrs[x];
        }
        assert tags == tags[..x] + [s];
      }
    }
  }

  // ---------------------------------------------------------------------
  // The decoder

  /** Column x of a matrix. */
  function ColumnOf(v: array2<real>, x: nat): (r: seq<real>)
    reads v
    requires x < v.Length1
    ensures |r| == v.Length0 && forall k :: 0 <= k < v.Length0 ==> r[k] == v[k, x]
  {
    seq(v.Length0, k requires 0 <= k < v.Length0 reads v => v[k, x])
  }

  /** max_connect: the first tag k of word x - 1 whose score, times the
      transition from k to y, times the emission score, is greatest. */
  method MaxConnect(x: nat, y: nat, viterbi: array2<real>, emission: real, transmission: seq<seq<real>>, mul: (real, real) -> real)
    returns (maxVal: real, path: int)
    requires Transitions(transmission) && viterbi.Length0 == NumTags && 1 <= x < viterbi.Length1 && y < NumTags
    ensures (maxVal, path) == FirstMax(Candidates(transmission, mul, ColumnOf(viterbi, x - 1), y, emission, viterbi.Length0), viterbi.Length0, ConnectStart)
  {
    maxVal := ConnectStart;
    path := -1;
    ghost var prev := ColumnOf(viterbi, x - 1);
    ghost var c := Candidates(transmission, mul, prev, y, emission, |prev|);
    for k := 0 to NumTags
      invariant (maxVal, path) == FirstMax(c, k, ConnectStart)
    {
      var val := mul(viterbi[k, x - 1], transmission[k][y]);
      CandidateAt(transmission, mul, prev, y, emission, NumTags, k);
      if mul(val, emission) > maxVal {
        maxVal := mul(val, emission);
        path := k;
      }
    }
    assert c == Candidates(transmission, mul, ColumnOf(viterbi, x - 1), y, emission, viterbi.Length0);
  }

  /** The emission score the fill looks up for word and tag y. */
  method LookupEmission(m: Model, word: string, y: nat) returns (emission: real)
    requires WellFormed(m) && y < NumTags
    ensures emission == EmissionOf(m, word, y)
  {
    NumTagsIsTags();
    if word in m.wordtypes {
      var wordIndex := IndexOf(m.wordtypes, word);
      emission := m.emission[y][wordIndex];
    } else {
      emission := UnknownEmission;
    }
  }

  /** One step of the inner loop of the fill: cell (y, x) of
      viterbi_matrix and of viterbi_path, given the emission score of y
      and the column before x. */
  method FillCell(transmission: seq<seq<real>>, mul: (real, real) -> real, viterbi: array2<real>, path: array2<int>, x: nat, y: nat, emission: real, ghost prev: seq<real>)
    modifies viterbi, path
    requires Transitions(transmission) && Product(mul) && Scores(prev) && 0.0 <= emission
    requires viterbi.Length0 == path.Length0 == NumTags && viterbi.Length1 == path.Length1 && x < viterbi.Length1 && y < NumTags
    requires x > 0 ==> forall k :: 0 <= k < NumTags ==> viterbi[k, x - 1] == prev[k]
    ensures viterbi[y, x] == if x == 0 then emission else Cell(transmission, mul, prev, emission, y)
    ensures x > 0 ==> path[y, x] == Connect(transmission, mul, prev, emission, y).1
    ensures forall j, z :: 0 <= j < viterbi.Length1 && 0 <= z < NumTags && (j != x || z != y) ==>
      viterbi[z, j] == old(viterbi[z, j]) && path[z, j] == old(path[z, j])
  {
    var maxVal: real;
    if x > 0 {
      assert ColumnOf(viterbi, x - 1) == prev;
      var p;
      maxVal, p := MaxConnect(x, y, viterbi, emission, transmission, mul);
      path[y, x] := p;
    } else {
      maxVal := 1.0;
    }
    viterbi[y, x] := mul(emission, maxVal);
  }

  /** The inner loop of the fill: column x of viterbi_matrix and of
      viterbi_path, from the column prev before it (ignored when x is 0);
      ey holds the emission scores of word x. */
  method FillColumn(m: Model, words: SplitLine, mul: (real, real) -> real, viterbi: array2<real>, path: array2<int>, x: nat,
                    ghost prev: seq<real>, ghost ey: seq<real>)
    modifies viterbi, path
    requires WellFormed(m) && Transitions(m.transition) && Product(mul) && Scores(prev) && Scores(ey)
    requires viterbi.Length0 == path.Length0 == NumTags && viterbi.Length1 == path.Length1 == |words| && x < |words|
    requires forall y :: 0 <= y < NumTags ==> ey[y] == EmissionOf(m, words[x], y)
    requires x > 0 ==> forall k :: 0 <= k < NumTags ==> viterbi[k, x - 1] == prev[k]
    ensures x == 0 ==> forall y :: 0 <= y < NumTags ==> viterbi[y, x] == ey[y]
    ensures x > 0 ==> forall y :: 0 <= y < NumTags ==> viterbi[y, x] == NextColumn(m.transition, mul, prev, ey)[y]
    ensures x > 0 ==> forall y :: 0 <= y < NumTags ==> path[y, x] == NextPointers(m.transition, mul, prev, ey)[y]
    ensures forall j, y :: 0 <= j < |words| && j != x && 0 <= y < NumTags ==> viterbi[y, j] == old(viterbi[y, j]) && path[y, j] == old(path[y, j])
  {
    for y := 0 to NumTags
      invariant forall j, z :: 0 <= j < |words| && j != x && 0 <= z < NumTags ==> viterbi[z, j] == old(viterbi[z, j]) && path[z, j] == old(path[z, j])
      invariant x > 0 ==> forall k :: 0 <= k < NumTags ==> viterbi[k, x - 1] == prev[k]
      invariant x == 0 ==> forall z :: 0 <= z < y ==> viterbi[z, x] == ey[z]
      invariant x > 0 ==> forall z :: 0 <= z < y ==> viterbi[z, x] == NextColumn(m.transition, mul, prev, ey)[z]
      invariant x > 0 ==> forall z :: 0 <= z < y ==> path[z, x] == NextPointers(m.transition, mul, prev, ey)[z]
    {
      var emission := LookupEmission(m, words[x], y);
      FillCell(m.transition, mul, viterbi, path, x, y, emission, prev);
    }
  }

  /** The outer loop of the fill: every column of viterbi_matrix and of
      viterbi_path, left to right. */
  method Fill(m: Model, words: SplitLine, mul: (real, real) -> real, ghost em: seq<seq<real>>) returns (viterbi: array2<real>, path: array2<int>)
    requires WellFormed(m) && Transitions(m.transition) && Product(mul) && Lattice(em) && |em| == |words|
    requires forall x, y :: 0 <= x < |words| && 0 <= y < NumTags ==> em[x][y] == EmissionOf(m, words[x], y)
    ensures fresh(viterbi) && fresh(path)
    ensures viterbi.Length0 == path.Length0 == NumTags && viterbi.Length1 == path.Length1 == |words|
    ensures forall x, y {:trigger Column(em, m.transition, mul, x)[y]} :: 0 <= x < |words| && 0 <= y < NumTags ==>
      viterbi[y, x] == Column(em, m.transition, mul, x)[y]
    ensures forall x, y {:trigger Pointers(em, m.transition, mul)[x][y]} :: 1 <= x < |words| && 0 <= y < NumTags ==>
      path[y, x] == Pointers(em, m.transition, mul)[x][y]
  {
    viterbi := new real[NumTags, |words|]((_, _) => 0.0);
    path := new int[NumTags, |words|]((_, _) => 0);
    for x := 0 to |words|
      invariant forall j, y :: 0 <= j < x && 0 <= y < NumTags ==> viterbi[y, j] == Column(em, m.transition, mul, j)[y]
      invariant forall j, y :: 1 <= j < x && 0 <= y < NumTags ==> path[y, j] == Pointers(em, m.transition, mul)[j][y]
    {
      ghost var prev := if x == 0 then em[0] else Column(em, m.transition, mul, x - 1);
      FillColumn(m, words, mul, viterbi, path, x, prev, em[x]);
      assert x > 0 ==> Column(em, m.transition, mul, x) == NextColumn(m.transition, mul, prev, em[x]);
      assert x > 0 ==> Pointers(em, m.transition, mul)[x] == NextPointers(m.transition, mul, prev, em[x]);
    }
  }

  /** The scan of the last column for its first greatest score; col is
      what that column holds. */
  method LastTag(viterbi: array2<real>, n: nat, ghost col: seq<real>) returns (maxs: int)
    requires viterbi.Length0 == NumTags == |col| && 1 <= n == viterbi.Length1
    requires forall y :: 0 <= y < NumTags ==> viterbi[y, n - 1] == col[y]
    ensures maxs == FirstMax(col, |col|, FinalStart).1
  {
    var maxval := FinalStart;
    maxs := -1;
    for x := 0 to NumTags
      invariant (maxval, maxs) == FirstMax(col, x, FinalStart)
    {
      if viterbi[x, n - 1] > maxval {
        maxval := viterbi[x, n - 1];
        maxs := x;
      }
    }
  }

  /** The backtrack loop: pos_tags from the last word to the first, each
      tag read from viterbi_path at the tag after it, starting from s. It
      rebuilds any tag sequence that ends in s and agrees with the
      pointers in path. */
  method FollowPath(path: array2<int>, s: int, ghost tags: seq<int>) returns (posTags: seq<int>)
    requires path.Length0 == NumTags && 1 <= path.Length1 == |tags| && tags[|tags| - 1] == s
    requires forall j :: 0 <= j < |tags| ==> 0 <= tags[j] < NumTags
    requires forall j :: 1 <= j < |tags| ==> tags[j - 1] == path[tags[j], j]
    ensures posTags == tags
  {
    var n := path.Length1;
    var pos := new int[n](_ => -1);
    var maxs := s;
    var x := n;
    while x > 0
      invariant 0 <= x <= n
      invariant forall j :: x <= j < n ==> pos[j] == tags[j]
      invariant x > 0 ==> maxs == tags[x - 1]
    {
      x := x - 1;
      pos[x] := maxs;
      maxs := path[maxs, x];
    }
    posTags := pos[..];
  }

  /** The backtrack from tag s of the last word: the tags BackTrack reads
      off the pointer table ptrs that path holds. */
  method Backtrack(path: array2<int>, s: int, ghost ptrs: seq<seq<nat>>) returns (posTags: seq<int>)
    requires PointerTable(ptrs) && 1 <= |ptrs| == path.Length1 && path.Length0 == NumTags && 0 <= s < NumTags
    requires forall x, y :: 1 <= x < |ptrs| && 0 <= y < NumTags ==> path[y, x] == ptrs[x][y]
    ensures posTags == BackTrack(ptrs, path.Length1 - 1, s)
  {
    ghost var tags := BackTrack(ptrs, path.Length1 - 1, s);
    BackTrackFollowsPointers(ptrs, path.Length1 - 1, s, tags);
    posTags := FollowPath(path, s, tags);
  }

  /** The final tag is read off the last column the fill leaves, and the
      tagging is the backtrack from it. */
  lemma TaggingFromLastColumn(em: seq<seq<real>>, tr: seq<seq<real>>, mul: (real, real) -> real, n: nat, col: seq<real>, k: nat, s: int)
    requires Lattice(em) && Transitions(tr) && Monotone(mul) && |em| == n >= 1
    requires col == Column(em, tr, mul, n - 1) && k == |col| && s == FirstMax(col, k, FinalStart).1
    ensures 0 <= s < NumTags && Tagging(em, tr, mul) == BackTrack(Pointers(em, tr, mul), n - 1, s)
  {
    ColumnCongruent(em, tr, mul, n - 1, |em| - 1);
    var last := Column(em, tr, mul, |em| - 1);
    FirstMaxCongruent(col, last, k, |last|, FinalStart);
    assert s == FinalTag(em, tr, mul);
    BackTrackCongruent(Pointers(em, tr, mul), |em| - 1, n - 1, FinalTag(em, tr, mul), s);
  }

  lemma ColumnCongruent(em: seq<seq<real>>, tr: seq<seq<real>>, mul: (real, real) -> real, x: nat, x': nat)
    requires Lattice(em) && Transitions(tr) && Monotone(mul) && x == x' < |em|
    ensures Column(em, tr, mul, x) == Column(em, tr, mul, x')
  {
  }

  lemma FirstMaxCongruent(a: seq<real>, b: seq<real>, n: nat, n': nat, init: real)
    requires a == b && n == n' <= |a|
    ensures FirstMax(a, n, init) == FirstMax(b, n', init)
  {
  }

  lemma BackTrackCongruent(ptrs: seq<seq<nat>>, x: nat, x': nat, s: nat, s': nat)
    requires PointerTable(ptrs) && x == x' < |ptrs| && s == s' < NumTags
    ensures BackTrack(ptrs, x, s) == BackTrack(ptrs, x', s')
  {
  }

  /** The tagging of one test sentence, for any product and the emission
      lattice em of the sentence: the fill, the choice of the last tag,
      and the backtrack. */
  method DecodeLattice(m: Model, words: SplitLine, mul: (real, real) -> real, ghost em: seq<seq<real>>) returns (posTags: seq<int>)
    requires WellFormed(m) && Transitions(m.transition) && Product(mul) && Lattice(em) && |em| == |words|
    requires forall x, y :: 0 <= x < |words| && 0 <= y < NumTags ==> em[x][y] == EmissionOf(m, words[x], y)
    ensures posTags == Tagging(em, m.transition, mul)
  {
    var viterbi, path := Fill(m, words, mul, em);
    posTags := ReadTagging(viterbi, path, em, m.transition, mul);
  }

  /** The choice of the last tag and the backtrack, from the matrices
      the fill leaves for the lattice em. */
  method ReadTagging(viterbi: array2<real>, path: array2<int>, ghost em: seq<seq<real>>, ghost tr: seq<seq<real>>, mul: (real, real) -> real)
    returns (posTags: seq<int>)
    requires Lattice(em) && Transitions(tr) && Monotone(mul) && |em| >= 1
    requires viterbi.Length0 == path.Length0 == NumTags && viterbi.Length1 == path.Length1 == |em|
    requires forall x, y {:trigger Column(em, tr, mul, x)[y]} :: 0 <= x < |em| && 0 <= y < NumTags ==>
      viterbi[y, x] == Column(em, tr, mul, x)[y]
    requires forall x, y {:trigger Pointers(em, tr, mul)[x][y]} :: 1 <= x < |em| && 0 <= y < NumTags ==>
      path[y, x] == Pointers(em, tr, mul)[x][y]
    ensures posTags == Tagging(em, tr, mul)
  {
    var n := viterbi.Length1;
    ghost var col := Column(em, tr, mul, n - 1);
    var maxs := LastTag(viterbi, n, col);
    TaggingFromLastColumn(em, tr, mul, n, col, |col|, maxs);
    posTags := Backtrack(path, maxs, Pointers(em, tr, mul));
  }

  /** The tagging of one test sentence, for any product. */
  method Decode(m: Model, words: SplitLine, mul: (real, real) -> real) returns (posTags: seq<int>)
    requires WellFormed(m) && Transitions(m.transition) && Product(mul)
    ensures posTags == Tagging(EmissionTable(m, words), m.transition, mul)
  {
    posTags := DecodeLattice(m, words, mul, EmissionTable(m, words));
  }

  /** The tags helper.py gives a sentence under a trained model. */
  function Decoding(m: Model, words: SplitLine): (tags: seq<nat>)
    requires WellFormed(m)
    ensures |tags| == |words| && forall i :: 0 <= i < |tags| ==> tags[i] < NumTags
  {
    TrainedTransitions(m);
    TimesMonotone();
    Tagging(EmissionTable(m, words), m.transition, Times)
  }

  /** The tagging of one test sentence with Python's product. */
  method TagTestSentence(m: Model, words: SplitLine) returns (posTags: seq<int>)
    requires WellFormed(m)
    ensures posTags == Decoding(m, words)
  {
    TrainedTransitions(m);
    TimesProduct();
    posTags := Decode(m, words, Times);
  }
}
