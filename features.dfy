/** The context feature vectors of unsupervised.py (get_feature_vectors):
    one row per vocabulary word and two columns per feature word. Column c
    (c < F, F the number of feature words) counts how often feature word c
    occurs among the four tokens after an occurrence of the row's word;
    column F + c counts it among the four tokens before. A token near the
    end of the stream contributes no forward counts, one near the start
    no backward counts. */
module Features {
  import opened Builtins

  /** How many of the offsets 1..J after position i hold feature word c
      (the first position of that word in fw, as list.index finds it). */
  function Forward(tokens: seq<string>, fw: seq<string>, i: nat, c: nat, J: nat): (r: nat)
    ensures r <= J
  {
    if J == 0 then 0
    else
      Forward(tokens, fw, i, c, J - 1) +
      (if i + J < |tokens| && tokens[i + J] in fw && IndexOf(fw, tokens[i + J]) == c then 1 else 0)
  }

  /** How many of the offsets 1..J before position i hold feature word c. */
  function Backward(tokens: seq<string>, fw: seq<string>, i: nat, c: nat, J: nat): (r: nat)
    ensures r <= J
  {
    if J == 0 then 0
    else
      Backward(tokens, fw, i, c, J - 1) +
      (if i - J >= 0 && i - J < |tokens| && tokens[i - J] in fw && IndexOf(fw, tokens[i - J]) == c then 1 else 0)
  }

  /** What the forward scan of position i adds to column c of its word's
      row after J offsets: it runs only for i < len(tokens) - 4 and fills
      the first |fw| columns. */
  function After(tokens: seq<string>, fw: seq<string>, i: nat, c: nat, J: nat): nat
  {
    if c < |fw| && i < |tokens| - 4 then Forward(tokens, fw, i, c, J) else 0
  }

  /** What the backward scan of position i adds to column c after J
      offsets: it runs only for i > 3 and fills the last |fw| columns. */
  function Before(tokens: seq<string>, fw: seq<string>, i: nat, c: nat, J: nat): nat
  {
    if c >= |fw| && i > 3 then Backward(tokens, fw, i, c - |fw|, J) else 0
  }

  /** Everything position i adds to column c of its word's row. */
  function Hits(tokens: seq<string>, fw: seq<string>, i: nat, c: nat): (r: nat)
    ensures r <= 4
  {
    After(tokens, fw, i, c, 4) + Before(tokens, fw, i, c, 4)
  }

  /** Row w, column c of the feature matrix after the first n positions of
      the token stream. */
  function Entry(tokens: seq<string>, uw: seq<string>, fw: seq<string>, w: nat, c: nat, n: nat): nat
    requires n <= |tokens|
  {
    if n == 0 then 0
    else
      Entry(tokens, uw, fw, w, c, n - 1) +
      (if tokens[n - 1] in uw && IndexOf(uw, tokens[n - 1]) == w then Hits(tokens, fw, n - 1, c) else 0)
  }

  /** Every entry of row w is at most four times the number of
      occurrences of the row's word. */
  lemma {:induction false} EntryBound(tokens: seq<string>, uw: seq<string>, fw: seq<string>, w: nat, c: nat, n: nat)
    requires w < |uw| && n <= |tokens|
    ensures Entry(tokens, uw, fw, w, c, n) <= 4 * multiset(tokens[..n])[uw[w]]
  {
    if n > 0 {
      EntryBound(tokens, uw, fw, w, c, n - 1);
      assert tokens[..n] == tokens[..n - 1] + [tokens[n - 1]];
    }
  }

  /** A stream of at most four tokens leaves the matrix zero: no position
      has four successors or four predecessors. */
  lemma {:induction false} ShortStreamEntriesZero(tokens: seq<string>, uw: seq<string>, fw: seq<string>, w: nat, c: nat, n: nat)
    requires |tokens| <= 4 && n <= |tokens|
    ensures Entry(tokens, uw, fw, w, c, n) == 0
  {
    if n > 0 {
      ShortStreamEntriesZero(tokens, uw, fw, w, c, n - 1);
    }
  }

  /** How many of the offsets 1..J after position i hold some feature
      word. */
  function FeatureWordsAfter(tokens: seq<string>, fw: seq<string>, i: nat, J: nat): (r: nat)
    ensures r <= J
  {
    if J == 0 then 0
    else FeatureWordsAfter(tokens, fw, i, J - 1) + (if i + J < |tokens| && tokens[i + J] in fw then 1 else 0)
  }

  /** How many of the offsets 1..J before position i hold some feature
      word. */
  function FeatureWordsBefore(tokens: seq<string>, fw: seq<string>, i: nat, J: nat): (r: nat)
    ensures r <= J
  {
    if J == 0 then 0
    else FeatureWordsBefore(tokens, fw, i, J - 1) + (if i - J >= 0 && i - J < |tokens| && tokens[i - J] in fw then 1 else 0)
  }

  /** The forward counts of position i summed over the columns lo..hi-1. */
  function AfterSum(tokens: seq<string>, fw: seq<string>, i: nat, lo: nat, hi: nat, J: nat): nat
    decreases hi - lo
  {
    if hi <= lo then 0 else After(tokens, fw, i, lo, J) + AfterSum(tokens, fw, i, lo + 1, hi, J)
  }

  /** The backward counts of position i summed over the columns lo..hi-1. */
  function BeforeSum(tokens: seq<string>, fw: seq<string>, i: nat, lo: nat, hi: nat, J: nat): nat
    decreases hi - lo
  {
    if hi <= lo then 0 else Before(tokens, fw, i, lo, J) + BeforeSum(tokens, fw, i, lo + 1, hi, J)
  }

  lemma {:induction false} AfterSumStep(tokens: seq<string>, fw: seq<string>, i: nat, lo: nat, J: nat)
    requires J >= 1 && i < |tokens| - 4 && lo <= |fw|
    ensures AfterSum(tokens, fw, i, lo, |fw|, J) ==
            AfterSum(tokens, fw, i, lo, |fw|, J - 1) +
            (if i + J < |tokens| && tokens[i + J] in fw && IndexOf(fw, tokens[i + J]) >= lo then 1 else 0)
    decreases |fw| - lo
  {
    if lo < |fw| {
      AfterSumStep(tokens, fw, i, lo + 1, J);
    }
  }

  lemma {:induction false} BeforeSumStep(tokens: seq<string>, fw: seq<string>, i: nat, lo: nat, J: nat)
    requires J >= 1 && 3 < i && |fw| <= lo <= 2 * |fw|
    ensures BeforeSum(tokens, fw, i, lo, 2 * |fw|, J) ==
            BeforeSum(tokens, fw, i, lo, 2 * |fw|, J - 1) +
            (if i - J >= 0 && i - J < |tokens| && tokens[i - J] in fw && |fw| + IndexOf(fw, tokens[i - J]) >= lo then 1 else 0)
    decreases 2 * |fw| - lo
  {
    if lo < 2 * |fw| {
      BeforeSumStep(tokens, fw, i, lo + 1, J);
    }
  }

  /** Each of the four tokens after position i that is a feature word is
      counted in exactly one forward column (that of its first position in
      the feature list): the forward columns of one position add up to
      the number of feature words among its four successors, or to zero
      near the end of the stream. */
  lemma {:induction false} ForwardColumnsTotal(tokens: seq<string>, fw: seq<string>, i: nat, J: nat)
    ensures AfterSum(tokens, fw, i, 0, |fw|, J) ==
            if i < |tokens| - 4 then FeatureWordsAfter(tokens, fw, i, J) else 0
  {
    if i < |tokens| - 4 {
      if J > 0 {
        ForwardColumnsTotal(tokens, fw, i, J - 1);
        AfterSumStep(tokens, fw, i, 0, J);
      } else {
        AfterSumZero(tokens, fw, i, 0, J);
      }
    } else {
      AfterSumZero(tokens, fw, i, 0, J);
    }
  }

  lemma {:induction false} AfterSumZero(tokens: seq<string>, fw: seq<string>, i: nat, lo: nat, J: nat)
    requires !(i < |tokens| - 4) || J == 0
    ensures AfterSum(tokens, fw, i, lo, |fw|, J) == 0
    decreases |fw| - lo
  {
    if lo < |fw| {
      AfterSumZero(tokens, fw, i, lo + 1, J);
    }
  }

  lemma {:induction false} BeforeSumZero(tokens: seq<string>, fw: seq<string>, i: nat, lo: nat, J: nat)
    requires !(i > 3) || J == 0
    ensures BeforeSum(tokens, fw, i, lo, 2 * |fw|, J) == 0
    decreases 2 * |fw| - lo
  {
    if lo < 2 * |fw| {
      BeforeSumZero(tokens, fw, i, lo + 1, J);
    }
  }

  /** Likewise each feature word among the four tokens before position i
      is counted in exactly one backward column. */
  lemma {:induction false} BackwardColumnsTotal(tokens: seq<string>, fw: seq<string>, i: nat, J: nat)
    ensures BeforeSum(tokens, fw, i, |fw|, 2 * |fw|, J) ==
            if i > 3 then FeatureWordsBefore(tokens, fw, i, J) else 0
  {
    if i > 3 {
      if J > 0 {
        BackwardColumnsTotal(tokens, fw, i, J - 1);
        BeforeSumStep(tokens, fw, i, |fw|, J);
      } else {
        BeforeSumZero(tokens, fw, i, |fw|, J);
      }
    } else {
      BeforeSumZero(tokens, fw, i, |fw|, J);
    }
  }

  lemma EntryStep(tokens: seq<string>, uw: seq<string>, fw: seq<string>, i: nat)
    requires i < |tokens| && tokens[i] in uw
    ensures forall w, c :: Entry(tokens, uw, fw, w, c, i + 1) ==
              Entry(tokens, uw, fw, w, c, i) + (if w == IndexOf(uw, tokens[i]) then Hits(tokens, fw, i, c) else 0)
  {
  }

  /** The `if i < len(tokens) - 4` block of get_feature_vectors: counts
      the feature words among the four tokens after position i into the
      forward columns of row `row`. */
  method CountAfter(m: array2<nat>, tokens: seq<string>, fw: seq<string>, i: nat, row: nat)
    requires row < m.Length0 && m.Length1 == 2 * |fw| && i < |tokens| - 4
    modifies m
    ensures forall w, c :: 0 <= w < m.Length0 && 0 <= c < m.Length1 ==>
              m[w, c] == old(m[w, c]) + (if w == row then After(tokens, fw, i, c, 4) else 0)
  {
    assert forall c :: After(tokens, fw, i, c, 0) == 0;
    for j := 1 to 5
      invariant forall w, c :: 0 <= w < m.Length0 && 0 <= c < m.Length1 ==>
                  m[w, c] == old(m[w, c]) + (if w == row then After(tokens, fw, i, c, j - 1) else 0)
    {
      if tokens[i + j] in fw {
        var col := IndexOf(fw, tokens[i + j]);
        m[row, col] := m[row, col] + 1;
      }
    }
  }

  /** The `if i > 3` block: counts the feature words among the four
      tokens before position i into the backward columns of row `row`. */
  method CountBefore(m: array2<nat>, tokens: seq<string>, fw: seq<string>, i: nat, row: nat)
    requires row < m.Length0 && m.Length1 == 2 * |fw| && 3 < i < |tokens|
    modifies m
    ensures forall w, c :: 0 <= w < m.Length0 && 0 <= c < m.Length1 ==>
              m[w, c] == old(m[w, c]) + (if w == row then Before(tokens, fw, i, c, 4) else 0)
  {
    assert forall c :: Before(tokens, fw, i, c, 0) == 0;
    for j := 1 to 5
      invariant forall w, c :: 0 <= w < m.Length0 && 0 <= c < m.Length1 ==>
                  m[w, c] == old(m[w, c]) + (if w == row then Before(tokens, fw, i, c, j - 1) else 0)
    {
      if tokens[i - j] in fw {
        var col := |fw| + IndexOf(fw, tokens[i - j]);
        m[row, col] := m[row, col] + 1;
      }
    }
  }

  /** get_feature_vectors: a zero matrix of |uw| rows and 2|fw| columns,
      filled by one forward and one backward scan of four offsets around
      every position. Every token must be a vocabulary word (list.index
      raises otherwise). */
  method GetFeatureVectors(tokens: seq<string>, uw: seq<string>, fw: seq<string>) returns (m: array2<nat>)
    requires forall k :: 0 <= k < |tokens| ==> tokens[k] in uw
    ensures fresh(m)
    ensures m.Length0 == |uw| && m.Length1 == 2 * |fw|
    ensures forall w, c :: 0 <= w < |uw| && 0 <= c < 2 * |fw| ==>
              m[w, c] == Entry(tokens, uw, fw, w, c, |tokens|)
  {
    m := new nat[|uw|, 2 * |fw|]((_, _) => 0);
    for i := 0 to |tokens|
      invariant forall w, c :: 0 <= w < |uw| && 0 <= c < 2 * |fw| ==>
                  m[w, c] == Entry(tokens, uw, fw, w, c, i)
    {
      var row := IndexOf(uw, tokens[i]);
      if i < |tokens| - 4 {
        CountAfter(m, tokens, fw, i, row);
      }
      if i > 3 {
        CountBefore(m, tokens, fw, i, row);
      }
      EntryStep(tokens, uw, fw, i);
    }
  }
}
