/** The tagged output of helper.py: one line per test sentence, each word
    followed by an underscore and its tag and a space, then " ._." and a
    newline. */
module Output {
  import opened Builtins
  import opened Hmm
  import opened Viterbi
  import PseudoTags

  /** f"{word}_{tags[t]}" */
  function Token(word: string, t: nat): string
    requires t < |Tags|
  {
    word + "_" + Tags[t]
  }

  /** The tokens of a tagged sentence, word by word. */
  function Tokens(words: seq<string>, tags: seq<nat>): (r: seq<string>)
    requires |tags| == |words| && forall i :: 0 <= i < |tags| ==> tags[i] < |Tags|
    ensures |r| == |words| && forall i :: 0 <= i < |r| ==> r[i] == Token(words[i], tags[i])
  {
    seq(|words|, i requires 0 <= i < |words| => Token(words[i], tags[i]))
  }

  /** Every piece followed by one space, in order. */
  function Spaced(ps: seq<string>): string
  {
    if ps == [] then "" else Spaced(ps[..|ps| - 1]) + ps[|ps| - 1] + " "
  }

  /** The trailer helper.py writes after the last token. */
  const Trailer: string := " ._.\n"

  /** The line helper.py writes for words tagged with tags. */
  function TaggedLine(words: seq<string>, tags: seq<nat>): string
    requires |tags| == |words| && forall i :: 0 <= i < |tags| ==> tags[i] < |Tags|
  {
    Spaced(Tokens(words, tags)) + Trailer
  }

  /** Writes the tokens of one sentence and then the trailer. */
  method WriteTagged(words: seq<string>, posTags: seq<nat>) returns (out: string)
    requires |posTags| == |words| && forall i :: 0 <= i < |posTags| ==> posTags[i] < |Tags|
    ensures out == TaggedLine(words, posTags)
  {
    ghost var tokens := Tokens(words, posTags);
    out := "";
    for i := 0 to |posTags|
      invariant out == Spaced(tokens[..i])
    {
      assert tokens[..i + 1][..i] == tokens[..i];
      out := out + words[i] + "_" + Tags[posTags[i]] + " ";
    }
    assert tokens[..|posTags|] == tokens;
    out := out + " ._.\n";
  }

  // ---------------------------------------------------------------------
  // Reading a line back

  /** The position of the last underscore of s, or -1 when there is none. */
  function LastUnderscore(s: string): (k: int)
    ensures -1 <= k < |s|
    ensures k >= 0 ==> s[k] == '_' && '_' !in s[k + 1..]
    ensures k < 0 ==> '_' !in s
  {
    if s == [] then -1
    else if s[|s| - 1] == '_' then |s| - 1
    else
      var k := LastUnderscore(s[..|s| - 1]);
      assert k >= 0 ==> s[k + 1..] == s[..|s| - 1][k + 1..] + [s[|s| - 1]];
      assert k < 0 ==> s == s[..|s| - 1] + [s[|s| - 1]];
      k
  }

  /** token.rsplit('_', 1): the word and the tag of a token. */
  function ReadToken(token: string): (r: (string, string))
  {
    var k := LastUnderscore(token);
    if k < 0 then (token, "") else (token[..k], token[k + 1..])
  }

  lemma {:induction false} LastUnderscoreOf(a: string, b: string)
    requires '_' !in b
    ensures LastUnderscore(a + "_" + b) == |a|
  {
    var s := a + "_" + b;
    if b != [] {
      assert s[..|s| - 1] == a + "_" + b[..|b| - 1];
      LastUnderscoreOf(a, b[..|b| - 1]);
    }
  }

  /** A tag name has neither an underscore nor a space in it. */
  lemma TagHasNoSeparator(t: nat)
    requires t < |Tags|
    ensures '_' !in Tags[t] && ' ' !in Tags[t]
  {
    var name := Tags[t];
    assert name == "C" + NatToString(t);
    assert forall k :: 0 <= k < |name| ==> name[k] != '_' && name[k] != ' ';
  }

  /** A token reads back as its word and its tag, whatever underscores the
      word holds, and the tag's digits give back the tag number. */
  lemma TokenReadsBack(word: string, t: nat)
    requires t < |Tags|
    ensures ReadToken(Token(word, t)) == (word, Tags[t])
    ensures ParseNat(Tags[t][1..]) == t
  {
    TagHasNoSeparator(t);
    LastUnderscoreOf(word, Tags[t]);
    var s := Token(word, t);
    assert s[..|word|] == word && s[|word| + 1..] == Tags[t];
    assert Tags[t][1..] == NatToString(t);
    ParseNatToString(t);
  }

  lemma {:induction false} SpacedJoin(ps: seq<string>, q: seq<string>)
    requires |q| >= 1
    ensures Spaced(ps) + JoinSpace(q) == JoinSpace(ps + q)
  {
    if ps != [] {
      var front := ps[..|ps| - 1];
      var p := ps[|ps| - 1];
      assert JoinSpace([p] + q) == p + " " + JoinSpace(q) by {
        assert ([p] + q)[1..] == q;
      }
      SpacedJoin(front, [p] + q);
      calc {
        Spaced(ps) + JoinSpace(q);
        Spaced(front) + p + " " + JoinSpace(q);
        Spaced(front) + JoinSpace([p] + q);
        JoinSpace(front + ([p] + q));
        { assert front + ([p] + q) == ps + q; }
        JoinSpace(ps + q);
      }
    } else {
      assert ps + q == q;
    }
  }

  /** The line without its newline is the space-join of the tokens, an
      empty piece and "._.", so splitting it on spaces gives the tokens
      back in order; with TokenReadsBack, the line determines every word
      and every tag. */
  lemma TaggedLineReadsBack(words: seq<string>, tags: seq<nat>)
    requires |tags| == |words| && forall i :: 0 <= i < |tags| ==> tags[i] < |Tags|
    requires forall w :: w in words ==> ' ' !in w
    ensures var line := TaggedLine(words, tags);
      |line| >= 1 && line[|line| - 1] == '\n' &&
      SplitSpace(line[..|line| - 1]) == Tokens(words, tags) + ["", "._."]
  {
    var tokens := Tokens(words, tags);
    var pieces := tokens + ["", "._."];
    var line := TaggedLine(words, tags);
    assert JoinSpace(["", "._."]) == " ._." by {
      assert ["", "._."][1..] == ["._."];
    }
    SpacedJoin(tokens, ["", "._."]);
    var body := JoinSpace(pieces);
    assert line == body + ['\n'];
    DropLast(body, '\n');
    TokensHaveNoSpace(words, tags);
    SplitJoin(pieces);
  }

  lemma DropLast<T>(s: seq<T>, c: T)
    ensures (s + [c])[..|s|] == s && (s + [c])[|s|] == c
  {
  }

  /** A token of words without spaces has no space in it. */
  lemma TokensHaveNoSpace(words: seq<string>, tags: seq<nat>)
    requires |tags| == |words| && forall i :: 0 <= i < |tags| ==> tags[i] < |Tags|
    requires forall w :: w in words ==> ' ' !in w
    ensures forall p :: p in Tokens(words, tags) + ["", "._."] ==> ' ' !in p
  {
    var tokens := Tokens(words, tags);
    forall p | p in tokens + ["", "._."] ensures ' ' !in p {
      if p in tokens {
        var i :| 0 <= i < |tokens| && tokens[i] == p;
        TagHasNoSeparator(tags[i]);
        assert words[i] in words;
        assert p == words[i] + "_" + Tags[tags[i]];
      }
    }
  }

  // ---------------------------------------------------------------------
  // The test file

  /** The line helper.py writes for one line of the test file. */
  function TaggedSentence(m: Model, line: string): string
    requires WellFormed(m)
  {
    NumTagsIsTags();
    TaggedLine(Words(line), Decoding(m, Words(line)))
  }

  /** Tags one line of the test file and writes it. */
  method TagTestLine(m: Model, line: string) returns (out: string)
    requires WellFormed(m)
    ensures out == TaggedSentence(m, line)
  {
    NumTagsIsTags();
    var testWords := Words(line);
    var posTags := TagTestSentence(m, testWords);
    out := WriteTagged(testWords, posTags);
  }

  /** The lines helper.py writes for the lines of a test file. */
  function TaggedFile(m: Model, lines: seq<string>): (out: seq<string>)
    requires WellFormed(m)
    ensures |out| == |lines|
    ensures forall i :: 0 <= i < |lines| ==> out[i] == TaggedSentence(m, lines[i])
  {
    seq(|lines|, i requires 0 <= i < |lines| => TaggedSentence(m, lines[i]))
  }

  /** Tags every line of a test file, in order. */
  method TagTestFile(m: Model, lines: seq<string>) returns (out: seq<string>)
    requires WellFormed(m)
    ensures out == TaggedFile(m, lines)
  {
    out := TagEachLine(m, lines, TaggedFile(m, lines));
  }

  /** expected lists the tagged line of every line of the test file. */
  ghost predicate TaggedAs(m: Model, lines: seq<string>, expected: seq<string>)
    requires WellFormed(m)
  {
    |expected| == |lines| &&
    forall i {:trigger TaggedSentence(m, lines[i])} :: 0 <= i < |lines| ==> TaggedSentence(m, lines[i]) == expected[i]
  }

  /** Tags line l of the test file. */
  method TagLineAt(m: Model, lines: seq<string>, l: nat, ghost expected: seq<string>) returns (out: string)
    requires WellFormed(m) && TaggedAs(m, lines, expected) && l < |lines|
    ensures out == expected[l]
  {
    out := TagTestLine(m, lines[l]);
  }

  method TagEachLine(m: Model, lines: seq<string>, ghost expected: seq<string>) returns (out: seq<string>)
    requires WellFormed(m) && TaggedAs(m, lines, expected)
    ensures out == expected
  {
    out := [];
    for l := 0 to |lines|
      invariant out == expected[..l]
    {
      var line := TagLineAt(m, lines, l, expected);
      assert expected[..l + 1] == out + [line];
      out := out + [line];
    }
    assert expected[..|lines|] == expected;
  }
}
