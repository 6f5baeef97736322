/** The few Python built-ins the tagger relies on, with Python's semantics:
    str.strip(), str.split(' '), str(n) for a natural number, list.index,
    and the "append if not already present" idiom that builds a list of
    distinct items in first-seen order. */
module Builtins {

  /** The outcome of a computation that may raise. */
  datatype Result<T> = Ok(value: T) | Err(error: Exception)

  /** The exceptions the tagger's code can raise on its inputs: an index
      past the end of a list, or a value missing from a list searched with
      list.index (with the number of the input line that caused it). */
  datatype Exception = IndexError | ValueError(line: nat)

  /** A value that may be absent. */
  datatype Option<T> = None | Some(value: T)

  // ---------------------------------------------------------------------
  // Lists

  predicate NoDups<T(==)>(s: seq<T>)
  {
    forall i, j :: 0 <= i < j < |s| ==> s[i] != s[j]
  }

  /** Python's list.index: the position of the first occurrence of x. */
  function IndexOf<T(==)>(s: seq<T>, x: T): (k: nat)
    requires x in s
    ensures k < |s| && s[k] == x
    ensures forall j :: 0 <= j < k ==> s[j] != x
  {
    if s[0] == x then 0 else 1 + IndexOf(s[1..], x)
  }

  /** In a list without duplicates, list.index finds every position. */
  lemma IndexOfDistinct<T>(s: seq<T>, k: nat)
    requires NoDups(s) && k < |s|
    ensures IndexOf(s, s[k]) == k
  {
  }

  /** The list built by scanning s and appending every item not yet in
      the list (the `if x not in xs: xs.append(x)` idiom). */
  function Dedup<T(==)>(s: seq<T>): (r: seq<T>)
    ensures NoDups(r)
  {
    if s == [] then []
    else
      var d := Dedup(s[..|s| - 1]);
      if s[|s| - 1] in d then d else d + [s[|s| - 1]]
  }

  /** Dedup keeps every item and adds none. */
  lemma {:induction false} DedupMembers<T>(s: seq<T>)
    ensures forall x :: x in Dedup(s) <==> x in s
  {
    if s != [] {
      DedupMembers(s[..|s| - 1]);
      assert s == s[..|s| - 1] + [s[|s| - 1]];
    }
  }

  /** One step of the scan: what appending x to the input does. */
  lemma DedupSnoc<T>(s: seq<T>, x: T)
    ensures Dedup(s + [x]) == if x in Dedup(s) then Dedup(s) else Dedup(s) + [x]
  {
    assert (s + [x])[..|s|] == s;
  }

  lemma DedupIn<T>(s: seq<T>, i: nat)
    requires i < |Dedup(s)|
    ensures Dedup(s)[i] in s
  {
    DedupMembers(s);
    assert Dedup(s)[i] in Dedup(s);
  }

  /** The items of Dedup(s) are ordered by their first appearance in s. */
  lemma {:induction false} DedupFirstSeen<T>(s: seq<T>, i: nat, j: nat)
    requires i < j < |Dedup(s)|
    ensures Dedup(s)[i] in s && Dedup(s)[j] in s
    ensures IndexOf(s, Dedup(s)[i]) < IndexOf(s, Dedup(s)[j])
  {
    var p, x := s[..|s| - 1], s[|s| - 1];
    assert s == p + [x];
    DedupSnoc(p, x);
    var d := Dedup(p);
    DedupIn(p, i);
    IndexOfPrefix(p, x, d[i]);
    if j < |d| {
      DedupFirstSeen(p, i, j);
      IndexOfPrefix(p, x, d[j]);
    } else {
      DedupMembers(p);
      IndexOfLast(p, x);
    }
  }

  lemma IndexOfLast<T>(p: seq<T>, x: T)
    requires x !in p
    ensures IndexOf(p + [x], x) == |p|
  {
    assert (p + [x])[|p|] == x;
    assert forall j :: 0 <= j < |p| ==> (p + [x])[j] == p[j];
  }

  lemma IndexOfPrefix<T>(p: seq<T>, x: T, y: T)
    requires y in p
    ensures IndexOf(p + [x], y) == IndexOf(p, y)
  {
    var k := IndexOf(p, y);
    assert (p + [x])[k] == y;
    assert forall j :: 0 <= j < |p| ==> (p + [x])[j] == p[j];
  }

  // ---------------------------------------------------------------------
  // str.strip()

  /** The characters str.strip() removes (those for which str.isspace()). */
  predicate IsSpace(c: char)
  {
    var n := c as int;
    (9 <= n <= 13) || (28 <= n <= 32) || n == 0x85 || n == 0xA0 || n == 0x1680
    || (0x2000 <= n <= 0x200A) || n == 0x2028 || n == 0x2029 || n == 0x202F
    || n == 0x205F || n == 0x3000
  }

  /** The number of whitespace characters s starts with. */
  function LeadingSpace(s: string): (n: nat)
    ensures n <= |s|
    ensures forall k :: 0 <= k < n ==> IsSpace(s[k])
    ensures n == |s| || !IsSpace(s[n])
  {
    if s == [] || !IsSpace(s[0]) then 0 else 1 + LeadingSpace(s[1..])
  }

  /** The number of whitespace characters s ends with. */
  function TrailingSpace(s: string): (n: nat)
    ensures n <= |s|
    ensures forall k :: |s| - n <= k < |s| ==> IsSpace(s[k])
    ensures n == |s| || !IsSpace(s[|s| - 1 - n])
  {
    if s == [] || !IsSpace(s[|s| - 1]) then 0 else 1 + TrailingSpace(s[..|s| - 1])
  }

  /** Python's s.strip(): s without its leading and trailing whitespace. */
  function Strip(s: string): (r: string)
    ensures r == [] || (!IsSpace(r[0]) && !IsSpace(r[|r| - 1]))
    ensures LeadingSpace(s) + |r| <= |s| && r == s[LeadingSpace(s)..LeadingSpace(s) + |r|]
    ensures forall k :: LeadingSpace(s) + |r| <= k < |s| ==> IsSpace(s[k])
  {
    var t := s[LeadingSpace(s)..];
    t[..|t| - TrailingSpace(t)]
  }

  /** A string without surrounding whitespace is its own strip. */
  lemma StripClean(s: string)
    requires s == [] || (!IsSpace(s[0]) && !IsSpace(s[|s| - 1]))
    ensures Strip(s) == s
  {
    assert LeadingSpace(s) == 0;
    assert TrailingSpace(s) == 0;
  }

  // ---------------------------------------------------------------------
  // str.split(' ') and ' '.join

  /** The position of the first ' ' in s, or |s| when there is none. */
  function FindSpace(s: string): (k: nat)
    ensures k <= |s| && ' ' !in s[..k]
    ensures k < |s| ==> s[k] == ' '
  {
    if s == [] || s[0] == ' ' then 0
    else
      var k := 1 + FindSpace(s[1..]);
      assert s[..k] == [s[0]] + s[1..][..k - 1];
      k
  }

  /** Python's s.split(' '): the pieces between single spaces, with the
      empty pieces that consecutive spaces produce. */
  function SplitSpace(s: string): (r: seq<string>)
    ensures |r| >= 1
    ensures forall p :: p in r ==> ' ' !in p
    decreases |s|
  {
    var k := FindSpace(s);
    if k == |s| then [s] else [s[..k]] + SplitSpace(s[k + 1..])
  }

  /** Python's ' '.join(ps). */
  function JoinSpace(ps: seq<string>): string
    requires |ps| >= 1
  {
    if |ps| == 1 then ps[0] else ps[0] + " " + JoinSpace(ps[1..])
  }

  lemma FindSpaceAt(a: string, b: string)
    requires ' ' !in a
    ensures FindSpace(a + " " + b) == |a|
    ensures FindSpace(a) == |a|
  {
    var s := a + " " + b;
    assert s[|a|] == ' ';
    assert forall j :: 0 <= j < |a| ==> s[j] == a[j];
  }

  /** Joining the pieces of a split gives back the string. */
  lemma {:induction false} JoinSplit(s: string)
    ensures JoinSpace(SplitSpace(s)) == s
    decreases |s|
  {
    var k := FindSpace(s);
    if k < |s| {
      var rest := SplitSpace(s[k + 1..]);
      JoinSplit(s[k + 1..]);
      var ps := [s[..k]] + rest;
      assert SplitSpace(s) == ps;
      assert |ps| > 1 && ps[0] == s[..k] && ps[1..] == rest;
      assert JoinSpace(ps) == s[..k] + " " + JoinSpace(rest);
      assert s == s[..k] + " " + s[k + 1..];
    }
  }

  /** Splitting a join of space-free pieces gives back the pieces. */
  lemma {:induction false} SplitJoin(ps: seq<string>)
    requires |ps| >= 1
    requires forall p :: p in ps ==> ' ' !in p
    ensures SplitSpace(JoinSpace(ps)) == ps
  {
    if |ps| == 1 {
      FindSpaceAt(ps[0], "");
    } else {
      var rest := JoinSpace(ps[1..]);
      FindSpaceAt(ps[0], rest);
      var s := ps[0] + " " + rest;
      assert s[..|ps[0]|] == ps[0];
      assert s[|ps[0]| + 1..] == rest;
      SplitJoin(ps[1..]);
      assert ps == [ps[0]] + ps[1..];
    }
  }

  /** The words of a line as the tagger reads them: line.strip().split(' '). */
  function Words(line: string): (ws: seq<string>)
    ensures |ws| >= 1
    ensures forall w :: w in ws ==> ' ' !in w
  {
    SplitSpace(Strip(line))
  }

  /** A line made of space-free, non-empty words with no whitespace at its
      two ends reads back as those words. */
  lemma WordsOfJoin(ps: seq<string>)
    requires |ps| >= 1
    requires forall p :: p in ps ==> ' ' !in p
    requires ps[0] != [] && !IsSpace(ps[0][0])
    requires ps[|ps| - 1] != [] && !IsSpace(ps[|ps| - 1][|ps[|ps| - 1]| - 1])
    ensures Words(JoinSpace(ps)) == ps
  {
    var s := JoinSpace(ps);
    JoinLast(ps);
    assert s[0] == ps[0][0];
    StripClean(s);
    SplitJoin(ps);
  }

  lemma {:induction false} JoinLast(ps: seq<string>)
    requires |ps| >= 1 && ps[|ps| - 1] != []
    ensures |JoinSpace(ps)| > 0
    ensures JoinSpace(ps)[|JoinSpace(ps)| - 1] == ps[|ps| - 1][|ps[|ps| - 1]| - 1]
  {
    if |ps| > 1 {
      JoinLast(ps[1..]);
    }
  }

  // ---------------------------------------------------------------------
  // str(n) for a natural number

  function DigitChar(d: nat): (c: char)
    requires d < 10
    ensures '0' <= c <= '9'
  {
    (('0' as int) + d) as char
  }

  /** Python's str(n) for n >= 0: decimal digits, no leading zero. */
  function NatToString(n: nat): (r: string)
    ensures |r| >= 1
    ensures forall i :: 0 <= i < |r| ==> '0' <= r[i] <= '9'
  {
    if n < 10 then [DigitChar(n)] else NatToString(n / 10) + [DigitChar(n % 10)]
  }

  /** Python's int(s) for a string of decimal digits. */
  function ParseNat(s: string): nat
    requires |s| >= 1
    requires forall i :: 0 <= i < |s| ==> '0' <= s[i] <= '9'
  {
    var d := (s[|s| - 1] as int) - ('0' as int);
    if |s| == 1 then d else 10 * ParseNat(s[..|s| - 1]) + d
  }

  /** str and int are inverse on the naturals. */
  lemma {:induction false} ParseNatToString(n: nat)
    ensures ParseNat(NatToString(n)) == n
  {
    if n >= 10 {
      var s := NatToString(n);
      assert s[..|s| - 1] == NatToString(n / 10);
      ParseNatToString(n / 10);
    }
  }

  /** Distinct numbers have distinct decimal strings. */
  lemma NatToStringInjective(a: nat, b: nat)
    requires NatToString(a) == NatToString(b)
    ensures a == b
  {
    ParseNatToString(a);
    ParseNatToString(b);
  }
}
