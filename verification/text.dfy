/**
 * Strings as sequences of characters, and the few string operations the
 * application relies on: trimming, ASCII lower-casing, joining and splitting.
 *
 * JavaScript's `String.prototype.trim` removes leading and trailing
 * whitespace; the model fixes whitespace to the six ASCII whitespace
 * characters. Python's `str.strip` is in `PromptService`.
 */
module Text {
  import opened Seqs

  /** ASCII whitespace: space, tab, line feed, vertical tab, form feed, carriage return. */
  predicate IsSpace(c: char) {
    c == ' ' || c == '\t' || c == '\n' || c == '\U{0B}' || c == '\U{0C}' || c == '\r'
  }

  /** Every character of `s` is whitespace (vacuously true of ""). */
  predicate AllSpace(s: string) {
    forall i :: 0 <= i < |s| ==> IsSpace(s[i])
  }

  /** `s` without its leading whitespace. */
  function TrimStart(s: string): (r: string)
    ensures |r| <= |s| && r == s[|s| - |r|..]
    ensures AllSpace(s[..|s| - |r|])
    ensures r == [] || !IsSpace(r[0])
    ensures r == [] <==> AllSpace(s)
  {
    if |s| > 0 && IsSpace(s[0]) then
      var r := TrimStart(s[1..]);
      SliceCons(s, |s| - |r|);
      r
    else s
  }

  lemma SliceCons(s: string, m: nat)
    requires 0 < m <= |s|
    ensures s[..m] == [s[0]] + s[1..][..m - 1]
  {
  }

  /** `s` without its trailing whitespace. */
  function TrimEnd(s: string): (r: string)
    ensures |r| <= |s| && r == s[..|r|]
    ensures AllSpace(s[|r|..])
    ensures r == [] || !IsSpace(r[|r| - 1])
    ensures r == [] <==> AllSpace(s)
  {
    if |s| > 0 && IsSpace(s[|s| - 1]) then
      var r := TrimEnd(s[..|s| - 1]);
      assert s[|r|..] == s[..|s| - 1][|r|..] + [s[|s| - 1]];
      r
    else s
  }

  /** `s` without leading and trailing whitespace. */
  function Trim(s: string): (r: string)
    ensures r == [] <==> AllSpace(s)
    ensures r != [] ==> !IsSpace(r[0]) && !IsSpace(r[|r| - 1])
  {
    TrimFacts(s);
    TrimEnd(TrimStart(s))
  }

  lemma TrimFacts(s: string)
    ensures var r := TrimEnd(TrimStart(s));
      && (r == [] <==> AllSpace(s))
      && (r != [] ==> !IsSpace(r[0]) && !IsSpace(r[|r| - 1]))
  {
    var t := TrimStart(s);
    var r := TrimEnd(t);
    if t != [] {
      assert !IsSpace(t[0]);
      assert r != [];
      assert r[0] == t[0];
    }
  }

  /** Trimming removes whitespace only: what is left is a slice of `s` with only whitespace around it. */
  lemma {:induction false} TrimSlice(s: string)
    ensures var k := |s| - |TrimStart(s)|;
      var r := Trim(s);
      k + |r| <= |s| && r == s[k..k + |r|] && AllSpace(s[..k]) && AllSpace(s[k + |r|..])
  {
    var t := TrimStart(s);
    var r := TrimEnd(t);
    assert Trim(s) == r;
    SuffixSlices(s, |s| - |t|, |r|);
  }

  /** Slicing a suffix of `s` is slicing `s`. */
  lemma SuffixSlices(s: string, k: nat, m: nat)
    requires k + m <= |s|
    ensures s[k..][..m] == s[k..k + m] && s[k..][m..] == s[k + m..]
  {
  }

  /** Trimming what is already trimmed changes nothing. */
  lemma TrimIdempotent(s: string)
    ensures Trim(Trim(s)) == Trim(s)
  {
    var r := Trim(s);
    if r != [] {
      assert TrimStart(r) == r;
      assert TrimEnd(r) == r;
    }
  }

  /** ASCII upper-case letters map to lower case; every other character is kept. */
  function LowerChar(c: char): (r: char)
    ensures !('A' <= r <= 'Z')
    ensures IsSpace(r) <==> IsSpace(c)
    ensures !('A' <= c <= 'Z') ==> r == c
  {
    if 'A' <= c <= 'Z' then (c as int + 32) as char else c
  }

  /** `s.toLowerCase()` restricted to ASCII letters. */
  function Lower(s: string): (r: string)
    ensures |r| == |s|
    ensures forall i :: 0 <= i < |s| ==> r[i] == LowerChar(s[i])
    ensures NoUpper(r)
  {
    if |s| == 0 then [] else [LowerChar(s[0])] + Lower(s[1..])
  }

  /** No ASCII upper-case letter occurs in `s`. */
  predicate NoUpper(s: string) {
    forall i :: 0 <= i < |s| ==> !('A' <= s[i] <= 'Z')
  }

  /** `s.startsWith(prefix)`. */
  predicate StartsWith(s: string, prefix: string) {
    |prefix| <= |s| && s[..|prefix|] == prefix
  }

  /** `parts.join(sep)` / `sep.join(parts)`. */
  function Join(parts: seq<string>, sep: string): string {
    if |parts| == 0 then ""
    else if |parts| == 1 then parts[0]
    else parts[0] + sep + Join(parts[1..], sep)
  }

  /** With a non-empty separator, the join is empty exactly when there is nothing,
      or only one empty string, to join. */
  lemma {:induction false} JoinEmpty(parts: seq<string>, sep: string)
    requires sep != []
    ensures Join(parts, sep) == [] <==> |parts| == 0 || (|parts| == 1 && parts[0] == [])
  {
    if |parts| >= 2 {
      assert |Join(parts, sep)| >= |sep|;
    }
  }

  /** Position of the first occurrence of `c` in `s`. */
  function IndexOf(s: string, c: char): (k: nat)
    requires c in s
    ensures k < |s| && s[k] == c && c !in s[..k]
  {
    if s[0] == c then 0
    else
      var k := IndexOf(s[1..], c);
      assert s[..k + 1] == [s[0]] + s[1..][..k];
      k + 1
  }

  /** `s.split(sep)` for a one-character separator: the pieces between separators,
      including empty ones, so that joining them back with the separator gives `s`. */
  function Split(s: string, sep: char): (pieces: seq<string>)
    ensures |pieces| >= 1
    ensures forall i :: 0 <= i < |pieces| ==> sep !in pieces[i]
    ensures Join(pieces, [sep]) == s
    decreases |s|
  {
    if sep !in s then [s]
    else
      var k := IndexOf(s, sep);
      var rest := Split(s[k + 1..], sep);
      assert s == s[..k] + [sep] + s[k + 1..];
      [s[..k]] + rest
  }

  /** The first separator of `p + [sep] + t` with a separator-free `p` sits right after `p`. */
  lemma {:induction false} IndexAfterFree(p: string, sep: char, t: string)
    requires sep !in p
    ensures var s := p + [sep] + t;
      IndexOf(s, sep) == |p| && s[..|p|] == p && s[|p| + 1..] == t
  {
    var s := p + [sep] + t;
    var k := IndexOf(s, sep);
    assert s[|p|] == sep;
    assert s[..|p|] == p;
    assert forall j :: 0 <= j < |p| ==> s[j] == p[j];
    assert s[|p| + 1..] == t;
  }

  /** One step of `Split` at the first separator. */
  lemma SplitUnfold(s: string, sep: char)
    requires sep in s
    ensures var k := IndexOf(s, sep);
      Split(s, sep) == [s[..k]] + Split(s[k + 1..], sep)
  {
  }

  /** One step of `Join` with at least two parts. */
  lemma JoinUnfold(parts: seq<string>, sep: string)
    requires |parts| >= 2
    ensures Join(parts, sep) == parts[0] + sep + Join(parts[1..], sep)
  {
  }

  /** Splitting a join undoes it when no piece contains the separator. */
  lemma {:induction false} SplitJoin(pieces: seq<string>, sep: char)
    requires |pieces| >= 1
    requires forall i :: 0 <= i < |pieces| ==> sep !in pieces[i]
    ensures Split(Join(pieces, [sep]), sep) == pieces
  {
    if |pieces| >= 2 {
      var p := pieces[0];
      var t := Join(pieces[1..], [sep]);
      JoinUnfold(pieces, [sep]);
      IndexAfterFree(p, sep, t);
      var s := p + [sep] + t;
      assert sep in s by {
        assert s[|p|] == sep;
      }
      SplitUnfold(s, sep);
      SplitJoin(pieces[1..], sep);
      HeadTail(pieces);
    }
  }
}
