/**
 * The handful of Python `str` operations the gift-picker code relies on,
 * written out with Python's semantics: `pat in s`, `s.split(sep)`,
 * `s.split()`, `s.strip()`, `sep.join(parts)`, `str(n)` and `int(token)`.
 * Strings are sequences of Unicode code points, as Python 3's are.
 */
module PyStrings {
  import opened Wrappers

  /** Python's `str.isspace()` on one code point: the whitespace set that
      `strip()` and `split()` without arguments use. */
  predicate IsSpace(c: char) {
    var n := c as int;
    (0x09 <= n <= 0x0D) || (0x1C <= n <= 0x20) || n == 0x85 || n == 0xA0 || n == 0x1680
    || (0x2000 <= n <= 0x200A) || n == 0x2028 || n == 0x2029 || n == 0x202F || n == 0x205F
    || n == 0x3000
  }

  predicate AllSpace(s: string) {
    forall i :: 0 <= i < |s| ==> IsSpace(s[i])
  }

  predicate NoSpace(s: string) {
    forall i :: 0 <= i < |s| ==> !IsSpace(s[i])
  }

  /** `pat` occurs in `s` starting at position `i`. */
  predicate OccursAt(s: string, pat: string, i: int) {
    0 <= i && i + |pat| <= |s| && s[i..i + |pat|] == pat
  }

  lemma OccursInInfix(s: string, pat: string, a: nat, b: nat, j: int)
    requires a <= b <= |s| && OccursAt(s[a..b], pat, j)
    ensures OccursAt(s, pat, a + j) && j + |pat| <= b - a
  {
    forall k | 0 <= k < |pat| ensures s[a + j..a + j + |pat|][k] == pat[k] {
      assert s[a..b][j..j + |pat|][k] == pat[k];
    }
  }

  /** An occurrence in a part of a string is an occurrence in the string. */
  lemma InfixOccurrences(s: string, pat: string, a: nat, b: nat)
    requires a <= b <= |s|
    ensures forall j :: OccursAt(s[a..b], pat, j) ==> OccursAt(s, pat, a + j) && j + |pat| <= b - a
  {
    forall j | OccursAt(s[a..b], pat, j) ensures OccursAt(s, pat, a + j) && j + |pat| <= b - a {
      OccursInInfix(s, pat, a, b, j);
    }
  }

  /** `s.find(pat, i)`: the leftmost occurrence of `pat` at or after
      position `i`, or -1 when there is none. */
  function FindFrom(s: string, pat: string, i: nat): (r: int)
    requires |pat| > 0 && i <= |s|
    ensures r == -1 || (i <= r && OccursAt(s, pat, r))
    ensures r >= 0 ==> forall j :: i <= j < r ==> !OccursAt(s, pat, j)
    ensures r == -1 ==> forall j :: i <= j ==> !OccursAt(s, pat, j)
    decreases |s| - i
  {
    if i + |pat| > |s| then -1
    else if s[i..i + |pat|] == pat then i
    else FindFrom(s, pat, i + 1)
  }

  /** `s.find(pat)`: the leftmost position at which `pat` occurs, or -1. */
  function Find(s: string, pat: string): (r: int)
    requires |pat| > 0
    ensures r == -1 || OccursAt(s, pat, r)
    ensures r >= 0 ==> forall j :: 0 <= j < r ==> !OccursAt(s, pat, j)
    ensures r == -1 ==> forall j :: !OccursAt(s, pat, j)
  {
    FindFrom(s, pat, 0)
  }

  /** Python's `pat in s` for a non-empty `pat`. */
  predicate Contains(s: string, pat: string)
    requires |pat| > 0
  {
    Find(s, pat) >= 0
  }

  /** The pieces of `s[i..]` between the occurrences of `sep`, found left to
      right without overlap. */
  function SplitFrom(s: string, sep: string, i: nat): (parts: seq<string>)
    requires |sep| > 0 && i <= |s|
    ensures |parts| >= 1
    decreases |s| - i
  {
    var k := FindFrom(s, sep, i);
    if k < 0 then [s[i..]] else [s[i..k]] + SplitFrom(s, sep, k + |sep|)
  }

  /** One step of `SplitFrom`: the piece before the next separator, then
      the pieces after it. */
  lemma SplitFromStep(s: string, sep: string, i: nat, k: nat)
    requires |sep| > 0 && i <= |s| && FindFrom(s, sep, i) == k
    ensures SplitFrom(s, sep, i) == [s[i..k]] + SplitFrom(s, sep, k + |sep|)
  {
  }

  /** The last step of `SplitFrom`: no separator left, one piece. */
  lemma SplitFromEnd(s: string, sep: string, i: nat)
    requires |sep| > 0 && i <= |s| && FindFrom(s, sep, i) == -1
    ensures SplitFrom(s, sep, i) == [s[i..]]
  {
  }

  /** `s.split(sep)`. Python refuses an empty separator. */
  function Split(s: string, sep: string): (parts: seq<string>)
    requires |sep| > 0
    ensures |parts| >= 1
  {
    SplitFrom(s, sep, 0)
  }

  /** `sep.join(parts)`. */
  function Join(sep: string, parts: seq<string>): string {
    if |parts| == 0 then ""
    else if |parts| == 1 then parts[0]
    else parts[0] + sep + Join(sep, parts[1..])
  }

  /** `parts[-1]`. */
  function LastPiece(parts: seq<string>): string
    requires parts != []
  {
    parts[|parts| - 1]
  }

  /** The last piece of `s.split(sep)`, i.e. `s.split(sep)[-1]`. */
  function AfterLast(s: string, sep: string): string
    requires |sep| > 0
  {
    LastPiece(Split(s, sep))
  }

  /** The first piece of `s.split(sep)`, i.e. `s.split(sep)[0]`. */
  function BeforeFirst(s: string, sep: string): string
    requires |sep| > 0
  {
    Split(s, sep)[0]
  }

  lemma JoinCons(sep: string, head: string, tail: seq<string>)
    requires tail != []
    ensures Join(sep, [head] + tail) == head + sep + Join(sep, tail)
  {
    assert ([head] + tail)[1..] == tail;
  }

  lemma Reassemble(s: string, sep: string, i: nat, k: nat)
    requires i <= k && OccursAt(s, sep, k)
    ensures s[i..] == s[i..k] + sep + s[k + |sep|..]
  {
  }

  lemma AppendSame(x: string, a: string, b: string, c: string, y: string)
    requires x == a + b && b == c && y == a + c
    ensures x == y
  {
  }

  lemma {:induction false} JoinSplitFrom(s: string, sep: string, i: nat)
    requires |sep| > 0 && i <= |s|
    ensures Join(sep, SplitFrom(s, sep, i)) == s[i..]
    decreases |s| - i, 1
  {
    var k := FindFrom(s, sep, i);
    if k < 0 {
      JoinSplitEnd(s, sep, i);
    } else {
      JoinSplitCombine(s, sep, i, k);
    }
  }

  /** The join of the split from `i` is `s[i..]` when a separator
      follows `i`. */
  lemma {:induction false} JoinSplitCombine(s: string, sep: string, i: nat, k: nat)
    requires |sep| > 0 && i <= |s| && FindFrom(s, sep, i) == k
    ensures Join(sep, SplitFrom(s, sep, i)) == s[i..]
    decreases |s| - i, 0
  {
    var j := k + |sep|;
    JoinSplitStep(s, sep, i, k);
    JoinSplitFrom(s, sep, j);
    Reassemble(s, sep, i, k);
    AppendSame(Join(sep, SplitFrom(s, sep, i)), s[i..k] + sep, Join(sep, SplitFrom(s, sep, j)), s[j..], s[i..]);
  }

  /** With no separator left, the join of the split is the rest itself. */
  lemma JoinSplitEnd(s: string, sep: string, i: nat)
    requires |sep| > 0 && i <= |s| && FindFrom(s, sep, i) == -1
    ensures Join(sep, SplitFrom(s, sep, i)) == s[i..]
  {
    SplitFromEnd(s, sep, i);
  }

  /** One step of joining a split: the piece before the first separator,
      the separator, then the join of the rest. */
  lemma JoinSplitStep(s: string, sep: string, i: nat, k: nat)
    requires |sep| > 0 && i <= |s| && FindFrom(s, sep, i) == k
    ensures k + |sep| <= |s|
    ensures Join(sep, SplitFrom(s, sep, i)) == s[i..k] + sep + Join(sep, SplitFrom(s, sep, k + |sep|))
  {
    SplitFromStep(s, sep, i, k);
    JoinCons(sep, s[i..k], SplitFrom(s, sep, k + |sep|));
  }

  /** Joining the pieces of a split with the same separator gives back the
      original string. */
  lemma JoinSplit(s: string, sep: string)
    requires |sep| > 0
    ensures Join(sep, Split(s, sep)) == s
  {
    JoinSplitFrom(s, sep, 0);
    assert s[0..] == s;
  }

  lemma {:induction false} SplitFromPiecesFree(s: string, sep: string, i: nat)
    requires |sep| > 0 && i <= |s|
    ensures forall k :: 0 <= k < |SplitFrom(s, sep, i)| ==> !Contains(SplitFrom(s, sep, i)[k], sep)
    decreases |s| - i
  {
    var k := FindFrom(s, sep, i);
    if k < 0 {
      assert s[i..] == s[i..|s|];
      InfixOccurrences(s, sep, i, |s|);
      assert !Contains(s[i..], sep);
      SplitFromEnd(s, sep, i);
    } else {
      SplitFromStep(s, sep, i, k);
      SplitFromPiecesFree(s, sep, k + |sep|);
      InfixOccurrences(s, sep, i, k);
      assert !Contains(s[i..k], sep);
    }
  }

  /** No piece of a split contains the separator. */
  lemma SplitPiecesFree(s: string, sep: string)
    requires |sep| > 0
    ensures forall k :: 0 <= k < |Split(s, sep)| ==> !Contains(Split(s, sep)[k], sep)
  {
    SplitFromPiecesFree(s, sep, 0);
  }

  /** The first piece of a split is everything before the first separator,
      or the whole string when there is none. */
  lemma BeforeFirstFind(s: string, sep: string)
    requires |sep| > 0
    ensures Find(s, sep) == -1 ==> BeforeFirst(s, sep) == s
    ensures Find(s, sep) >= 0 ==> BeforeFirst(s, sep) == s[..Find(s, sep)]
  {
    assert s[0..] == s;
  }

  /** The first piece of a split holds no separator, and no pattern the
      whole string lacks. */
  lemma BeforeFirstAbsence(s: string, sep: string, pat: string)
    requires |sep| > 0 && |pat| > 0
    ensures !Contains(BeforeFirst(s, sep), sep)
    ensures !Contains(s, pat) ==> !Contains(BeforeFirst(s, sep), pat)
  {
    SplitPiecesFree(s, sep);
    BeforeFirstFind(s, sep);
    var n := if Find(s, sep) >= 0 then Find(s, sep) else |s|;
    assert BeforeFirst(s, sep) == s[0..n];
    if !Contains(s, pat) {
      AbsentInInfix(s, pat, 0, n);
    }
  }

  /** A split has a second piece exactly when the separator occurs. */
  lemma SplitHasSecond(s: string, sep: string)
    requires |sep| > 0
    ensures |Split(s, sep)| >= 2 <==> Contains(s, sep)
  {
  }

  /** A part of a string that lacks `pat` lacks it too. */
  lemma AbsentInInfix(s: string, pat: string, a: nat, b: nat)
    requires |pat| > 0 && a <= b <= |s| && !Contains(s, pat)
    ensures !Contains(s[a..b], pat)
  {
    InfixOccurrences(s, pat, a, b);
  }

  /** Stripping cannot introduce a pattern the text did not have. */
  lemma StripKeepsAbsence(s: string, pat: string)
    requires |pat| > 0 && !Contains(s, pat)
    ensures !Contains(Strip(s), pat)
  {
    AbsentInInfix(s, pat, StripStart(s), StripEnd(s));
  }

  /** A string without the separator splits into itself alone. */
  lemma SplitWithout(s: string, sep: string)
    requires |sep| > 0 && !Contains(s, sep)
    ensures Split(s, sep) == [s]
  {
    assert s[0..] == s;
  }

  /** Searching `s` from `d + i` is searching the suffix `s[d..]` from `i`. */
  lemma {:induction false} FindFromSuffix(s: string, pat: string, d: nat, i: nat)
    requires |pat| > 0 && d + i <= |s|
    ensures FindFrom(s, pat, d + i)
      == if FindFrom(s[d..], pat, i) < 0 then -1 else d + FindFrom(s[d..], pat, i)
    decreases |s| - d - i
  {
    if d + i + |pat| <= |s| {
      assert s[d..][i..i + |pat|] == s[d + i..d + i + |pat|];
      FindFromSuffix(s, pat, d, i + 1);
    }
  }

  /** Splitting `s` from `d + i` is splitting the suffix `s[d..]` from `i`. */
  lemma {:induction false} SplitFromSuffix(s: string, sep: string, d: nat, i: nat)
    requires |sep| > 0 && d + i <= |s|
    ensures SplitFrom(s, sep, d + i) == SplitFrom(s[d..], sep, i)
    decreases |s| - d - i
  {
    var t := s[d..];
    var k := FindFrom(t, sep, i);
    if k < 0 {
      FindFromSuffix(s, sep, d, i);
      SplitFromEnd(t, sep, i);
      SplitFromEnd(s, sep, d + i);
      assert t[i..] == s[d + i..];
    } else {
      var a, b, c := d + i, d + k, k + |sep|;
      calc {
        SplitFrom(s, sep, a);
        { FindFromSuffix(s, sep, d, i);
          SplitFromStep(s, sep, a, b); }
        [s[a..b]] + SplitFrom(s, sep, b + |sep|);
        { SplitFromSuffix(s, sep, d, c);
          assert b + |sep| == d + c;
          assert s[a..b] == t[i..k]; }
        [t[i..k]] + SplitFrom(t, sep, c);
        { SplitFromStep(t, sep, i, k); }
        SplitFrom(t, sep, i);
      }
    }
  }

  /** Splitting `s` from `d` is splitting the suffix `s[d..]`. */
  lemma SplitFromDrop(s: string, sep: string, d: nat)
    requires |sep| > 0 && d <= |s|
    ensures SplitFrom(s, sep, d) == Split(s[d..], sep)
  {
    SplitFromSuffix(s, sep, d, 0);
  }

  /** One step of a split: the piece before the first separator, then the
      split of what follows it. */
  lemma SplitAt(s: string, sep: string, i: nat)
    requires |sep| > 0 && Find(s, sep) == i
    ensures Split(s, sep) == [s[..i]] + Split(s[i + |sep|..], sep)
  {
    SplitFromStep(s, sep, 0, i);
    SplitFromDrop(s, sep, i + |sep|);
    assert s[0..i] == s[..i];
  }

  /** Where the last piece of the split of `s[i..]` starts. */
  function LastPieceStart(s: string, sep: string, i: nat): (m: nat)
    requires |sep| > 0 && i <= |s|
    ensures i <= m <= |s|
    ensures LastPiece(SplitFrom(s, sep, i)) == s[m..]
    ensures m > i ==> m >= |sep| && OccursAt(s, sep, m - |sep|)
    ensures forall j :: m <= j ==> !OccursAt(s, sep, j)
    decreases |s| - i
  {
    var k := FindFrom(s, sep, i);
    if k < 0 then
      SplitFromEnd(s, sep, i);
      i
    else
      SplitFromStep(s, sep, i, k);
      LastOfCons(s[i..k], SplitFrom(s, sep, k + |sep|));
      LastPieceStart(s, sep, k + |sep|)
  }

  lemma LastOfCons(head: string, tail: seq<string>)
    requires tail != []
    ensures LastPiece([head] + tail) == LastPiece(tail)
  {
  }

  /** The last piece of a split contains no separator, and when the
      separator occurs the piece is immediately preceded by one: it is the
      text after the last occurrence. */
  lemma AfterLastShape(s: string, sep: string)
    requires |sep| > 0
    ensures AfterLast(s, sep) == s[LastPieceStart(s, sep, 0)..]
    ensures !Contains(AfterLast(s, sep), sep)
    ensures Contains(s, sep) ==>
      LastPieceStart(s, sep, 0) >= |sep| && OccursAt(s, sep, LastPieceStart(s, sep, 0) - |sep|)
    ensures !Contains(s, sep) ==> AfterLast(s, sep) == s
  {
    var m := LastPieceStart(s, sep, 0);
    assert s[m..] == s[m..|s|];
    InfixOccurrences(s, sep, m, |s|);
    if !Contains(s, sep) {
      SplitWithout(s, sep);
    }
  }

  /** When the pattern's first character does not occur in `p`, the first
      occurrence in `p + pat + rest` is the one right after `p`. */
  lemma FindAfterPrefix(p: string, pat: string, rest: string)
    requires |pat| > 0 && pat[0] !in p
    ensures Find(p + pat + rest, pat) == |p|
    ensures (p + pat + rest)[..|p|] == p
  {
    var s := p + pat + rest;
    assert s[|p|..|p| + |pat|] == pat;
    assert OccursAt(s, pat, |p|);
    forall j | 0 <= j < |p| ensures !OccursAt(s, pat, j) {
      assert s[j] == p[j];
      assert p[j] in p;
      assert s[j..j + |pat|][0] == s[j];
    }
    assert s[..|p|] == p;
  }

  /** Splitting `p + sep + rest`, where `p` lacks the separator's first
      character, yields `p` and then the pieces of `rest`. */
  lemma SplitAfterPrefix(p: string, sep: string, rest: string)
    requires |sep| > 0 && sep[0] !in p
    ensures Split(p + sep + rest, sep) == [p] + Split(rest, sep)
  {
    var s := p + sep + rest;
    FindAfterPrefix(p, sep, rest);
    SplitAt(s, sep, |p|);
    assert s[|p| + |sep|..] == rest;
  }

  /** For a one-character separator (a newline), splitting a join gives back
      the pieces, provided no piece holds the separator. */
  lemma {:induction false} SplitJoin(sep: string, parts: seq<string>)
    requires |sep| == 1 && |parts| >= 1
    requires forall k :: 0 <= k < |parts| ==> !Contains(parts[k], sep)
    ensures Split(Join(sep, parts), sep) == parts
    decreases |parts|
  {
    if |parts| == 1 {
      SplitWithout(parts[0], sep);
    } else {
      var p, tail := parts[0], parts[1..];
      assert parts == [p] + tail;
      JoinCons(sep, p, tail);
      ContainsChar(p, sep[0]);
      assert [sep[0]] == sep;
      SplitAfterPrefix(p, sep, Join(sep, tail));
      SplitJoin(sep, tail);
    }
  }

  /** A one-character pattern occurs exactly when that character does. */
  lemma ContainsChar(s: string, c: char)
    ensures Contains(s, [c]) <==> c in s
  {
    if c in s {
      var i :| 0 <= i < |s| && s[i] == c;
      assert OccursAt(s, [c], i);
    }
    if Contains(s, [c]) {
      var i := Find(s, [c]);
      assert s[i..i + 1] == [c];
      assert s[i] == c;
    }
  }

  /** The first position at or after `i` that is not whitespace (`|s|` if
      there is none). */
  function SkipSpace(s: string, i: nat): (k: nat)
    requires i <= |s|
    ensures i <= k <= |s|
    ensures forall j :: i <= j < k ==> IsSpace(s[j])
    ensures k < |s| ==> !IsSpace(s[k])
    decreases |s| - i
  {
    if i < |s| && IsSpace(s[i]) then SkipSpace(s, i + 1) else i
  }

  /** The end of the run of non-whitespace that starts at `i`. */
  function SkipWord(s: string, i: nat): (k: nat)
    requires i <= |s|
    ensures i <= k <= |s|
    ensures forall j :: i <= j < k ==> !IsSpace(s[j])
    ensures k < |s| ==> IsSpace(s[k])
    decreases |s| - i
  {
    if i < |s| && !IsSpace(s[i]) then SkipWord(s, i + 1) else i
  }

  /** Where the whitespace that ends `s[lo..hi]` begins. */
  function TrailStart(s: string, lo: nat, hi: nat): (k: nat)
    requires lo <= hi <= |s|
    ensures lo <= k <= hi
    ensures forall j :: k <= j < hi ==> IsSpace(s[j])
    ensures k > lo ==> !IsSpace(s[k - 1])
    decreases hi - lo
  {
    if lo < hi && IsSpace(s[hi - 1]) then TrailStart(s, lo, hi - 1) else hi
  }

  /** Where `s.strip()` starts and ends in `s`. */
  function StripStart(s: string): nat {
    SkipSpace(s, 0)
  }

  function StripEnd(s: string): (k: nat)
    ensures StripStart(s) <= k <= |s|
  {
    TrailStart(s, StripStart(s), |s|)
  }

  /** `s.strip()`: `s` without its leading and trailing whitespace. */
  function Strip(s: string): (r: string)
    ensures forall j :: 0 <= j < StripStart(s) ==> IsSpace(s[j])
    ensures forall j :: StripEnd(s) <= j < |s| ==> IsSpace(s[j])
    ensures r != [] ==> !IsSpace(r[0]) && !IsSpace(r[|r| - 1])
    ensures r == [] <==> AllSpace(s)
  {
    s[StripStart(s)..StripEnd(s)]
  }

  /** Stripping removes exactly the surrounding whitespace: a text with no
      whitespace at either end comes back unchanged from any padding. */
  lemma StripPadding(left: string, t: string, right: string)
    requires AllSpace(left) && AllSpace(right)
    requires t != [] ==> !IsSpace(t[0]) && !IsSpace(t[|t| - 1])
    ensures Strip(left + t + right) == t
  {
    var s := left + t + right;
    if t == [] {
      forall j | 0 <= j < |s| ensures IsSpace(s[j]) {
        if j < |left| { assert s[j] == left[j]; } else { assert s[j] == right[j - |left|]; }
      }
    } else {
      var a, b := |left|, |left| + |t|;
      assert s[a] == t[0] && s[b - 1] == t[|t| - 1];
      forall j | 0 <= j < a ensures IsSpace(s[j]) { assert s[j] == left[j]; }
      forall j | b <= j < |s| ensures IsSpace(s[j]) { assert s[j] == right[j - b]; }
      assert StripStart(s) == a;
      assert StripEnd(s) == b;
      assert s[a..b] == t;
    }
  }

  /** Stripping twice is stripping once. */
  lemma StripIdempotent(s: string)
    ensures Strip(Strip(s)) == Strip(s)
  {
    StripPadding([], Strip(s), []);
    assert [] + Strip(s) + [] == Strip(s);
  }

  /** The words of `s` from position `i` on. */
  function WordsFrom(s: string, i: nat): (ws: seq<string>)
    requires i <= |s|
    ensures forall k :: 0 <= k < |ws| ==> ws[k] != "" && NoSpace(ws[k])
    ensures ws == [] <==> forall j :: i <= j < |s| ==> IsSpace(s[j])
    decreases |s| - i
  {
    var a := SkipSpace(s, i);
    if a == |s| then []
    else
      var b := SkipWord(s, a);
      [s[a..b]] + WordsFrom(s, b)
  }

  /** `s.split()` without arguments: the maximal runs of non-whitespace. */
  function Words(s: string): (ws: seq<string>)
    ensures forall k :: 0 <= k < |ws| ==> ws[k] != "" && NoSpace(ws[k])
    ensures ws == [] <==> AllSpace(s)
  {
    WordsFrom(s, 0)
  }

  /** The first word of `s.split()` is the first whitespace-delimited token,
      whatever whitespace precedes it and whatever follows it. */
  lemma FirstWord(lead: string, token: string, rest: string)
    requires AllSpace(lead) && token != "" && NoSpace(token)
    requires rest == "" || IsSpace(rest[0])
    ensures Words(lead + token + rest) != []
    ensures Words(lead + token + rest)[0] == token
  {
    var s := lead + token + rest;
    var a, b := |lead|, |lead| + |token|;
    forall j | 0 <= j < a ensures IsSpace(s[j]) { assert s[j] == lead[j]; }
    forall j | a <= j < b ensures !IsSpace(s[j]) { assert s[j] == token[j - a]; }
    assert b < |s| ==> s[b] == rest[0];
    assert s[a] == token[0];
    assert SkipSpace(s, 0) == a;
    assert SkipWord(s, a) == b;
    assert s[a..b] == token;
  }

  predicate IsDigit(c: char) {
    '0' <= c <= '9'
  }

  predicate AllDigits(s: string) {
    forall i :: 0 <= i < |s| ==> IsDigit(s[i])
  }

  /** The number an ASCII decimal numeral stands for. */
  function DigitsValue(s: string): nat
    requires AllDigits(s)
  {
    if s == [] then 0
    else DigitsValue(s[..|s| - 1]) * 10 + (s[|s| - 1] as int - '0' as int)
  }

  /** Python's `int(token)` on a token without surrounding whitespace: an
      optional sign followed by one or more ASCII digits; anything else makes
      Python raise `ValueError`, written here as `None`. */
  function ParseInt(token: string): (r: Option<int>)
    ensures r.Some? ==> token != "" && forall k :: 1 <= k < |token| ==> IsDigit(token[k])
    ensures r.Some? && IsDigit(token[0]) ==> r.value >= 0
  {
    if |token| > 0 && (token[0] == '+' || token[0] == '-') then
      var digits := token[1..];
      if digits != [] && AllDigits(digits) then
        var magnitude: int := DigitsValue(digits);
        Some(if token[0] == '-' then -magnitude else magnitude)
      else None
    else if token != [] && AllDigits(token) then Some(DigitsValue(token))
    else None
  }

  /** `str(n)` for a natural number `n`: its canonical decimal numeral,
      with no leading zero except in "0" itself. */
  function Decimal(n: nat): (s: string)
    ensures s != [] && AllDigits(s)
    ensures DigitsValue(s) == n
    ensures |s| == 1 || s[0] != '0'
  {
    var last := ['0' + (n % 10) as char];
    if n < 10 then last
    else
      var front := Decimal(n / 10);
      assert (front + last)[..|front + last| - 1] == front;
      assert (front + last)[0] == front[0];
      front + last
  }

  /** `int(str(n)) == n`, also with a leading minus sign. */
  lemma ParseDecimal(n: nat)
    ensures ParseInt(Decimal(n)) == Some(n)
    ensures ParseInt("-" + Decimal(n)) == Some(-(n as int))
  {
    var d := Decimal(n);
    assert d[0] != '+' && d[0] != '-' by { assert IsDigit(d[0]); }
    assert ("-" + d)[1..] == d;
  }

  /** `int()` refuses a token that has any character other than a leading
      sign and digits: "2." and "two" are not numbers. */
  lemma ParseIntRejects(token: string, i: int)
    requires 0 <= i < |token| && !IsDigit(token[i])
    requires i == 0 ==> token[0] != '+' && token[0] != '-'
    ensures ParseInt(token) == None
  {
    if token[0] == '+' || token[0] == '-' {
      assert token[1..][i - 1] == token[i];
    }
  }
}
