/** An optional value: Python's `None` versus a present value. */
module Base {
  datatype Option<+T> = None | Some(value: T)

  /** The first present entry of xs from index k on: a loop over alternatives that returns the first success. */
  function FirstSome<T>(xs: seq<Option<T>>, k: nat): Option<T>
    decreases |xs| - k
  {
    if k >= |xs| then None else if xs[k].Some? then xs[k] else FirstSome(xs, k + 1)
  }

  /** A value FirstSome finds is at an index with nothing present before it. */
  lemma {:induction false} FirstSomeIsFirst<T>(xs: seq<Option<T>>, k: nat)
    requires FirstSome(xs, k).Some?
    ensures exists j :: k <= j < |xs| && xs[j] == FirstSome(xs, k) && forall i :: k <= i < j ==> xs[i].None?
    decreases |xs| - k
  {
    if xs[k].None? {
      FirstSomeIsFirst(xs, k + 1);
      var j :| k + 1 <= j < |xs| && xs[j] == FirstSome(xs, k + 1) && forall i :: k + 1 <= i < j ==> xs[i].None?;
      assert xs[j] == FirstSome(xs, k);
    } else {
      assert xs[k] == FirstSome(xs, k);
    }
  }

  /** FirstSome finds nothing exactly when every entry from k on is absent. */
  lemma {:induction false} FirstSomeNone<T>(xs: seq<Option<T>>, k: nat)
    ensures FirstSome(xs, k).None? <==> forall i :: k <= i < |xs| ==> xs[i].None?
    decreases |xs| - k
  {
    if k < |xs| {
      FirstSomeNone(xs, k + 1);
    }
  }
}

/**
  Characters and strings as the analyzers see them through Python's `str`:
  case folding, whitespace, `strip()`, substring search (`in`), slicing and
  `split`/`join` on one separator character.
*/
module Text {
  import opened Base

  /** Python's `str.isspace()`; also the `\s` class of `re` on str patterns. */
  predicate IsSpace(c: char) {
    ('\t' <= c <= '\r') || ('\U{1C}' <= c <= ' ') || c == '\U{85}' || c == '\U{A0}'
    || c == '\U{1680}' || ('\U{2000}' <= c <= '\U{200A}') || c == '\U{2028}' || c == '\U{2029}'
    || c == '\U{202F}' || c == '\U{205F}' || c == '\U{3000}'
  }

  /** `\d` (ASCII digits only). */
  predicate IsDigit(c: char) { '0' <= c <= '9' }

  predicate IsAsciiUpper(c: char) { 'A' <= c <= 'Z' }

  predicate IsAsciiLower(c: char) { 'a' <= c <= 'z' }

  /** `\w` (ASCII letters, digits and underscore). */
  predicate IsWord(c: char) { IsAsciiUpper(c) || IsAsciiLower(c) || IsDigit(c) || c == '_' }

  /** `\b` at position i: exactly one side of i is a word character. */
  predicate Boundary(s: string, i: nat)
    requires i <= |s|
  {
    (i > 0 && IsWord(s[i - 1])) != (i < |s| && IsWord(s[i]))
  }

  /** `str.lower()` on one character: A-Z and KELVIN SIGN fold to ASCII lower case. */
  function LowerChar(c: char): (r: char)
    ensures IsAsciiUpper(c) ==> IsAsciiLower(r)
    ensures !IsAsciiUpper(c) && c != '\U{212A}' ==> r == c
  {
    if IsAsciiUpper(c) then (c as int + 32) as char
    else if c == '\U{212A}' then 'k'
    else c
  }

  /** `str.lower()`, character by character. */
  function Lower(s: string): (r: string)
    ensures |r| == |s|
    ensures forall i :: 0 <= i < |s| ==> r[i] == LowerChar(s[i])
  {
    seq(|s|, i requires 0 <= i < |s| => LowerChar(s[i]))
  }

  /**
    Does text character c match pattern character p under `re.IGNORECASE`?
    Besides the ASCII pairs, Python lets U+0130 and U+0131 match `i`,
    U+017F match `s` and KELVIN SIGN match `k`.
  */
  predicate FoldEq(c: char, p: char) {
    c == p || LowerChar(c) == p
    || (p == 'i' && (c == '\U{130}' || c == '\U{131}'))
    || (p == 's' && c == '\U{17F}')
  }

  /** Index of the first non-whitespace character at or after i (|s| if none). */
  function SkipSpace(s: string, i: nat): (k: nat)
    requires i <= |s|
    ensures i <= k <= |s|
    ensures forall j :: i <= j < k ==> IsSpace(s[j])
    ensures k < |s| ==> !IsSpace(s[k])
    decreases |s| - i
  {
    if i < |s| && IsSpace(s[i]) then SkipSpace(s, i + 1) else i
  }

  /** One past the last non-whitespace character in s[lo..j] (lo if there is none). */
  function BackSpace(s: string, lo: nat, j: nat): (k: nat)
    requires lo <= j <= |s|
    ensures lo <= k <= j
    ensures forall t :: k <= t < j ==> IsSpace(s[t])
    ensures k > lo ==> !IsSpace(s[k - 1])
    decreases j
  {
    if j > lo && IsSpace(s[j - 1]) then BackSpace(s, lo, j - 1) else j
  }

  /** `str.strip()`: drop leading and trailing whitespace. */
  function Strip(s: string): (r: string)
    ensures |r| <= |s|
    ensures r != [] ==> !IsSpace(r[0]) && !IsSpace(r[|r| - 1])
    ensures r == [] <==> forall i :: 0 <= i < |s| ==> IsSpace(s[i])
    ensures forall c :: c in r ==> c in s
  {
    var a := SkipSpace(s, 0);
    var b := BackSpace(s, a, |s|);
    assert r_def: s[a..b] == [] ==> forall i :: 0 <= i < |s| ==> IsSpace(s[i]) by {
      if s[a..b] == [] { assert a == b; }
    }
    s[a..b]
  }

  /** No whitespace at either end. */
  predicate Trimmed(s: string) {
    s != [] ==> !IsSpace(s[0]) && !IsSpace(s[|s| - 1])
  }

  /** Strip keeps a string that has no whitespace at either end. */
  lemma StripTrimmed(s: string)
    requires Trimmed(s)
    ensures Strip(s) == s
  {
    if s != [] {
      assert SkipSpace(s, 0) == 0;
      assert BackSpace(s, 0, |s|) == |s|;
    }
  }

  /** `sub` occurs in s at position i. */
  predicate OccursAt(s: string, sub: string, i: nat) {
    i + |sub| <= |s| && s[i..i + |sub|] == sub
  }

  /** The first position at or after `from` where `sub` occurs (`str.find`). */
  function Find(s: string, sub: string, from: nat): (r: Option<nat>)
    ensures r.Some? ==> from <= r.value && OccursAt(s, sub, r.value)
    ensures r.Some? ==> forall k :: from <= k < r.value ==> !OccursAt(s, sub, k)
    ensures r.None? ==> forall k :: from <= k ==> !OccursAt(s, sub, k)
    decreases |s| - from
  {
    if from + |sub| > |s| then None
    else if s[from..from + |sub|] == sub then Some(from)
    else Find(s, sub, from + 1)
  }

  /** Python's `sub in s`. */
  predicate Contains(s: string, sub: string) {
    Find(s, sub, 0).Some?
  }

  /** An occurrence of sub at any position makes `sub in s` hold. */
  lemma ContainsAt(s: string, sub: string, i: nat)
    requires OccursAt(s, sub, i)
    ensures Contains(s, sub)
  {
  }

  /** `any(w in s for w in words)`. */
  predicate AnyIn(words: seq<string>, s: string) {
    exists i :: 0 <= i < |words| && Contains(s, words[i])
  }

  /** `s.startswith(p)`. */
  predicate StartsWith(s: string, p: string) {
    |p| <= |s| && s[..|p|] == p
  }

  /** `s.endswith(p)`. */
  predicate EndsWith(s: string, p: string) {
    |p| <= |s| && s[|s| - |p|..] == p
  }

  /** `s[:n]` for n >= 0. */
  function Take<T>(s: seq<T>, n: nat): (r: seq<T>)
    ensures |r| == if |s| < n then |s| else n
    ensures r == s[..|r|]
  {
    if |s| <= n then s else s[..n]
  }

  /** A Python slice index (possibly negative) clamped into 0..len. */
  function SliceIndex(i: int, len: nat): (r: nat)
    ensures r <= len
  {
    if i < 0 then (if len + i < 0 then 0 else len + i)
    else if i > len then len
    else i
  }

  /** `s[start:stop]` with Python's negative indices and clamping. */
  function Slice<T>(s: seq<T>, start: int, stop: int): (r: seq<T>)
    ensures |r| <= |s|
  {
    var a := SliceIndex(start, |s|);
    var b := SliceIndex(stop, |s|);
    if a < b then s[a..b] else []
  }

  /** Index of the first occurrence of c in s, or |s|. */
  function IndexOfChar(s: string, c: char): (k: nat)
    ensures k <= |s|
    ensures k < |s| ==> s[k] == c
    ensures forall j :: 0 <= j < k ==> s[j] != c
  {
    if s == [] then 0
    else if s[0] == c then 0
    else 1 + IndexOfChar(s[1..], c)
  }

  /** `s.split(c)[0]`: everything before the first c. */
  function BeforeChar(s: string, c: char): (r: string)
    ensures |r| <= |s| && r == s[..|r|]
    ensures c !in r
    ensures |r| < |s| ==> s[|r|] == c
  {
    s[..IndexOfChar(s, c)]
  }

  /** `s.split(sep)[0]`: everything before the first occurrence of sep, or all of s. */
  function SplitFirst(s: string, sep: string): (r: string)
    requires sep != []
    ensures |r| <= |s| && r == s[..|r|]
    ensures !Contains(r, sep)
    ensures |r| < |s| ==> OccursAt(s, sep, |r|)
    ensures |r| == |s| ==> !Contains(s, sep)
  {
    match Find(s, sep, 0)
    case None => s
    case Some(i) =>
      var r := s[..i];
      forall k: nat ensures !OccursAt(r, sep, k) {
        if k + |sep| <= |r| {
          assert r[k..k + |sep|] == s[k..k + |sep|];
          assert !OccursAt(s, sep, k);
        }
      }
      r
  }

  /** `s.split(sep)[1]` when sep occurs in s: from after its first occurrence up to the next one, or to the end. */
  function SplitSecond(s: string, sep: string): (r: string)
    requires sep != [] && Contains(s, sep)
    ensures var i := Find(s, sep, 0).value; OccursAt(s, r, i + |sep|)
    ensures !Contains(r, sep)
  {
    var i := Find(s, sep, 0).value;
    var r := SplitFirst(s[i + |sep|..], sep);
    assert s[i + |sep|..][..|r|] == s[i + |sep|..i + |sep| + |r|];
    r
  }

  /** `s.split(c)` for a one-character separator. */
  function Split(s: string, c: char): (r: seq<string>)
    ensures |r| >= 1
    ensures forall i :: 0 <= i < |r| ==> c !in r[i]
    decreases |s|
  {
    var k := IndexOfChar(s, c);
    if k == |s| then [s] else [s[..k]] + Split(s[k + 1..], c)
  }

  /** `c.join(xs)` for a one-character separator. */
  function Join(xs: seq<string>, c: char): (r: string)
  {
    if xs == [] then ""
    else if |xs| == 1 then xs[0]
    else xs[0] + [c] + Join(xs[1..], c)
  }

  /** Splitting a join on the same separator gives the items back when none contains it. */
  lemma {:induction false} SplitJoin(xs: seq<string>, c: char)
    requires xs != []
    requires forall i :: 0 <= i < |xs| ==> c !in xs[i]
    ensures Split(Join(xs, c), c) == xs
    decreases |xs|
  {
    if |xs| == 1 {
      assert IndexOfChar(xs[0], c) == |xs[0]|;
    } else {
      var s := Join(xs, c);
      var rest := Join(xs[1..], c);
      assert s == xs[0] + [c] + rest;
      IndexOfCharPrefix(xs[0], c, rest);
      assert s[..|xs[0]|] == xs[0];
      assert s[|xs[0]| + 1..] == rest;
      SplitJoin(xs[1..], c);
      assert [xs[0]] + xs[1..] == xs;
    }
  }

  /** In `a + [c] + b` with c not in a, the first c sits right after a. */
  lemma IndexOfCharPrefix(a: string, c: char, b: string)
    requires c !in a
    ensures IndexOfChar(a + [c] + b, c) == |a|
    decreases |a|
  {
    if a != [] {
      assert (a + [c] + b)[1..] == a[1..] + [c] + b;
      IndexOfCharPrefix(a[1..], c, b);
    }
  }

  /** Joining an item in front of a non-empty list puts the separator between them. */
  lemma JoinCons(x: string, tail: seq<string>, c: char)
    requires tail != []
    ensures Join([x] + tail, c) == x + [c] + Join(tail, c)
  {
    assert ([x] + tail)[1..] == tail;
  }

  /** Joining the pieces of a split on the same separator rebuilds the string. */
  lemma {:induction false} JoinSplit(s: string, c: char)
    ensures Join(Split(s, c), c) == s
    decreases |s|
  {
    var k := IndexOfChar(s, c);
    if k < |s| {
      var tail := Split(s[k + 1..], c);
      JoinSplit(s[k + 1..], c);
      JoinCons(s[..k], tail, c);
      assert s == s[..k] + [c] + s[k + 1..];
    }
  }

  /** `s.split('\n')[0][:n]`: the first line, cut to n characters. */
  function FirstLineCut(s: string, n: nat): string {
    Take(BeforeChar(s, '\n'), n)
  }

  /**
    The cut is a prefix of s without a newline, at most n long, and it
    stops early only at a newline or at the end of s.
  */
  lemma FirstLineCutShape(s: string, n: nat)
    ensures var t := FirstLineCut(s, n);
            |t| <= n && t == s[..|t|] && '\n' !in t
            && (|t| < n ==> |t| == |s| || s[|t|] == '\n')
  {
    var line := BeforeChar(s, '\n');
    var t := FirstLineCut(s, n);
    assert t == line[..|t|];
    assert forall c :: c in t ==> c in line;
  }

  /** `s[:n] + "..." if len(s) > n else s`. */
  function Ellipsis(s: string, n: nat): string {
    if |s| > n then s[..n] + "..." else s
  }

  /** The text itself when it fits in n characters, else its first n and an ellipsis. */
  lemma EllipsisShape(s: string, n: nat)
    ensures var t := Ellipsis(s, n);
            |t| <= n + 3
            && (|s| <= n ==> t == s)
            && (|s| > n ==> |t| == n + 3 && t[..n] == s[..n] && t[n..] == "...")
  {
  }
}
