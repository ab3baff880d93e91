/**
  Recognisers for the fixed regular-expression shapes the analyzers use,
  each written out by hand with Python's `re` semantics: `re.search` takes
  the leftmost starting position and, there, the first way to match in
  backtracking order; `re.findall` repeats the search from the end of the
  previous match. Where a comment says a shape is deterministic, every
  backtracking alternative to the greedy choice fails at the next character.
*/
module Patterns {
  import opened Base
  import opened Text

  /** End of the run of characters satisfying p that starts at i. */
  function RunEnd(s: string, i: nat, p: char -> bool): (e: nat)
    requires i <= |s|
    ensures i <= e <= |s|
    ensures forall k :: i <= k < e ==> p(s[k])
    ensures e < |s| ==> !p(s[e])
    decreases |s| - i
  {
    if i < |s| && p(s[i]) then RunEnd(s, i + 1, p) else i
  }

  /** End of the run of characters outside `stop` that starts at i. */
  function RunNotIn(s: string, i: nat, stop: set<char>): (e: nat)
    requires i <= |s|
    ensures i <= e <= |s|
    ensures forall k :: i <= k < e ==> s[k] !in stop
    ensures e < |s| ==> s[e] in stop
    decreases |s| - i
  {
    if i < |s| && s[i] !in stop then RunNotIn(s, i + 1, stop) else i
  }

  /** End of the run of ASCII digits that starts at i. */
  function DigitRun(s: string, i: nat): (e: nat)
    requires i <= |s|
    ensures i <= e <= |s|
    ensures forall k :: i <= k < e ==> IsDigit(s[k])
    ensures e < |s| ==> !IsDigit(s[e])
    decreases |s| - i
  {
    if i < |s| && IsDigit(s[i]) then DigitRun(s, i + 1) else i
  }

  /** A digit run that is known to stop at e does end there. */
  lemma {:induction false} DigitRunIs(s: string, i: nat, e: nat)
    requires i <= e <= |s|
    requires forall k :: i <= k < e ==> IsDigit(s[k])
    requires e < |s| ==> !IsDigit(s[e])
    ensures DigitRun(s, i) == e
    decreases e - i
  {
    if i < e {
      DigitRunIs(s, i + 1, e);
    }
  }

  /** The word w occurs at p under `re.IGNORECASE`. */
  predicate FoldAt(s: string, p: nat, w: string) {
    p + |w| <= |s| && forall k :: 0 <= k < |w| ==> FoldEq(s[p + k], w[k])
  }

  predicate IsColonOrSpace(c: char) { c == ':' || IsSpace(c) }

  // ----- labelled lead-ins: label[:\s]*([^stop]+) -----

  /** A lead-in pattern `label[:\s]*([^stop]+)`; `plural` adds the `s?` of `requirements?`. */
  datatype LeadIn = LeadIn(word: string, plural: bool, stop: set<char>)

  /** The largest c from j to top that can start the capture `[^stop]+`. */
  function CaptureStart(s: string, j: nat, top: nat, stop: set<char>): (r: Option<nat>)
    requires j <= top <= |s|
    ensures r.Some? ==> j <= r.value <= top && r.value < |s| && s[r.value] !in stop
    ensures r.Some? ==> forall c :: r.value < c <= top && c < |s| ==> s[c] in stop
    ensures r.None? ==> forall c :: j <= c <= top && c < |s| ==> s[c] in stop
    decreases top
  {
    if top < |s| && s[top] !in stop then Some(top)
    else if top == j then None
    else CaptureStart(s, j, top - 1, stop)
  }

  /**
    `[:\s]*([^stop]+)` matched from j: the span of the capture. The greedy
    `[:\s]*` backs off one character at a time until the capture can start;
    the capture then runs to the first stop character.
  */
  function TailAt(s: string, j: nat, stop: set<char>): (r: Option<(nat, nat)>)
    requires j <= |s|
    ensures r.Some? ==> j <= r.value.0 < r.value.1 <= |s|
    ensures r.Some? ==> forall k :: r.value.0 <= k < r.value.1 ==> s[k] !in stop
    ensures r.Some? ==> r.value.1 == |s| || s[r.value.1] in stop
    ensures r.Some? ==> forall k :: j <= k < r.value.0 ==> IsColonOrSpace(s[k])
  {
    var e := RunEnd(s, j, IsColonOrSpace);
    match CaptureStart(s, j, e, stop)
    case None => None
    case Some(c) => Some((c, RunNotIn(s, c, stop)))
  }

  /** The capture span of a lead-in whose match starts at p. */
  function LeadInAt(s: string, lead: LeadIn, p: nat): (r: Option<(nat, nat)>)
    ensures r.Some? ==> FoldAt(s, p, lead.word)
    ensures r.Some? ==> p + |lead.word| <= r.value.0 < r.value.1 <= |s|
    ensures r.Some? ==> forall k :: r.value.0 <= k < r.value.1 ==> s[k] !in lead.stop
  {
    if !FoldAt(s, p, lead.word) then None
    else
      var j := p + |lead.word|;
      if lead.plural && j < |s| && FoldEq(s[j], 's') && TailAt(s, j + 1, lead.stop).Some?
      then TailAt(s, j + 1, lead.stop)
      else TailAt(s, j, lead.stop)
  }

  // ----- digit triples: (\d{a,b})sep(\d{c,d})sep(\d{e,f}) -----

  /** A repetition count `{lo,hi}`. */
  datatype Reps = Reps(lo: nat, hi: nat)

  /** The three groups of a digit-triple match and the end of the match. */
  datatype Triple = Triple(g1: string, g2: string, g3: string, end: nat)

  predicate AllDigits(s: string) {
    forall k :: 0 <= k < |s| ==> IsDigit(s[k])
  }

  /** The slice of a digit run is all digits. */
  lemma DigitSlice(s: string, i: nat, e: nat)
    requires i <= e <= |s| && forall k :: i <= k < e ==> IsDigit(s[k])
    ensures AllDigits(s[i..e])
  {
    forall k | 0 <= k < e - i ensures IsDigit(s[i..e][k]) {
      assert s[i..e][k] == s[i + k];
    }
  }

  /** A text cut at two separator positions is its three parts joined by the separator. */
  lemma TripleSlices(s: string, sep: char, p: nat, a: nat, b: nat, e: nat)
    requires p <= a < b < e <= |s| && s[a] == sep && s[b] == sep
    ensures s[p..e] == s[p..a] + [sep] + s[a + 1..b] + [sep] + s[b + 1..e]
  {
    var t := s[p..a] + [sep] + s[a + 1..b] + [sep] + s[b + 1..e];
    assert |t| == e - p;
    forall k | 0 <= k < e - p ensures t[k] == s[p + k] {
      if k < a - p {
      } else if k == a - p {
      } else if k < b - p {
      } else if k == b - p {
      } else {
      }
    }
  }

  /**
    `(\d{r1})sep(\d{r2})sep(\d{r3})` at p, for a separator that is not a
    digit. A group followed by the separator must take the whole run of
    digits (fewer digits leave a digit where the separator should be); the
    last group takes as many digits as it may.
  */
  function TripleAt(s: string, sep: char, r1: Reps, r2: Reps, r3: Reps, p: nat): (r: Option<Triple>)
    ensures r.Some? ==> p <= r.value.end <= |s|
    ensures r.Some? ==> s[p..r.value.end] == r.value.g1 + [sep] + r.value.g2 + [sep] + r.value.g3
    ensures r.Some? ==> AllDigits(r.value.g1) && AllDigits(r.value.g2) && AllDigits(r.value.g3)
    ensures r.Some? ==> r1.lo <= |r.value.g1| <= r1.hi && r2.lo <= |r.value.g2| <= r2.hi
                        && r3.lo <= |r.value.g3| <= r3.hi
  {
    if p > |s| then None else
    var a := DigitRun(s, p);
    if !(r1.lo <= a - p <= r1.hi && a < |s| && s[a] == sep) then None else
    var b := DigitRun(s, a + 1);
    if !(r2.lo <= b - (a + 1) <= r2.hi && b < |s| && s[b] == sep) then None else
    var c := DigitRun(s, b + 1);
    var n := if c - (b + 1) < r3.hi then c - (b + 1) else r3.hi;
    if n < r3.lo then None else Some(GroupsOf(s, sep, p, a, b, b + 1 + n))
  }

  /** The groups of a triple whose separators stand at a and b and which ends at e. */
  function GroupsOf(s: string, sep: char, p: nat, a: nat, b: nat, e: nat): (t: Triple)
    requires p <= a < b < e <= |s| && s[a] == sep && s[b] == sep
    requires forall k :: p <= k < e ==> k == a || k == b || IsDigit(s[k])
    ensures t.end == e && |t.g1| == a - p && |t.g2| == b - a - 1 && |t.g3| == e - b - 1
    ensures s[p..e] == t.g1 + [sep] + t.g2 + [sep] + t.g3
    ensures AllDigits(t.g1) && AllDigits(t.g2) && AllDigits(t.g3)
  {
    TripleSlices(s, sep, p, a, b, e);
    DigitSlice(s, p, a);
    DigitSlice(s, a + 1, b);
    DigitSlice(s, b + 1, e);
    Triple(s[p..a], s[a + 1..b], s[b + 1..e], e)
  }

  // ----- contacts -----

  predicate IsLetter(c: char) { IsAsciiUpper(c) || IsAsciiLower(c) }

  /** `[A-Za-z0-9._%+-]` */
  predicate IsLocalChar(c: char) { IsLetter(c) || IsDigit(c) || c == '.' || c == '_' || c == '%' || c == '+' || c == '-' }

  /** `[A-Za-z0-9.-]` */
  predicate IsDomainChar(c: char) { IsLetter(c) || IsDigit(c) || c == '.' || c == '-' }

  /** `[A-Z|a-z]` (the bar is a literal member of the class). */
  predicate IsTldChar(c: char) { IsLetter(c) || c == '|' }

  /** `[A-Z|a-z]{2,}\b` after start: the greedy run backs off until a word boundary follows. */
  function EmailTldEnd(s: string, start: nat, top: nat): (r: Option<nat>)
    requires start <= top <= |s|
    ensures r.Some? ==> start + 2 <= r.value <= top && Boundary(s, r.value)
    decreases top
  {
    if top < start + 2 then None
    else if Boundary(s, top) then Some(top)
    else EmailTldEnd(s, start, top - 1)
  }

  /**
    `[A-Za-z0-9.-]+\.` then the top-level part: the greedy domain run backs
    off to each earlier `.` (at position e, from right to left) in turn.
  */
  function EmailDotEnd(s: string, q: nat, e: int): (r: Option<nat>)
    requires q >= 1 && e < |s|
    ensures r.Some? ==> q < r.value <= |s|
    decreases e
  {
    if e <= q then None
    else if s[e] == '.' && EmailTldEnd(s, e + 1, RunEnd(s, e + 1, IsTldChar)).Some?
    then EmailTldEnd(s, e + 1, RunEnd(s, e + 1, IsTldChar))
    else EmailDotEnd(s, q, e - 1)
  }

  /**
    `\b[A-Za-z0-9._%+-]+@[A-Za-z0-9.-]+\.[A-Z|a-z]{2,}\b` at p: the end of
    the match. The local part must be the whole run (a shorter one leaves a
    local character where `@` should be).
  */
  function EmailAt(s: string, p: nat): (r: Option<nat>)
    ensures r.Some? ==> p < r.value <= |s| && '@' in s[p..r.value]
  {
    if p > |s| || !Boundary(s, p) then None else
    var le := RunEnd(s, p, IsLocalChar);
    if le == p || le >= |s| || s[le] != '@' then None else
    var de := RunEnd(s, le + 1, IsDomainChar);
    match EmailDotEnd(s, le + 1, de - 1)
    case None => None
    case Some(e) =>
      assert s[p..e][le - p] == '@';
      Some(e)
  }

  /** `re.findall` of the email pattern from position `from`. */
  function FindEmails(s: string, from: nat): (r: seq<string>)
    requires from <= |s|
    ensures forall i :: 0 <= i < |r| ==> '@' in r[i]
    decreases |s| - from
  {
    match SearchFrom(s, Email, from)
    case None => []
    case Some((p, h)) => [s[h.start..h.end]] + FindEmails(s, h.next)
  }

  /** `\d{n}` at i. */
  predicate DigitsAt(s: string, i: nat, n: nat) {
    i + n <= |s| && forall k :: i <= k < i + n ==> IsDigit(s[k])
  }

  /** `[-.]?\d{4}\b` at i, trying the separator first. */
  function PhoneTail(s: string, i: nat): (r: Option<nat>)
    ensures r.Some? ==> i + 4 <= r.value <= i + 5 && r.value <= |s|
  {
    if i < |s| && (s[i] == '-' || s[i] == '.') && DigitsAt(s, i + 1, 4) && Boundary(s, i + 5) then Some(i + 5)
    else if DigitsAt(s, i, 4) && Boundary(s, i + 4) then Some(i + 4)
    else None
  }

  /** `[-.]?\d{3}[-.]?\d{4}\b` at i, trying the separator first. */
  function PhoneMiddle(s: string, i: nat): (r: Option<nat>)
    ensures r.Some? ==> i + 7 <= r.value <= i + 9 && r.value <= |s|
  {
    var withSep := if i < |s| && (s[i] == '-' || s[i] == '.') && DigitsAt(s, i + 1, 3) then PhoneTail(s, i + 4) else None;
    if withSep.Some? then withSep
    else if DigitsAt(s, i, 3) then PhoneTail(s, i + 3)
    else None
  }

  /** `\b\d{3}[-.]?\d{3}[-.]?\d{4}\b` at p: the end of the match. */
  function PhoneAt(s: string, p: nat): (r: Option<nat>)
    ensures r.Some? ==> p + 10 <= r.value <= p + 12 && r.value <= |s|
  {
    if p > |s| || !Boundary(s, p) || !DigitsAt(s, p, 3) then None else PhoneMiddle(s, p + 3)
  }

  /** `re.findall` of the phone pattern from position `from`. */
  function FindPhones(s: string, from: nat): (r: seq<string>)
    requires from <= |s|
    ensures forall i :: 0 <= i < |r| ==> 10 <= |r[i]| <= 12
    decreases |s| - from
  {
    match SearchFrom(s, Phone, from)
    case None => []
    case Some((p, h)) => [s[h.start..h.end]] + FindPhones(s, h.next)
  }

  predicate NotSpace(c: char) { !IsSpace(c) }

  /**
    `https?://[^\s]+` at p: the end of the match. Taking the `s` is tried
    first; without it, `://` would have to start at the `s`.
  */
  function UrlAt(s: string, p: nat): (r: Option<nat>)
    ensures r.Some? ==> p < r.value <= |s|
    ensures r.Some? ==> (OccursAt(s, "https://", p) && p + 8 < r.value) || (OccursAt(s, "http://", p) && p + 7 < r.value)
    ensures r.Some? ==> forall k :: p <= k < r.value ==> !IsSpace(s[k])
  {
    if OccursAt(s, "https://", p) && RunEnd(s, p + 8, NotSpace) > p + 8 then Some(RunEnd(s, p + 8, NotSpace))
    else if OccursAt(s, "http://", p) && RunEnd(s, p + 7, NotSpace) > p + 7 then
      var e := RunEnd(s, p + 7, NotSpace);
      assert OccursAt(s, "http://", p) && p + 7 < e;
      Some(e)
    else None
  }

  /** `re.findall` of the URL pattern from position `from`. */
  function FindUrls(s: string, from: nat): (r: seq<string>)
    requires from <= |s|
    ensures forall i :: 0 <= i < |r| ==> (StartsWith(r[i], "https://") || StartsWith(r[i], "http://"))
                                         && forall k :: 0 <= k < |r[i]| ==> !IsSpace(r[i][k])
    decreases |s| - from
  {
    match SearchFrom(s, Url, from)
    case None => []
    case Some((p, h)) => UrlFound(s, p, h); [s[h.start..h.end]] + FindUrls(s, h.next)
  }

  /** The text of a URL match starts with its scheme and holds no whitespace. */
  lemma UrlFound(s: string, p: nat, h: Hit)
    requires p <= |s| && ShapeAt(s, Url, p) == Some(h)
    ensures h.start == p < h.end <= |s|
    ensures StartsWith(s[p..h.end], "https://") || StartsWith(s[p..h.end], "http://")
    ensures forall k :: 0 <= k < |s[p..h.end]| ==> !IsSpace(s[p..h.end][k])
  {
    assert UrlAt(s, p) == Some(h.end);
    if OccursAt(s, "https://", p) && p + 8 < h.end {
      OccursStarts(s, "https://", p, h.end);
    } else {
      OccursStarts(s, "http://", p, h.end);
    }
  }

  /** A word occurring at p begins every slice from p that reaches past it. */
  lemma OccursStarts(s: string, w: string, p: nat, e: nat)
    requires OccursAt(s, w, p) && p + |w| <= e <= |s|
    ensures StartsWith(s[p..e], w)
  {
    assert s[p..e][..|w|] == s[p..p + |w|];
  }

  // ----- compensation amounts -----

  predicate IsDigitOrComma(c: char) { IsDigit(c) || c == ',' }

  /**
    `[\d,]+k?` at i (case-insensitive `k`). The `(?:k|,000)?` variant
    behaves the same: after the whole run of digits and commas the next
    character is never a comma, and a shorter run is never needed because
    everything that follows in the patterns is optional.
  */
  function AmountAt(s: string, i: nat): (r: Option<nat>)
    requires i <= |s|
    ensures r.Some? ==> i < r.value <= |s|
  {
    var e := RunEnd(s, i, IsDigitOrComma);
    if e == i then None
    else if e < |s| && FoldEq(s[e], 'k') then Some(e + 1)
    else Some(e)
  }

  /** How a compensation pattern begins: `\$`, or `label[:\s]*\$?`. */
  datatype Head = Dollar | Labelled(word: string)

  /** The optional range after the amount: none, `\s*-\s*\$[\d,]+k?`, or the same with `\$?`. */
  datatype RangeKind = NoRange | DollarRange | OptionalDollarRange

  /** A compensation pattern; `equity` adds the optional `(?:\s*\+\s*\w+)?`. */
  datatype AmountPattern = AmountPattern(head: Head, range: RangeKind, equity: bool)

  /** `\$?` then an amount at i: a `$` that is present is taken (the amount cannot start with `$`). */
  function MaybeDollarAmount(s: string, i: nat): (r: Option<nat>)
    requires i <= |s|
    ensures r.Some? ==> i < r.value <= |s|
  {
    if i < |s| && s[i] == '$' then AmountAt(s, i + 1) else AmountAt(s, i)
  }

  /** The range part at i, if it matches there. */
  function RangeAt(s: string, i: nat, kind: RangeKind): (r: Option<nat>)
    requires i <= |s|
    ensures r.Some? ==> i < r.value <= |s|
  {
    if kind == NoRange then None else
    var a := RunEnd(s, i, IsSpace);
    if !(a < |s| && s[a] == '-') then None else
    var b := RunEnd(s, a + 1, IsSpace);
    if kind == DollarRange then (if b < |s| && s[b] == '$' then AmountAt(s, b + 1) else None)
    else MaybeDollarAmount(s, b)
  }

  /** `\s*\+\s*\w+` at i. */
  function EquityAt(s: string, i: nat): (r: Option<nat>)
    requires i <= |s|
    ensures r.Some? ==> i < r.value <= |s|
  {
    var a := RunEnd(s, i, IsSpace);
    if !(a < |s| && s[a] == '+') then None else
    var b := RunEnd(s, a + 1, IsSpace);
    var w := RunEnd(s, b, IsWord);
    if w > b then Some(w) else None
  }

  /** A compensation pattern at p: the end of the match. The optional parts are taken when present. */
  function AmountPatternAt(s: string, pat: AmountPattern, p: nat): (r: Option<nat>)
    ensures r.Some? ==> p < r.value <= |s|
    ensures r.Some? && pat.head.Dollar? ==> s[p] == '$'
    ensures r.Some? && pat.head.Labelled? ==> FoldAt(s, p, pat.head.word) && p + |pat.head.word| < r.value
  {
    if p > |s| then None else
    var amount :=
      match pat.head
      case Dollar => if p < |s| && s[p] == '$' then AmountAt(s, p + 1) else None
      case Labelled(w) =>
        if FoldAt(s, p, w) then MaybeDollarAmount(s, RunEnd(s, p + |w|, IsColonOrSpace)) else None;
    match amount
    case None => None
    case Some(e1) =>
      var e2 := match RangeAt(s, e1, pat.range) case Some(e) => e case None => e1;
      var e3 := if pat.equity then (match EquityAt(s, e2) case Some(e) => e case None => e2) else e2;
      Some(e3)
  }

  /** `re.search(pat, s, re.IGNORECASE).group(0)`. */
  function SearchAmount(s: string, pat: AmountPattern): (r: Option<string>)
    ensures r.Some? && pat.head.Dollar? ==> r.value != [] && r.value[0] == '$'
    ensures r.Some? && pat.head.Labelled? ==> FoldAt(r.value, 0, pat.head.word)
    ensures r.None? ==> forall p: nat :: p <= |s| ==> AmountPatternAt(s, pat, p).None?
  {
    match SearchFrom(s, Amount(pat), 0)
    case None => NoAmountAnywhere(s, pat); None
    case Some((p, h)) => AmountFound(s, pat, p, h); Some(s[p..h.end])
  }

  /** When the search finds no compensation pattern, none starts anywhere. */
  lemma NoAmountAnywhere(s: string, pat: AmountPattern)
    requires SearchFrom(s, Amount(pat), 0).None?
    ensures forall p: nat :: p <= |s| ==> AmountPatternAt(s, pat, p).None?
  {
    forall p: nat | p <= |s| ensures AmountPatternAt(s, pat, p).None? {
      AmountMissesAt(s, pat, 0, |s| + 1, p);
    }
  }

  lemma AmountMissesAt(s: string, pat: AmountPattern, lo: nat, hi: nat, p: nat)
    requires NoMatchIn(s, Amount(pat), lo, hi) && lo <= p < hi
    ensures AmountPatternAt(s, pat, p).None?
  {
    NoMatchAt(s, Amount(pat), lo, hi, p);
  }

  /** p is where `re.search` finds pattern pat: a match starts there and at no earlier position. */
  predicate LeftmostAmount(s: string, pat: AmountPattern, p: nat) {
    p <= |s| && AmountPatternAt(s, pat, p).Some?
    && forall q: nat :: q < p ==> AmountPatternAt(s, pat, q).None?
  }

  /**
    The search returns the verbatim text of the leftmost match, from its start
    to the end the pattern reaches; it finds nothing exactly when the pattern
    matches at no position.
  */
  lemma SearchAmountLeftmost(s: string, pat: AmountPattern)
    ensures SearchAmount(s, pat).Some? ==>
              exists p: nat :: LeftmostAmount(s, pat, p)
                               && SearchAmount(s, pat).value == s[p..AmountPatternAt(s, pat, p).value]
    ensures SearchAmount(s, pat).None? <==> forall p: nat :: p <= |s| ==> AmountPatternAt(s, pat, p).None?
  {
    match SearchFrom(s, Amount(pat), 0)
    case None =>
      NoAmountAnywhere(s, pat);
    case Some((p, h)) =>
      assert AmountPatternAt(s, pat, p) == Some(h.end);
      forall q: nat | q < p ensures AmountPatternAt(s, pat, q).None? {
        AmountMissesAt(s, pat, 0, p, q);
      }
      assert LeftmostAmount(s, pat, p);
  }

  /** The text of a compensation match starts with its dollar sign or its label. */
  lemma AmountFound(s: string, pat: AmountPattern, p: nat, h: Hit)
    requires p <= |s| && ShapeAt(s, Amount(pat), p) == Some(h)
    ensures p < h.end <= |s|
    ensures pat.head.Dollar? ==> s[p..h.end][0] == '$'
    ensures pat.head.Labelled? ==> FoldAt(s[p..h.end], 0, pat.head.word)
  {
    assert AmountPatternAt(s, pat, p) == Some(h.end);
    if pat.head.Labelled? {
      FoldAtSlice(s, p, h.end, pat.head.word);
    }
  }

  /** A word that occurs at p also starts any slice from p that covers it. */
  lemma FoldAtSlice(s: string, p: nat, e: nat, w: string)
    requires FoldAt(s, p, w) && p + |w| <= e <= |s|
    ensures FoldAt(s[p..e], 0, w)
  {
    forall k | 0 <= k < |w| ensures FoldEq(s[p..e][k], w[k]) {
      assert s[p..e][k] == s[p + k];
    }
  }

  // ----- locations -----

  /** `\bremote\b` (case-insensitive) at p. */
  predicate RemoteWordAt(s: string, p: nat) {
    p <= |s| && Boundary(s, p) && FoldAt(s, p, "remote") && Boundary(s, p + 6)
  }

  /** `[A-Z][a-z]+` at i: its end. */
  function CapWordEnd(s: string, i: nat): (r: Option<nat>)
    requires i <= |s|
    ensures r.Some? ==> i + 2 <= r.value <= |s| && IsAsciiUpper(s[i])
    ensures r.Some? ==> forall k :: i < k < r.value ==> IsAsciiLower(s[k])
  {
    if i < |s| && IsAsciiUpper(s[i]) && RunEnd(s, i + 1, IsAsciiLower) > i + 1
    then Some(RunEnd(s, i + 1, IsAsciiLower)) else None
  }

  /** `(?:\s+[A-Z][a-z]+)*` from w: as many further capitalised words as follow. */
  function CapPhraseEnd(s: string, w: nat): (r: nat)
    requires w <= |s|
    ensures w <= r <= |s|
    ensures forall k :: w <= k < r ==> IsSpace(s[k]) || IsAsciiUpper(s[k]) || IsAsciiLower(s[k])
    decreases |s| - w
  {
    var a := RunEnd(s, w, IsSpace);
    if a == w then w else
    match CapWordEnd(s, a)
    case None => w
    case Some(e) => CapPhraseEnd(s, e)
  }

  /** `\bin\s+([A-Z][a-z]+(?:\s+[A-Z][a-z]+)*)` at p (case-sensitive): the capture span. */
  function InPlaceAt(s: string, p: nat): (r: Option<(nat, nat)>)
    ensures r.Some? ==> p + 3 <= r.value.0 < r.value.1 <= |s| && IsAsciiUpper(s[r.value.0])
    ensures r.Some? ==> OccursAt(s, "in", p)
    ensures r.Some? ==> forall k :: r.value.0 <= k < r.value.1 ==> IsSpace(s[k]) || IsAsciiUpper(s[k]) || IsAsciiLower(s[k])
  {
    if p > |s| || !Boundary(s, p) || !OccursAt(s, "in", p) then None else
    var a := RunEnd(s, p + 2, IsSpace);
    if a == p + 2 then None else
    match CapWordEnd(s, a)
    case None => None
    case Some(e) => Some((a, CapPhraseEnd(s, e)))
  }

  // ----- date pieces -----

  const MonthNames: seq<string> :=
    ["january", "february", "march", "april", "may", "june", "july", "august",
     "september", "october", "november", "december"]

  /** Every month name is lower-case letters. */
  lemma MonthLetters(k: nat, i: nat)
    requires k < 12 && i < |MonthNames[k]|
    ensures IsAsciiLower(MonthNames[k][i])
  {
  }

  /** The first two letters of a month name stand nowhere but at the start of any month name. */
  lemma MonthBigram(k: nat, j: nat, r: nat)
    requires k < 12 && j < 12 && 0 < r && r + 1 < |MonthNames[k]|
    ensures !(MonthNames[k][r] == MonthNames[j][0] && MonthNames[k][r + 1] == MonthNames[j][1])
  {
  }

  /** Two different month names differ within their first three letters. */
  lemma MonthPrefix(k: nat, j: nat)
    requires k < 12 && j < 12 && j != k
    ensures MonthNames[k][0] != MonthNames[j][0] || MonthNames[k][1] != MonthNames[j][1]
            || MonthNames[k][2] != MonthNames[j][2]
  {
  }

  /** No month name occurs inside another. */
  lemma MonthsApart(k: nat, j: nat, r: nat)
    requires k < 12 && j < 12 && j != k
    ensures !OccursAt(MonthNames[k], MonthNames[j], r)
  {
    var mk, mj := MonthNames[k], MonthNames[j];
    if OccursAt(mk, mj, r) {
      assert |mj| >= 3 && |mk| >= 3;
      assert mk[r] == mj[0] && mk[r + 1] == mj[1] by {
        assert mk[r..r + |mj|][0] == mj[0];
        assert mk[r..r + |mj|][1] == mj[1];
      }
      if r == 0 {
        assert mk[2] == mj[2] by { assert mk[r..r + |mj|][2] == mj[2]; }
        MonthPrefix(k, j);
      } else {
        MonthBigram(k, j, r);
      }
    }
  }

  /**
    `\s+\d{1,2},?\s+\d{4}` at i. Deterministic: the day must be the whole
    run of one or two digits, a comma is taken when present, and the spaces
    runs are taken whole.
  */
  function DayYearTailEnd(s: string, i: nat): (r: Option<nat>)
    ensures r.Some? ==> i < r.value <= |s|
  {
    if i > |s| then None else
    var a := RunEnd(s, i, IsSpace);
    if a == i then None else
    var d := DigitRun(s, a);
    if !(1 <= d - a <= 2) then None else
    var c := if d < |s| && s[d] == ',' then d + 1 else d;
    var b := RunEnd(s, c, IsSpace);
    if b > c && DigitsAt(s, b, 4) then Some(b + 4) else None
  }

  /** The first month name, in calendar order, that starts a full month-name date at p. */
  function MonthAltAt(s: string, p: nat, k: nat): (r: Option<Hit>)
    requires k <= 12
    ensures r.Some? ==> r.value.start == p < r.value.end < r.value.next <= |s|
    ensures r.Some? ==> forall i :: p <= i < r.value.end ==> !IsDigit(s[i])
    decreases 12 - k
  {
    if k == 12 then None
    else if FoldAt(s, p, MonthNames[k]) && DayYearTailEnd(s, p + |MonthNames[k]|).Some?
    then
      assert forall i :: p <= i < p + |MonthNames[k]| ==> FoldEq(s[i], MonthNames[k][i - p]);
      Some(Hit(p, p + |MonthNames[k]|, DayYearTailEnd(s, p + |MonthNames[k]|).value))
    else MonthAltAt(s, p, k + 1)
  }

  /** `(january|...|december)\s+\d{1,2},?\s+\d{4}` at p: the month group and the end of the match. */
  function MonthDateAt(s: string, p: nat): (r: Option<Hit>)
    ensures r.Some? ==> r.value.start == p < r.value.end < r.value.next <= |s|
    ensures r.Some? ==> forall i :: p <= i < r.value.end ==> !IsDigit(s[i])
  {
    MonthAltAt(s, p, 0)
  }

  /** `\b(\d{1,2})\b` at p: two digits are tried before one. */
  function ShortNumberAt(s: string, p: nat): (r: Option<nat>)
    ensures r.Some? ==> p < r.value <= p + 2 && r.value <= |s| && DigitsAt(s, p, r.value - p)
  {
    if p > |s| || !Boundary(s, p) then None
    else if DigitsAt(s, p, 2) && Boundary(s, p + 2) then Some(p + 2)
    else if DigitsAt(s, p, 1) && Boundary(s, p + 1) then Some(p + 1)
    else None
  }

  /** `\b(20\d{2})\b` at p. */
  function CenturyYearAt(s: string, p: nat): (r: Option<nat>)
    ensures r.Some? ==> r.value == p + 4 <= |s| && DigitsAt(s, p, 4) && OccursAt(s, "20", p)
  {
    if p <= |s| && Boundary(s, p) && OccursAt(s, "20", p) && DigitsAt(s, p + 2, 2) && Boundary(s, p + 4)
    then Some(p + 4) else None
  }

  // ----- splitting -----

  /** `re.split('[seps]', s)`: the pieces between separator characters. */
  function SplitAny(s: string, seps: set<char>): (r: seq<string>)
    ensures |r| >= 1
    decreases |s|
  {
    var k := RunNotIn(s, 0, seps);
    if k == |s| then [s] else [s[..k]] + SplitAny(s[k + 1..], seps)
  }

  /** Every piece holds no character of seps and only characters of s. */
  predicate PiecesOf(pieces: seq<string>, s: string, seps: set<char>) {
    forall i, k :: 0 <= i < |pieces| && 0 <= k < |pieces[i]| ==> pieces[i][k] !in seps && pieces[i][k] in s
  }

  /** No string of the list holds a character of bad. */
  predicate Avoids(items: seq<string>, bad: set<char>) {
    forall i, k :: 0 <= i < |items| && 0 <= k < |items[i]| ==> items[i][k] !in bad
  }

  lemma AvoidsConcat(xs: seq<string>, ys: seq<string>, bad: set<char>)
    requires Avoids(xs, bad) && Avoids(ys, bad)
    ensures Avoids(xs + ys, bad)
  {
    forall i, k | 0 <= i < |xs + ys| && 0 <= k < |(xs + ys)[i]| ensures (xs + ys)[i][k] !in bad {
      if i < |xs| { assert (xs + ys)[i] == xs[i]; } else { assert (xs + ys)[i] == ys[i - |xs|]; }
    }
  }

  /** The pieces of a split hold no separator and only characters of the text. */
  lemma {:induction false} SplitAnyPieces(s: string, seps: set<char>)
    ensures PiecesOf(SplitAny(s, seps), s, seps)
    decreases |s|
  {
    var r := SplitAny(s, seps);
    var k := RunNotIn(s, 0, seps);
    if k < |s| {
      var rest := SplitAny(s[k + 1..], seps);
      SplitAnyPieces(s[k + 1..], seps);
      assert r == [s[..k]] + rest;
      forall i, j | 0 <= i < |r| && 0 <= j < |r[i]| ensures r[i][j] !in seps && r[i][j] in s {
        if i == 0 {
          assert r[i][j] == s[j];
        } else {
          var c := rest[i - 1][j];
          assert r[i][j] == c && c !in seps && c in s[k + 1..];
          var m :| 0 <= m < |s[k + 1..]| && s[k + 1..][m] == c;
          assert s[k + 1 + m] == c;
        }
      }
    }
  }

  /** The one-character separators of the requirement split, `[,;•\n]`. */
  const ReqSeparators: set<char> := {',', ';', '•', '\n'}

  /** A separator of `[,;•\n]|and\s+` at i: its end. */
  function ReqSeparatorAt(s: string, i: nat): (r: Option<nat>)
    ensures r.Some? ==> i < r.value <= |s|
    ensures i < |s| && s[i] in ReqSeparators ==> r == Some(i + 1)
  {
    if i < |s| && s[i] in ReqSeparators then Some(i + 1)
    else if OccursAt(s, "and", i) && i + 3 < |s| && IsSpace(s[i + 3]) then Some(RunEnd(s, i + 4, IsSpace))
    else None
  }

  /** `re.split(r'[,;•\n]|and\s+', s)`, scanning from i with the current piece starting at `start`. */
  function SplitReqFrom(s: string, start: nat, i: nat): (r: seq<string>)
    requires start <= i <= |s|
    ensures |r| >= 1
    decreases |s| - i
  {
    if i == |s| then [s[start..]]
    else match ReqSeparatorAt(s, i)
      case Some(e) => [s[start..i]] + SplitReqFrom(s, e, e)
      case None => SplitReqFrom(s, start, i + 1)
  }

  /** The pieces of the requirement split hold no one-character separator and only characters of the text. */
  lemma {:induction false} SplitReqPieces(s: string, start: nat, i: nat)
    requires start <= i <= |s|
    requires forall k :: start <= k < i ==> s[k] !in ReqSeparators
    ensures PiecesOf(SplitReqFrom(s, start, i), s, ReqSeparators)
    decreases |s| - i
  {
    var r := SplitReqFrom(s, start, i);
    if i == |s| {
      assert r == [s[start..]];
      forall j | 0 <= j < |s[start..]| ensures s[start..][j] !in ReqSeparators && s[start..][j] in s {
        assert s[start..][j] == s[start + j];
      }
    } else {
      match ReqSeparatorAt(s, i)
      case Some(e) =>
        var rest := SplitReqFrom(s, e, e);
        SplitReqPieces(s, e, e);
        assert r == [s[start..i]] + rest;
        forall n, j | 0 <= n < |r| && 0 <= j < |r[n]| ensures r[n][j] !in ReqSeparators && r[n][j] in s {
          if n == 0 {
            assert r[n][j] == s[start + j];
          } else {
            assert r[n] == rest[n - 1];
          }
        }
      case None =>
        SplitReqPieces(s, start, i + 1);
    }
  }

  // ----- searching -----

  /** The shapes the analyzers hand to `re.search` and `re.findall`. */
  datatype Shape =
    | Word(w: string)
    | Lead(lead: LeadIn)
    | Digits(sep: char, r1: Reps, r2: Reps, r3: Reps)
    | Email
    | Phone
    | Url
    | Amount(pat: AmountPattern)
    | RemoteWord
    | InPlace
    | MonthDate
    | ShortNumber
    | CenturyYear

  /** A match: the span of the group a caller reads, and the end of the whole match. */
  datatype Hit = Hit(start: nat, end: nat, next: nat)

  /** The match of a shape that starts at p, if any. */
  function ShapeAt(s: string, shape: Shape, p: nat): (r: Option<Hit>)
    ensures r.Some? ==> p <= r.value.start <= r.value.end <= r.value.next <= |s|
    ensures r.Some? && !shape.Word? ==> p < r.value.next
  {
    match shape
    case Word(w) => if FoldAt(s, p, w) then Some(Hit(p, p + |w|, p + |w|)) else None
    case Lead(lead) =>
      (match LeadInAt(s, lead, p) case Some(span) => Some(Hit(span.0, span.1, span.1)) case None => None)
    case Digits(sep, r1, r2, r3) =>
      (match TripleAt(s, sep, r1, r2, r3, p)
       case Some(t) =>
         assert |s[p..t.end]| >= 2;
         Some(Hit(p, t.end, t.end))
       case None => None)
    case Email => (match EmailAt(s, p) case Some(e) => Some(Hit(p, e, e)) case None => None)
    case Phone => (match PhoneAt(s, p) case Some(e) => Some(Hit(p, e, e)) case None => None)
    case Url => (match UrlAt(s, p) case Some(e) => Some(Hit(p, e, e)) case None => None)
    case Amount(pat) => (match AmountPatternAt(s, pat, p) case Some(e) => Some(Hit(p, e, e)) case None => None)
    case RemoteWord => if RemoteWordAt(s, p) then Some(Hit(p, p + 6, p + 6)) else None
    case InPlace => (match InPlaceAt(s, p) case Some(span) => Some(Hit(span.0, span.1, span.1)) case None => None)
    case MonthDate => MonthDateAt(s, p)
    case ShortNumber => (match ShortNumberAt(s, p) case Some(e) => Some(Hit(p, e, e)) case None => None)
    case CenturyYear => (match CenturyYearAt(s, p) case Some(e) => Some(Hit(p, e, e)) case None => None)
  }

  /** The shape matches at no position in [lo, hi). */
  predicate NoMatchIn(s: string, shape: Shape, lo: nat, hi: nat) {
    forall q: nat :: lo <= q < hi ==> ShapeAt(s, shape, q).None?
  }

  /** A position inside a match-free range has no match. */
  lemma NoMatchAt(s: string, shape: Shape, lo: nat, hi: nat, p: nat)
    requires NoMatchIn(s, shape, lo, hi) && lo <= p < hi
    ensures ShapeAt(s, shape, p).None?
  {
  }

  /** `re.search` from position `from`: the leftmost start at which the shape matches, and the match. */
  function SearchFrom(s: string, shape: Shape, from: nat): (r: Option<(nat, Hit)>)
    requires from <= |s|
    ensures r.Some? ==> from <= r.value.0 <= |s| && ShapeAt(s, shape, r.value.0) == Some(r.value.1)
    ensures r.Some? ==> NoMatchIn(s, shape, from, r.value.0)
    ensures r.None? ==> NoMatchIn(s, shape, from, |s| + 1)
    decreases |s| - from
  {
    match ShapeAt(s, shape, from)
    case Some(h) => Some((from, h))
    case None =>
      if from == |s| then NoMatchGrow(s, shape, from, from + 1); None
      else
        var r := SearchFrom(s, shape, from + 1);
        NoMatchGrow(s, shape, from, if r.Some? then r.value.0 else |s| + 1);
        r
  }

  /** A match-free range extends one position down past a position without a match. */
  lemma NoMatchGrow(s: string, shape: Shape, from: nat, hi: nat)
    requires from < hi && ShapeAt(s, shape, from).None? && NoMatchIn(s, shape, from + 1, hi)
    ensures NoMatchIn(s, shape, from, hi)
  {
  }

  lemma WordMissesAt(s: string, w: string, lo: nat, hi: nat, p: nat)
    requires NoMatchIn(s, Word(w), lo, hi) && lo <= p < hi
    ensures !FoldAt(s, p, w)
  {
    NoMatchAt(s, Word(w), lo, hi, p);
  }

  lemma RemoteMissesAt(s: string, lo: nat, hi: nat, p: nat)
    requires NoMatchIn(s, RemoteWord, lo, hi) && lo <= p < hi
    ensures !RemoteWordAt(s, p)
  {
    NoMatchAt(s, RemoteWord, lo, hi, p);
  }

  lemma LeadMissesAt(s: string, lead: LeadIn, lo: nat, hi: nat, p: nat)
    requires NoMatchIn(s, Lead(lead), lo, hi) && lo <= p < hi
    ensures LeadInAt(s, lead, p).None?
  {
    NoMatchAt(s, Lead(lead), lo, hi, p);
  }

  lemma TripleMissesAt(s: string, sep: char, r1: Reps, r2: Reps, r3: Reps, lo: nat, hi: nat, p: nat)
    requires NoMatchIn(s, Digits(sep, r1, r2, r3), lo, hi) && lo <= p < hi
    ensures TripleAt(s, sep, r1, r2, r3, p).None?
  {
    NoMatchAt(s, Digits(sep, r1, r2, r3), lo, hi, p);
  }

  /** `re.search(w, s, re.IGNORECASE)` for a plain word: where it first occurs. */
  function FoldFind(s: string, w: string): (r: Option<nat>)
    ensures r.Some? ==> FoldAt(s, r.value, w)
    ensures r.Some? ==> forall p :: 0 <= p < r.value ==> !FoldAt(s, p, w)
    ensures r.None? ==> forall p: nat :: p <= |s| ==> !FoldAt(s, p, w)
  {
    match SearchFrom(s, Word(w), 0)
    case None =>
      assert forall p: nat | p <= |s| :: !FoldAt(s, p, w) by {
        forall p: nat | p <= |s| ensures !FoldAt(s, p, w) { WordMissesAt(s, w, 0, |s| + 1, p); }
      }
      None
    case Some((p, _)) =>
      assert forall q :: 0 <= q < p ==> !FoldAt(s, q, w) by {
        forall q | 0 <= q < p ensures !FoldAt(s, q, w) { WordMissesAt(s, w, 0, p, q); }
      }
      Some(p)
  }

  /** The capture of a lead-in match is non-empty and free of its stop characters. */
  lemma LeadCapture(s: string, lead: LeadIn, p: nat, h: Hit)
    requires ShapeAt(s, Lead(lead), p) == Some(h)
    ensures h.start <= h.end <= |s|
    ensures var t := s[h.start..h.end]; t != [] && forall k :: 0 <= k < |t| ==> t[k] !in lead.stop
  {
    var span := LeadInAt(s, lead, p).value;
    assert h.start == span.0 && h.end == span.1;
    var t := s[h.start..h.end];
    forall k | 0 <= k < |t| ensures t[k] !in lead.stop {
      assert t[k] == s[h.start + k];
    }
  }

  /** `re.search(lead, s, re.IGNORECASE).group(1)`. */
  function SearchLeadIn(s: string, lead: LeadIn): (r: Option<string>)
    ensures r.Some? ==> r.value != [] && forall k :: 0 <= k < |r.value| ==> r.value[k] !in lead.stop
    ensures r.None? ==> forall p: nat :: p <= |s| ==> LeadInAt(s, lead, p).None?
  {
    match SearchFrom(s, Lead(lead), 0)
    case None =>
      assert forall p: nat | p <= |s| :: LeadInAt(s, lead, p).None? by {
        forall p: nat | p <= |s| ensures LeadInAt(s, lead, p).None? { LeadMissesAt(s, lead, 0, |s| + 1, p); }
      }
      None
    case Some((p, h)) =>
      LeadCapture(s, lead, p, h);
      Some(s[h.start..h.end])
  }

  /** `re.findall(lead, s[from:], re.IGNORECASE)`: the captures of successive matches. */
  function FindAllLeadIn(s: string, lead: LeadIn, from: nat): (r: seq<string>)
    requires from <= |s|
    ensures forall i :: 0 <= i < |r| ==> r[i] != [] && forall k :: 0 <= k < |r[i]| ==> r[i][k] !in lead.stop
    decreases |s| - from
  {
    match SearchFrom(s, Lead(lead), from)
    case None => []
    case Some((p, h)) =>
      LeadCapture(s, lead, p, h);
      [s[h.start..h.end]] + FindAllLeadIn(s, lead, h.next)
  }

  /** `re.search` of a digit triple: where it starts and its groups. */
  function SearchTriple(s: string, sep: char, r1: Reps, r2: Reps, r3: Reps): (r: Option<(nat, Triple)>)
    ensures r.Some? ==> r.value.0 <= r.value.1.end <= |s|
    ensures r.Some? ==> TripleAt(s, sep, r1, r2, r3, r.value.0) == Some(r.value.1)
    ensures r.Some? ==> s[r.value.0..r.value.1.end] == r.value.1.g1 + [sep] + r.value.1.g2 + [sep] + r.value.1.g3
    ensures r.Some? ==> AllDigits(r.value.1.g1) && AllDigits(r.value.1.g2) && AllDigits(r.value.1.g3)
    ensures r.Some? ==> r1.lo <= |r.value.1.g1| <= r1.hi && r2.lo <= |r.value.1.g2| <= r2.hi
                        && r3.lo <= |r.value.1.g3| <= r3.hi
    ensures r.Some? ==> forall p :: 0 <= p < r.value.0 ==> TripleAt(s, sep, r1, r2, r3, p).None?
    ensures r.None? ==> forall p: nat :: p <= |s| ==> TripleAt(s, sep, r1, r2, r3, p).None?
  {
    var shape := Digits(sep, r1, r2, r3);
    match SearchFrom(s, shape, 0)
    case None =>
      assert forall p: nat | p <= |s| :: TripleAt(s, sep, r1, r2, r3, p).None? by {
        forall p: nat | p <= |s| ensures TripleAt(s, sep, r1, r2, r3, p).None? { TripleMissesAt(s, sep, r1, r2, r3, 0, |s| + 1, p); }
      }
      None
    case Some((p, _)) =>
      assert forall q :: 0 <= q < p ==> TripleAt(s, sep, r1, r2, r3, q).None? by {
        forall q | 0 <= q < p ensures TripleAt(s, sep, r1, r2, r3, q).None? { TripleMissesAt(s, sep, r1, r2, r3, 0, p, q); }
      }
      Some((p, TripleAt(s, sep, r1, r2, r3, p).value))
  }

  /** A shape that matches at p and nowhere before is what `re.search` finds. */
  lemma SearchFromAt(s: string, shape: Shape, p: nat)
    requires p <= |s| && ShapeAt(s, shape, p).Some?
    requires forall q :: 0 <= q < p ==> ShapeAt(s, shape, q).None?
    ensures SearchFrom(s, shape, 0) == Some((p, ShapeAt(s, shape, p).value))
  {
  }

  /** A digit triple that matches at the very start is the one `re.search` finds. */
  lemma SearchAtStart(s: string, sep: char, r1: Reps, r2: Reps, r3: Reps)
    requires TripleAt(s, sep, r1, r2, r3, 0).Some?
    ensures SearchTriple(s, sep, r1, r2, r3) == Some((0, TripleAt(s, sep, r1, r2, r3, 0).value))
  {
  }

  /** `re.search(shape, s)`: the group of the leftmost match. */
  function SearchGroup(s: string, shape: Shape): (r: Option<string>)
    ensures r.Some? ==> exists p: nat, h :: p <= |s| && ShapeAt(s, shape, p) == Some(h) && r.value == s[h.start..h.end]
    ensures r.None? ==> forall p: nat :: p <= |s| ==> ShapeAt(s, shape, p).None?
  {
    match SearchFrom(s, shape, 0)
    case None =>
      assert forall p: nat | p <= |s| :: ShapeAt(s, shape, p).None? by {
        forall p: nat | p <= |s| ensures ShapeAt(s, shape, p).None? { NoMatchAt(s, shape, 0, |s| + 1, p); }
      }
      None
    case Some((p, h)) => Some(s[h.start..h.end])
  }

  /** `re.findall` of a lead-in keeps to the characters of the text: a character no text position holds is in no capture. */
  lemma {:induction false} FindAllLeadInAvoids(s: string, lead: LeadIn, from: nat, bad: set<char>)
    requires from <= |s|
    requires forall k :: 0 <= k < |s| ==> s[k] !in bad
    ensures Avoids(FindAllLeadIn(s, lead, from), bad)
    decreases |s| - from
  {
    match SearchFrom(s, Lead(lead), from)
    case None =>
    case Some((p, h)) =>
      var rest := FindAllLeadIn(s, lead, h.next);
      FindAllLeadInAvoids(s, lead, h.next, bad);
      var first := s[h.start..h.end];
      forall i, k | 0 <= i < 1 && 0 <= k < |[first][i]| ensures [first][i][k] !in bad {
        assert [first][i][k] == s[h.start + k];
      }
      AvoidsConcat([first], rest, bad);
  }

  /** A day or year number found at p is the digits from p to the end of the match. */
  lemma NumberFound(s: string, shape: Shape, p: nat, h: Hit)
    requires shape == ShortNumber || shape == CenturyYear
    requires p <= |s| && ShapeAt(s, shape, p) == Some(h)
    ensures h.start == p < h.end <= |s| && AllDigits(s[p..h.end]) && OccursAt(s, s[p..h.end], p)
    ensures shape == ShortNumber ==> h.end <= p + 2
    ensures shape == CenturyYear ==> h.end == p + 4 && s[p..h.end][..2] == "20"
  {
    if shape == CenturyYear {
      assert CenturyYearAt(s, p) == Some(h.end);
      assert s[p..h.end][..2] == s[p..p + 2];
    } else {
      assert ShortNumberAt(s, p) == Some(h.end);
    }
    DigitSlice(s, p, h.end);
  }

  /** The group of a month-name match starts at the match and holds no digit. */
  lemma MonthFound(s: string, p: nat, h: Hit)
    requires p <= |s| && ShapeAt(s, MonthDate, p) == Some(h)
    ensures h.start == p < h.end <= |s|
    ensures forall i :: p <= i < h.end ==> !IsDigit(s[i])
  {
    assert MonthDateAt(s, p) == Some(h);
  }

  /** No character of t is a digit. */
  predicate DigitFree(t: string) {
    forall i :: 0 <= i < |t| ==> !IsDigit(t[i])
  }

  /** A group found comes from a match at some position: that position and its hit. */
  lemma SearchGroupSource(s: string, shape: Shape) returns (p: nat, h: Hit)
    requires SearchGroup(s, shape).Some?
    ensures p <= |s| && ShapeAt(s, shape, p) == Some(h) && SearchGroup(s, shape).value == s[h.start..h.end]
  {
    var r := SearchFrom(s, shape, 0);
    p := r.value.0;
    h := r.value.1;
  }

  /** A stretch of digit-free positions is a digit-free text. */
  lemma DigitFreeSlice(s: string, lo: nat, hi: nat)
    requires lo <= hi <= |s| && forall i :: lo <= i < hi ==> !IsDigit(s[i])
    ensures DigitFree(s[lo..hi])
  {
    var text := s[lo..hi];
    forall i | 0 <= i < |text| ensures !IsDigit(text[i]) {
      assert text[i] == s[lo + i];
    }
  }

  /** A shape none of whose matches holds a digit captures only digit-free groups. */
  lemma GroupDigitFree(s: string, shape: Shape)
    requires forall p: nat, h :: ShapeAt(s, shape, p) == Some(h) ==> DigitFree(s[h.start..h.end])
    ensures SearchGroup(s, shape).Some? ==> DigitFree(SearchGroup(s, shape).value)
  {
    if SearchGroup(s, shape).Some? {
      var p, h := SearchGroupSource(s, shape);
    }
  }

  /** No month-name match holds a digit. */
  lemma MonthHitsDigitFree(s: string)
    ensures forall p: nat, h :: ShapeAt(s, MonthDate, p) == Some(h) ==> DigitFree(s[h.start..h.end])
  {
    forall p: nat, h | ShapeAt(s, MonthDate, p) == Some(h) ensures DigitFree(s[h.start..h.end]) {
      MonthFound(s, p, h);
      DigitFreeSlice(s, p, h.end);
    }
  }

  /** The text the month-name pattern captures holds no digit. */
  lemma MonthGroupDigitFree(s: string)
    ensures SearchGroup(s, MonthDate).Some? ==> DigitFree(SearchGroup(s, MonthDate).value)
  {
    MonthHitsDigitFree(s);
    GroupDigitFree(s, MonthDate);
  }

  /** `re.search(r'\b(\d{1,2})\b', s).group(1)`: a one- or two-digit number standing alone. */
  function SearchShortNumber(s: string): (r: Option<string>)
    ensures r.Some? ==> 1 <= |r.value| <= 2 && AllDigits(r.value) && exists p :: OccursAt(s, r.value, p)
  {
    match SearchFrom(s, ShortNumber, 0)
    case None => None
    case Some((p, h)) => NumberFound(s, ShortNumber, p, h); Some(s[p..h.end])
  }

  /** `re.search(r'\b(20\d{2})\b', s).group(1)`: a standalone four-digit year of the 2000s. */
  function SearchCenturyYear(s: string): (r: Option<string>)
    ensures r.Some? ==> |r.value| == 4 && AllDigits(r.value) && r.value[..2] == "20"
  {
    match SearchFrom(s, CenturyYear, 0)
    case None => None
    case Some((p, h)) => NumberFound(s, CenturyYear, p, h); Some(s[p..h.end])
  }

  /** A text without digits holds no digit triple whose first group needs a digit. */
  lemma NoTripleWithoutDigits(s: string, sep: char, r1: Reps, r2: Reps, r3: Reps)
    requires r1.lo >= 1
    requires forall i :: 0 <= i < |s| ==> !IsDigit(s[i])
    ensures SearchTriple(s, sep, r1, r2, r3).None?
  {
    forall p: nat ensures TripleAt(s, sep, r1, r2, r3, p).None? {
      if p < |s| {
        assert !IsDigit(s[p]);
      }
    }
  }

  /**
    The first compensation pattern, from the k-th on, that matches anywhere:
    the text of its leftmost match.
  */
  function FirstAmount(s: string, pats: seq<AmountPattern>, k: nat): Option<string>
    decreases |pats| - k
  {
    if k >= |pats| then None
    else match SearchAmount(s, pats[k])
      case Some(text) => Some(text)
      case None => FirstAmount(s, pats, k + 1)
  }

  /** When FirstAmount yields a match, it is that of the first pattern that matches. */
  lemma {:induction false} FirstAmountFound(s: string, pats: seq<AmountPattern>, k: nat)
    requires FirstAmount(s, pats, k).Some?
    ensures exists j :: k <= j < |pats| && SearchAmount(s, pats[j]) == FirstAmount(s, pats, k)
                        && forall i :: k <= i < j ==> SearchAmount(s, pats[i]).None?
    decreases |pats| - k
  {
    if SearchAmount(s, pats[k]).None? {
      FirstAmountFound(s, pats, k + 1);
      var j :| k + 1 <= j < |pats| && SearchAmount(s, pats[j]) == FirstAmount(s, pats, k + 1)
               && forall i :: k + 1 <= i < j ==> SearchAmount(s, pats[i]).None?;
      assert SearchAmount(s, pats[j]) == FirstAmount(s, pats, k);
    } else {
      assert SearchAmount(s, pats[k]) == FirstAmount(s, pats, k);
    }
  }

  /** When FirstAmount yields nothing, no pattern from the k-th on matches. */
  lemma {:induction false} FirstAmountNone(s: string, pats: seq<AmountPattern>, k: nat)
    requires FirstAmount(s, pats, k).None?
    ensures forall j :: k <= j < |pats| ==> SearchAmount(s, pats[j]).None?
    decreases |pats| - k
  {
    if k < |pats| {
      assert SearchAmount(s, pats[k]).None?;
      FirstAmountNone(s, pats, k + 1);
    }
  }

  /**
    The patterns are tried in order: a result is the verbatim leftmost match
    of the first pattern that matches anywhere, every earlier pattern matching
    nowhere; there is no result exactly when no pattern matches anywhere.
  */
  lemma FirstAmountText(s: string, pats: seq<AmountPattern>)
    ensures FirstAmount(s, pats, 0).Some? ==>
              exists j: nat, p: nat :: j < |pats| && LeftmostAmount(s, pats[j], p)
                                  && FirstAmount(s, pats, 0).value == s[p..AmountPatternAt(s, pats[j], p).value]
                                  && forall i: nat, q: nat :: i < j && q <= |s| ==> AmountPatternAt(s, pats[i], q).None?
    ensures FirstAmount(s, pats, 0).None? <==>
              forall j: nat, p: nat :: j < |pats| && p <= |s| ==> AmountPatternAt(s, pats[j], p).None?
  {
    if FirstAmount(s, pats, 0).Some? {
      FirstAmountFound(s, pats, 0);
      var j :| 0 <= j < |pats| && SearchAmount(s, pats[j]) == FirstAmount(s, pats, 0)
               && forall i :: 0 <= i < j ==> SearchAmount(s, pats[i]).None?;
      forall i: nat | i < j ensures forall q: nat :: q <= |s| ==> AmountPatternAt(s, pats[i], q).None? {
        SearchAmountLeftmost(s, pats[i]);
      }
      SearchAmountLeftmost(s, pats[j]);
    } else {
      FirstAmountNone(s, pats, 0);
      forall j: nat | j < |pats| ensures forall p: nat :: p <= |s| ==> AmountPatternAt(s, pats[j], p).None? {
        SearchAmountLeftmost(s, pats[j]);
      }
    }
  }
}
