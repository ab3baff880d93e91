/**
  `datetime.strptime(text, format)` for the formats the analyzers use.

  CPython turns the format into a regular expression: each directive becomes
  a group of alternatives (`%m` is `1[0-2]|0[1-9]|[1-9]`, `%d` is
  `3[01]|[12]\d|0[1-9]|[1-9]| [1-9]`, ...), whitespace becomes `\s+`, and
  other characters stand for themselves. The expression is matched at the
  start of the text, taking the first way that succeeds in backtracking
  order; text left over after that match is an error ("unconverted data
  remains"), and so is a result the `datetime` constructor refuses.
*/
module Strptime {
  import opened Base
  import opened Text
  import opened Calendar

  /** One element of a format string. */
  datatype Directive = Year | Month | Day | Hour | Minute | Second | Lit(c: char) | Gap

  /** A parsed `datetime`. */
  datatype Stamp = Stamp(date: Date, hour: nat, minute: nat, second: nat)

  /** One way a directive can match at a position: the number it read and where it ends. */
  datatype Piece = Piece(value: nat, end: nat)

  /** "%Y-%m-%d %H:%M:%S" */
  const YmdHmsFormat: seq<Directive> :=
    [Year, Lit('-'), Month, Lit('-'), Day, Gap, Hour, Lit(':'), Minute, Lit(':'), Second]
  /** "%Y-%m-%d" */
  const YmdFormat: seq<Directive> := [Year, Lit('-'), Month, Lit('-'), Day]
  /** "%d/%m/%Y" */
  const DmyFormat: seq<Directive> := [Day, Lit('/'), Month, Lit('/'), Year]
  /** "%m/%d/%Y" */
  const MdyFormat: seq<Directive> := [Month, Lit('/'), Day, Lit('/'), Year]

  /** The alternative `[lo1-hi1][lo2-hi2]` at i. */
  function TwoAt(s: string, i: nat, lo1: char, hi1: char, lo2: char, hi2: char): (r: seq<Piece>)
    requires '0' <= lo1 && hi1 <= '9' && '0' <= lo2 && hi2 <= '9'
    ensures |r| <= 1
    ensures forall k :: 0 <= k < |r| ==> r[k].end == i + 2 <= |s|
  {
    if i + 2 <= |s| && lo1 <= s[i] <= hi1 && lo2 <= s[i + 1] <= hi2
    then [Piece(10 * DigitValue(s[i]) + DigitValue(s[i + 1]), i + 2)]
    else []
  }

  /** The alternative `[lo-hi]` at i. */
  function OneAt(s: string, i: nat, lo: char, hi: char): (r: seq<Piece>)
    requires '0' <= lo && hi <= '9'
    ensures |r| <= 1
    ensures forall k :: 0 <= k < |r| ==> r[k].end == i + 1 <= |s|
  {
    if i < |s| && lo <= s[i] <= hi then [Piece(DigitValue(s[i]), i + 1)] else []
  }

  /** The alternative ` [1-9]` of `%d` at i. */
  function SpaceDigitAt(s: string, i: nat): (r: seq<Piece>)
    ensures |r| <= 1
    ensures forall k :: 0 <= k < |r| ==> r[k].end == i + 2 <= |s|
  {
    if i + 2 <= |s| && s[i] == ' ' && '1' <= s[i + 1] <= '9' then [Piece(DigitValue(s[i + 1]), i + 2)] else []
  }

  /** `\s+` from i: the ends e down to i + 1 of a run of whitespace ending at `top`, longest first. */
  function GapEnds(i: nat, top: nat): (r: seq<Piece>)
    ensures forall k :: 0 <= k < |r| ==> i < r[k].end <= top
    decreases top
  {
    if top <= i then [] else [Piece(0, top)] + GapEnds(i, top - 1)
  }

  /** `%m`: `1[0-2]|0[1-9]|[1-9]`. */
  function MonthAlts(s: string, i: nat): (r: seq<Piece>)
    ensures forall k :: 0 <= k < |r| ==> i < r[k].end <= |s|
  {
    TwoAt(s, i, '1', '1', '0', '2') + TwoAt(s, i, '0', '0', '1', '9') + OneAt(s, i, '1', '9')
  }

  /** `%d`: `3[01]|[12]\d|0[1-9]|[1-9]| [1-9]`. */
  function DayAlts(s: string, i: nat): (r: seq<Piece>)
    ensures forall k :: 0 <= k < |r| ==> i < r[k].end <= |s|
  {
    var a := TwoAt(s, i, '3', '3', '0', '1') + TwoAt(s, i, '1', '2', '0', '9');
    var b := TwoAt(s, i, '0', '0', '1', '9') + OneAt(s, i, '1', '9');
    a + b + SpaceDigitAt(s, i)
  }

  /** `%H`: `2[0-3]|[0-1]\d|\d`. */
  function HourAlts(s: string, i: nat): (r: seq<Piece>)
    ensures forall k :: 0 <= k < |r| ==> i < r[k].end <= |s|
  {
    TwoAt(s, i, '2', '2', '0', '3') + TwoAt(s, i, '0', '1', '0', '9') + OneAt(s, i, '0', '9')
  }

  /** `%M`: `[0-5]\d|\d`. */
  function MinuteAlts(s: string, i: nat): (r: seq<Piece>)
    ensures forall k :: 0 <= k < |r| ==> i < r[k].end <= |s|
  {
    TwoAt(s, i, '0', '5', '0', '9') + OneAt(s, i, '0', '9')
  }

  /** `%S`: `6[0-1]|[0-5]\d|\d`. */
  function SecondAlts(s: string, i: nat): (r: seq<Piece>)
    ensures forall k :: 0 <= k < |r| ==> i < r[k].end <= |s|
  {
    TwoAt(s, i, '6', '6', '0', '1') + TwoAt(s, i, '0', '5', '0', '9') + OneAt(s, i, '0', '9')
  }

  /** `%Y`: `\d\d\d\d`. */
  function YearAlts(s: string, i: nat): (r: seq<Piece>)
    ensures forall k :: 0 <= k < |r| ==> i < r[k].end <= |s|
  {
    if i + 4 <= |s| && IsDigit(s[i]) && IsDigit(s[i + 1]) && IsDigit(s[i + 2]) && IsDigit(s[i + 3])
    then [Piece(1000 * DigitValue(s[i]) + 100 * DigitValue(s[i + 1])
                + 10 * DigitValue(s[i + 2]) + DigitValue(s[i + 3]), i + 4)]
    else []
  }

  /** The ways a directive can match at i, in the order the regular expression tries them. */
  function Candidates(dir: Directive, s: string, i: nat): (r: seq<Piece>)
    requires i <= |s|
    ensures forall k :: 0 <= k < |r| ==> i < r[k].end <= |s|
  {
    match dir
    case Year => YearAlts(s, i)
    case Month => MonthAlts(s, i)
    case Day => DayAlts(s, i)
    case Hour => HourAlts(s, i)
    case Minute => MinuteAlts(s, i)
    case Second => SecondAlts(s, i)
    case Lit(c) => if i < |s| && s[i] == c then [Piece(0, i + 1)] else []
    case Gap => GapEnds(i, SkipSpace(s, i))
  }

  /**
    The first way, in backtracking order, that the directives match s from
    position i: one number per directive and the end of the match.
  */
  function MatchFrom(s: string, i: nat, fmt: seq<Directive>): (r: Option<(seq<nat>, nat)>)
    requires i <= |s|
    ensures r.Some? ==> |r.value.0| == |fmt| && r.value.1 <= |s|
    decreases |fmt|, 1, 0
  {
    if fmt == [] then Some(([], i))
    else TryCandidates(s, fmt, Candidates(fmt[0], s, i), 0)
  }

  /** Try the candidates of fmt[0] from the k-th on, each followed by the rest of the format. */
  function TryCandidates(s: string, fmt: seq<Directive>, cands: seq<Piece>, k: nat): (r: Option<(seq<nat>, nat)>)
    requires fmt != []
    requires forall j :: 0 <= j < |cands| ==> cands[j].end <= |s|
    ensures r.Some? ==> |r.value.0| == |fmt| && r.value.1 <= |s|
    decreases |fmt|, 0, |cands| - k
  {
    if k >= |cands| then None
    else match MatchFrom(s, cands[k].end, fmt[1..])
      case Some((vs, e)) => Some(([cands[k].value] + vs, e))
      case None => TryCandidates(s, fmt, cands, k + 1)
  }

  /** The number read by the first occurrence of directive d, or the default strptime uses. */
  function FieldOf(fmt: seq<Directive>, vs: seq<nat>, d: Directive, default: nat, k: nat := 0): nat
    requires |vs| == |fmt|
    decreases |fmt| - k
  {
    if k >= |fmt| then default
    else if fmt[k] == d then vs[k]
    else FieldOf(fmt, vs, d, default, k + 1)
  }

  /** What the `datetime` constructor accepts. */
  predicate ValidStamp(t: Stamp) {
    ValidDate(t.date) && t.hour <= 23 && t.minute <= 59 && t.second <= 59
  }

  /**
    `datetime.strptime(s, fmt)`; None stands for the ValueError raised when
    the text does not match, leaves unconverted data, or names no real date.
  */
  function Parse(s: string, fmt: seq<Directive>): (r: Option<Stamp>)
    ensures r.Some? ==> ValidStamp(r.value)
  {
    match MatchFrom(s, 0, fmt)
    case None => None
    case Some((vs, e)) =>
      var t := Stamp(Date(FieldOf(fmt, vs, Year, 1900), FieldOf(fmt, vs, Month, 1), FieldOf(fmt, vs, Day, 1)),
                     FieldOf(fmt, vs, Hour, 0), FieldOf(fmt, vs, Minute, 0), FieldOf(fmt, vs, Second, 0));
      if e == |s| && ValidStamp(t) then Some(t) else None
  }

  /** When the first candidate is followed by a match of the rest, that is the match. */
  lemma FirstWins(s: string, i: nat, fmt: seq<Directive>, v: nat, j: nat, vs: seq<nat>, e: nat)
    requires i <= |s| && fmt != []
    requires Candidates(fmt[0], s, i) != [] && Candidates(fmt[0], s, i)[0] == Piece(v, j)
    requires j <= |s| && MatchFrom(s, j, fmt[1..]) == Some((vs, e))
    ensures MatchFrom(s, i, fmt) == Some(([v] + vs, e))
  {
  }

  /** When no candidate from the k-th on is followed by a match of the rest, there is no match. */
  lemma {:induction false} NoneWins(s: string, fmt: seq<Directive>, cands: seq<Piece>, k: nat)
    requires fmt != []
    requires forall j :: 0 <= j < |cands| ==> cands[j].end <= |s|
    requires forall j :: k <= j < |cands| ==> MatchFrom(s, cands[j].end, fmt[1..]).None?
    ensures TryCandidates(s, fmt, cands, k).None?
    decreases |cands| - k
  {
    if k < |cands| {
      NoneWins(s, fmt, cands, k + 1);
    }
  }

  /** A literal that is not there stops the match. */
  lemma LitMisses(s: string, i: nat, c: char, rest: seq<Directive>)
    requires i <= |s| && (i == |s| || s[i] != c)
    ensures MatchFrom(s, i, [Lit(c)] + rest).None?
  {
    assert Candidates(Lit(c), s, i) == [];
  }

  /** `%Y` reads back a four-digit year. */
  lemma YearOfPad4(s: string, i: nat, y: nat)
    requires y < 10000 && i + 4 <= |s| && s[i..i + 4] == Pad4(y)
    ensures Candidates(Year, s, i) == [Piece(y, i + 4)]
  {
    assert s[i] == Pad4(y)[0] && s[i + 1] == Pad4(y)[1] && s[i + 2] == Pad4(y)[2] && s[i + 3] == Pad4(y)[3];
  }

  /**
    `%m` on two digits n: the first alternative reads n when n is a month;
    otherwise every alternative stops after one digit.
  */
  lemma MonthOfPad2(s: string, i: nat, n: nat)
    requires n < 100 && i + 2 <= |s| && s[i..i + 2] == Pad2(n)
    ensures 1 <= n <= 12 ==> Candidates(Month, s, i) != [] && Candidates(Month, s, i)[0] == Piece(n, i + 2)
    ensures !(1 <= n <= 12) ==> forall k :: 0 <= k < |Candidates(Month, s, i)| ==> Candidates(Month, s, i)[k].end == i + 1
  {
    assert s[i] == Pad2(n)[0] && s[i + 1] == Pad2(n)[1];
  }

  /**
    `%d` on two digits n: the first alternative that applies reads n when n
    is a day number; otherwise every alternative stops after one digit.
  */
  lemma DayOfPad2(s: string, i: nat, n: nat)
    requires n < 100 && i + 2 <= |s| && s[i..i + 2] == Pad2(n)
    ensures 1 <= n <= 31 ==> Candidates(Day, s, i) != [] && Candidates(Day, s, i)[0] == Piece(n, i + 2)
    ensures !(1 <= n <= 31) ==> forall k :: 0 <= k < |Candidates(Day, s, i)| ==> Candidates(Day, s, i)[k].end == i + 1
  {
    assert s[i] == Pad2(n)[0] && s[i + 1] == Pad2(n)[1];
  }

  /** Where the numbers of "%Y-%m-%d" land. */
  lemma FieldsOfYmd(vs: seq<nat>)
    requires |vs| == 5
    ensures FieldOf(YmdFormat, vs, Year, 1900) == vs[0]
    ensures FieldOf(YmdFormat, vs, Month, 1) == vs[2]
    ensures FieldOf(YmdFormat, vs, Day, 1) == vs[4]
    ensures FieldOf(YmdFormat, vs, Hour, 0) == 0
    ensures FieldOf(YmdFormat, vs, Minute, 0) == 0
    ensures FieldOf(YmdFormat, vs, Second, 0) == 0
  {
  }

  /** strptime reads back what `strftime("%Y-%m-%d")` wrote. */
  lemma YmdRoundTrip(d: Date)
    requires ValidDate(d)
    ensures Parse(FormatYmd(d), YmdFormat) == Some(Stamp(d, 0, 0, 0))
  {
    var s := FormatYmd(d);
    YearOfPad4(s, 0, d.year);
    assert s[5..7] == Pad2(d.month);
    MonthOfPad2(s, 5, d.month);
    assert s[8..10] == Pad2(d.day);
    DayOfPad2(s, 8, d.day);
    assert s[4] == '-' && s[7] == '-';
    assert MatchFrom(s, 10, []) == Some(([], 10));
    FirstWins(s, 8, [Day], d.day, 10, [], 10);
    assert [Lit('-'), Day][1..] == [Day];
    assert Candidates(Lit('-'), s, 7) == [Piece(0, 8)];
    assert [d.day] + [] == [d.day];
    assert MatchFrom(s, 8, [Day]) == Some(([d.day], 10));
    FirstWins(s, 7, [Lit('-'), Day], 0, 8, [d.day], 10);
    assert [0] + [d.day] == [0, d.day];
    assert [Month, Lit('-'), Day][1..] == [Lit('-'), Day];
    FirstWins(s, 5, [Month, Lit('-'), Day], d.month, 7, [0, d.day], 10);
    assert [d.month] + [0, d.day] == [d.month, 0, d.day];
    assert [Lit('-'), Month, Lit('-'), Day][1..] == [Month, Lit('-'), Day];
    FirstWins(s, 4, [Lit('-'), Month, Lit('-'), Day], 0, 5, [d.month, 0, d.day], 10);
    assert [0] + [d.month, 0, d.day] == [0, d.month, 0, d.day];
    assert YmdFormat[1..] == [Lit('-'), Month, Lit('-'), Day];
    FirstWins(s, 0, YmdFormat, d.year, 4, [0, d.month, 0, d.day], 10);
    assert [d.year] + [0, d.month, 0, d.day] == [d.year, 0, d.month, 0, d.day];
    var vs: seq<nat> := [d.year, 0, d.month, 0, d.day];
    FieldsOfYmd(vs);
  }
}
