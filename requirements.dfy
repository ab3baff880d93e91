/**
  The requirement extraction loop both keyword analyzers share
  (`_extract_requirements` in ai_analyzer.py, `extract_requirements` in
  final_bot.py): every capture of every lead-in pattern is split into
  pieces, each piece is stripped and kept when its length passes the
  filter, and the first five items are returned. The two differ only in how
  a capture splits and in the length filter, which an `ItemRule` names.
*/
module Requirements {
  import opened Base
  import opened Text
  import opened Patterns

  /** How a capture splits: at single characters, or at those characters and at `and\s+`. */
  datatype Splitter = AtChars(seps: set<char>) | AtCharsOrAnd

  /** A splitter and the length an item must stay below, if any; items are always longer than 3. */
  datatype ItemRule = ItemRule(split: Splitter, below: Option<nat>)

  /** The one-character separators of a splitter. */
  function SplitSeps(split: Splitter): set<char> {
    match split
    case AtChars(seps) => seps
    case AtCharsOrAnd => ReqSeparators
  }

  /** The pieces of one capture. */
  function Pieces(split: Splitter, s: string): (r: seq<string>)
    ensures |r| >= 1
  {
    match split
    case AtChars(seps) => SplitAny(s, seps)
    case AtCharsOrAnd => SplitReqFrom(s, 0, 0)
  }

  /** The pieces hold no one-character separator and only characters of the capture. */
  lemma PiecesFrom(split: Splitter, s: string)
    ensures PiecesOf(Pieces(split, s), s, SplitSeps(split))
  {
    match split
    case AtChars(seps) => SplitAnyPieces(s, seps);
    case AtCharsOrAnd => SplitReqPieces(s, 0, 0);
  }

  /** Whether a stripped piece is kept. */
  predicate Keep(rule: ItemRule, item: string) {
    |item| > 3 && (rule.below.Some? ==> |item| < rule.below.value)
  }

  /** Every item passes the filter and has no whitespace at either end. */
  predicate Tidy(rule: ItemRule, items: seq<string>) {
    forall i :: 0 <= i < |items| ==> Keep(rule, items[i]) && !IsSpace(items[i][0]) && !IsSpace(items[i][|items[i]| - 1])
  }

  lemma TidyConcat(rule: ItemRule, a: seq<string>, b: seq<string>)
    requires Tidy(rule, a) && Tidy(rule, b)
    ensures Tidy(rule, a + b)
  {
    forall i | 0 <= i < |a + b|
      ensures Keep(rule, (a + b)[i]) && !IsSpace((a + b)[i][0]) && !IsSpace((a + b)[i][|(a + b)[i]| - 1])
    {
      if i < |a| { assert (a + b)[i] == a[i]; } else { assert (a + b)[i] == b[i - |a|]; }
    }
  }

  /** The items the first n pieces of one capture contribute: each stripped, kept when it passes the filter. */
  function KeptItems(rule: ItemRule, pieces: seq<string>, n: nat): seq<string>
    requires n <= |pieces|
  {
    if n == 0 then []
    else
      var item := Strip(pieces[n - 1]);
      KeptItems(rule, pieces, n - 1) + if Keep(rule, item) then [item] else []
  }

  /** The items the first n captures contribute, each capture split into pieces. */
  function MatchItems(rule: ItemRule, matches: seq<string>, n: nat): seq<string>
    requires n <= |matches|
  {
    if n == 0 then []
    else
      var pieces := Pieces(rule.split, matches[n - 1]);
      MatchItems(rule, matches, n - 1) + KeptItems(rule, pieces, |pieces|)
  }

  /** Every kept piece passes the filter and is stripped. */
  lemma {:induction false} KeptItemsTidy(rule: ItemRule, pieces: seq<string>, n: nat)
    requires n <= |pieces|
    ensures Tidy(rule, KeptItems(rule, pieces, n))
  {
    if n > 0 {
      KeptItemsTidy(rule, pieces, n - 1);
      var item := Strip(pieces[n - 1]);
      TidyConcat(rule, KeptItems(rule, pieces, n - 1), if Keep(rule, item) then [item] else []);
    }
  }

  /** Every item of every capture passes the filter and is stripped. */
  lemma {:induction false} MatchItemsTidy(rule: ItemRule, matches: seq<string>, n: nat)
    requires n <= |matches|
    ensures Tidy(rule, MatchItems(rule, matches, n))
  {
    if n > 0 {
      MatchItemsTidy(rule, matches, n - 1);
      var pieces := Pieces(rule.split, matches[n - 1]);
      KeptItemsTidy(rule, pieces, |pieces|);
      TidyConcat(rule, MatchItems(rule, matches, n - 1), KeptItems(rule, pieces, |pieces|));
    }
  }

  /** The captures `re.findall` returns for each lead-in, in pattern order. */
  function CapturesOf(content: string, leads: seq<LeadIn>): (caps: seq<seq<string>>)
    ensures |caps| == |leads|
    ensures forall i :: 0 <= i < |leads| ==> caps[i] == FindAllLeadIn(content, leads[i], 0)
  {
    seq(|leads|, i requires 0 <= i < |leads| => FindAllLeadIn(content, leads[i], 0))
  }

  /** The items of the captures of the first n lead-ins. */
  function CaptureItems(rule: ItemRule, caps: seq<seq<string>>, n: nat): seq<string>
    requires n <= |caps|
  {
    if n == 0 then [] else CaptureItems(rule, caps, n - 1) + MatchItems(rule, caps[n - 1], |caps[n - 1]|)
  }

  /** One more lead-in appends the items of its captures. */
  lemma CaptureItemsStep(rule: ItemRule, caps: seq<seq<string>>, i: nat)
    requires i < |caps|
    ensures CaptureItems(rule, caps, i + 1) == CaptureItems(rule, caps, i) + MatchItems(rule, caps[i], |caps[i]|)
  {
  }

  /** Every item of every lead-in passes the filter and is stripped. */
  lemma {:induction false} CaptureItemsTidy(rule: ItemRule, caps: seq<seq<string>>, n: nat)
    requires n <= |caps|
    ensures Tidy(rule, CaptureItems(rule, caps, n))
  {
    if n > 0 {
      CaptureItemsTidy(rule, caps, n - 1);
      MatchItemsTidy(rule, caps[n - 1], |caps[n - 1]|);
      TidyConcat(rule, CaptureItems(rule, caps, n - 1), MatchItems(rule, caps[n - 1], |caps[n - 1]|));
    }
  }

  /** Stripping and filtering keep only characters the pieces had. */
  lemma {:induction false} KeptItemsAvoid(rule: ItemRule, pieces: seq<string>, n: nat, bad: set<char>)
    requires n <= |pieces| && Avoids(pieces, bad)
    ensures Avoids(KeptItems(rule, pieces, n), bad)
  {
    if n > 0 {
      KeptItemsAvoid(rule, pieces, n - 1, bad);
      var last := pieces[n - 1];
      var item := Strip(last);
      assert Avoids([item], bad) by {
        forall k | 0 <= k < |item| ensures item[k] !in bad {
          assert item[k] in last;
        }
      }
      AvoidsConcat(KeptItems(rule, pieces, n - 1), if Keep(rule, item) then [item] else [], bad);
    }
  }

  /** Items cut from captures that avoid `stop` hold no separator character and nothing of `stop`. */
  lemma {:induction false} MatchItemsAvoid(rule: ItemRule, matches: seq<string>, n: nat, stop: set<char>)
    requires n <= |matches| && Avoids(matches, stop)
    ensures Avoids(MatchItems(rule, matches, n), SplitSeps(rule.split) + stop)
  {
    if n > 0 {
      var bad := SplitSeps(rule.split) + stop;
      MatchItemsAvoid(rule, matches, n - 1, stop);
      var last := matches[n - 1];
      var pieces := Pieces(rule.split, last);
      PiecesFrom(rule.split, last);
      forall i, k | 0 <= i < |pieces| && 0 <= k < |pieces[i]| ensures pieces[i][k] !in bad {
        var c := pieces[i][k];
        assert c !in SplitSeps(rule.split) && c in last;
        var m :| 0 <= m < |last| && last[m] == c;
        assert matches[n - 1][m] !in stop;
      }
      var earlier, later := MatchItems(rule, matches, n - 1), KeptItems(rule, pieces, |pieces|);
      KeptItemsAvoid(rule, pieces, |pieces|, bad);
      assert MatchItems(rule, matches, n) == earlier + later;
      AvoidsConcat(earlier, later, bad);
    }
  }

  /** Items of every lead-in avoid the separators and the stop characters of the captures. */
  lemma {:induction false} CaptureItemsAvoid(rule: ItemRule, caps: seq<seq<string>>, n: nat, stop: set<char>)
    requires n <= |caps|
    requires forall j :: 0 <= j < |caps| ==> Avoids(caps[j], stop)
    ensures Avoids(CaptureItems(rule, caps, n), SplitSeps(rule.split) + stop)
  {
    if n > 0 {
      CaptureItemsAvoid(rule, caps, n - 1, stop);
      MatchItemsAvoid(rule, caps[n - 1], |caps[n - 1]|, stop);
      AvoidsConcat(CaptureItems(rule, caps, n - 1), MatchItems(rule, caps[n - 1], |caps[n - 1]|),
                   SplitSeps(rule.split) + stop);
    }
  }

  /** The requirements of a text: the first five items of all captures, in pattern order then match order. */
  function RequirementsIn(content: string, leads: seq<LeadIn>, rule: ItemRule): seq<string> {
    Take(CaptureItems(rule, CapturesOf(content, leads), |leads|), 5)
  }

  /**
    At most five requirements, each passing the filter, stripped, and free
    of separator characters and of the characters every capture stops at.
  */
  lemma RequirementsShape(content: string, leads: seq<LeadIn>, rule: ItemRule, stop: set<char>)
    requires forall j :: 0 <= j < |leads| ==> leads[j].stop == stop
    ensures var r := RequirementsIn(content, leads, rule);
            |r| <= 5 && Tidy(rule, r) && Avoids(r, SplitSeps(rule.split) + stop)
  {
    var caps := CapturesOf(content, leads);
    forall j | 0 <= j < |caps| ensures Avoids(caps[j], stop) {
      assert caps[j] == FindAllLeadIn(content, leads[j], 0);
    }
    var all := CaptureItems(rule, caps, |caps|);
    CaptureItemsTidy(rule, caps, |caps|);
    CaptureItemsAvoid(rule, caps, |caps|, stop);
    var r := RequirementsIn(content, leads, rule);
    assert forall i :: 0 <= i < |r| ==> r[i] == all[i];
  }

  /** A character the text does not hold is in no requirement. */
  lemma RequirementsAvoidText(content: string, leads: seq<LeadIn>, rule: ItemRule, bad: set<char>)
    requires forall k :: 0 <= k < |content| ==> content[k] !in bad
    ensures Avoids(RequirementsIn(content, leads, rule), bad)
  {
    var caps := CapturesOf(content, leads);
    forall j | 0 <= j < |caps| ensures Avoids(caps[j], bad) {
      FindAllLeadInAvoids(content, leads[j], 0, bad);
    }
    var all := CaptureItems(rule, caps, |caps|);
    CaptureItemsAvoid(rule, caps, |caps|, bad);
    var r := RequirementsIn(content, leads, rule);
    assert forall i :: 0 <= i < |r| ==> r[i] == all[i];
  }

  lemma ConcatAssoc(a: seq<string>, b: seq<string>, c: seq<string>)
    ensures (a + b) + c == a + (b + c)
  {
  }

  /** One more piece appends its stripped text when that passes the filter. */
  lemma KeptItemsStep(rule: ItemRule, pieces: seq<string>, k: nat)
    requires k < |pieces|
    ensures var item := Strip(pieces[k]);
            KeptItems(rule, pieces, k + 1) == KeptItems(rule, pieces, k) + if Keep(rule, item) then [item] else []
  {
  }

  /** One more capture appends the kept pieces of its split. */
  lemma MatchItemsStep(rule: ItemRule, matches: seq<string>, j: nat)
    requires j < |matches|
    ensures var pieces := Pieces(rule.split, matches[j]);
            MatchItems(rule, matches, j + 1) == MatchItems(rule, matches, j) + KeptItems(rule, pieces, |pieces|)
  {
  }

  /** The list after one more piece: extended by its stripped text when that passes the filter. */
  lemma KeptItemsNext(rule: ItemRule, requirements: seq<string>, items: seq<string>, k: nat, r: seq<string>)
    requires k < |items| && r == requirements + KeptItems(rule, items, k)
    ensures var item := Strip(items[k]);
            (if Keep(rule, item) then r + [item] else r) == requirements + KeptItems(rule, items, k + 1)
  {
    var item := Strip(items[k]);
    KeptItemsStep(rule, items, k);
    if Keep(rule, item) {
      ConcatAssoc(requirements, KeptItems(rule, items, k), [item]);
    } else {
      assert KeptItems(rule, items, k + 1) == KeptItems(rule, items, k) + [];
    }
  }

  /** The innermost loop: appends each stripped piece that passes the filter. */
  method AppendItems(rule: ItemRule, requirements: seq<string>, items: seq<string>) returns (r: seq<string>)
    ensures r == requirements + KeptItems(rule, items, |items|)
  {
    r := requirements;
    var k := 0;
    assert requirements + KeptItems(rule, items, 0) == requirements;
    while k < |items|
      invariant k <= |items|
      invariant r == requirements + KeptItems(rule, items, k)
    {
      var item := Strip(items[k]);
      KeptItemsNext(rule, requirements, items, k, r);
      if Keep(rule, item) {
        r := r + [item];
      }
      k := k + 1;
    }
  }

  /** The middle loop: the items of each capture in turn. */
  method AppendCaptures(rule: ItemRule, requirements: seq<string>, matches: seq<string>) returns (r: seq<string>)
    ensures r == requirements + MatchItems(rule, matches, |matches|)
  {
    r := requirements;
    var j := 0;
    assert requirements + MatchItems(rule, matches, 0) == requirements;
    while j < |matches|
      invariant j <= |matches|
      invariant r == requirements + MatchItems(rule, matches, j)
    {
      r := AppendCapture(rule, requirements, r, matches, j);
      j := j + 1;
    }
  }

  /** One pass of the middle loop: the kept pieces of capture j. */
  method AppendCapture(rule: ItemRule, requirements: seq<string>, sofar: seq<string>, matches: seq<string>, j: nat)
    returns (r: seq<string>)
    requires j < |matches| && sofar == requirements + MatchItems(rule, matches, j)
    ensures r == requirements + MatchItems(rule, matches, j + 1)
  {
    var items := Pieces(rule.split, matches[j]);
    MatchItemsStep(rule, matches, j);
    ConcatAssoc(requirements, MatchItems(rule, matches, j), KeptItems(rule, items, |items|));
    r := AppendItems(rule, sofar, items);
  }

  /** The outer loop, over the captures `caps` of each lead-in. */
  method CollectFrom(rule: ItemRule, caps: seq<seq<string>>) returns (requirements: seq<string>)
    ensures requirements == CaptureItems(rule, caps, |caps|)
  {
    requirements := [];
    var i := 0;
    while i < |caps|
      invariant i <= |caps|
      invariant requirements == CaptureItems(rule, caps, i)
    {
      CaptureItemsStep(rule, caps, i);
      requirements := AppendCaptures(rule, requirements, caps[i]);
      i := i + 1;
    }
  }

  /**
    The whole extraction for the pattern list `leads`: appends the items of
    every capture of every pattern, then keeps the first five. The captures
    of each pattern are found up front; finding them has no effect, so this
    is the order of the loop that finds them pattern by pattern.
  */
  method ExtractRequirements(content: string, leads: seq<LeadIn>, rule: ItemRule) returns (result: seq<string>)
    ensures result == RequirementsIn(content, leads, rule)
  {
    var caps := CapturesOf(content, leads);
    var requirements := CollectFrom(rule, caps);
    result := Take(requirements, 5);
  }
}
