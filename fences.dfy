/**
  The code-fence cut final_bot.py (`gemini_enhance`) and whatsapp_bot.py
  (`analyze_opportunity`) apply to a model reply before handing it to
  `json.loads`: the text between the first "```json" and the next "```",
  otherwise between the first and the second "```", otherwise the reply as
  it is.
*/
module Fences {
  import opened Base
  import opened Text

  const JsonFence: string := "```json"
  const Fence: string := "```"

  /** A prefix of a string that occurs at j occurs at j too. */
  lemma OccursPrefix(t: string, x: string, j: nat, k: nat)
    requires OccursAt(t, x, j) && k <= |x|
    ensures OccursAt(t, x[..k], j)
  {
    assert t[j..j + k] == t[j..j + |x|][..k];
  }

  /** The first occurrence is the one no earlier occurrence precedes. */
  lemma FindIs(s: string, sub: string, i: nat)
    requires OccursAt(s, sub, i)
    requires forall k :: 0 <= k < i ==> !OccursAt(s, sub, k)
    ensures Find(s, sub, 0) == Some(i)
  {
  }

  /** `t.split('```json')[1].split('```')[0]`, else `t.split('```')[1].split('```')[0]`, else t. */
  function CutFenced(t: string): (r: string)
    ensures !Contains(r, Fence)
    ensures exists j :: OccursAt(t, r, j)
  {
    if Contains(t, JsonFence) then
      var inner := SplitSecond(t, JsonFence);
      var j := Find(t, JsonFence, 0).value + |JsonFence|;
      OccursPrefix(t, inner, j, |SplitFirst(inner, Fence)|);
      SplitFirst(inner, Fence)
    else if Contains(t, Fence) then
      var inner := SplitSecond(t, Fence);
      var j := Find(t, Fence, 0).value + |Fence|;
      OccursPrefix(t, inner, j, |SplitFirst(inner, Fence)|);
      SplitFirst(inner, Fence)
    else
      assert OccursAt(t, t, 0);
      t
  }

  /** A reply without any fence is handed on unchanged. */
  lemma CutUnfenced(t: string)
    requires !Contains(t, Fence)
    ensures CutFenced(t) == t
  {
    if Contains(t, JsonFence) {
      var i := Find(t, JsonFence, 0).value;
      OccursPrefix(t, JsonFence, i, 3);
      assert JsonFence[..3] == Fence;
      ContainsAt(t, Fence, i);
    }
  }

  /** In body + "```" with no backtick in body, the first "```" is the closing one. */
  lemma ClosingFence(body: string)
    requires '`' !in body
    ensures SplitFirst(body + Fence, Fence) == body
  {
    var s := body + Fence;
    forall k | 0 <= k < |body| ensures !OccursAt(s, Fence, k) {
      assert s[k] == body[k] != '`';
    }
    assert s[|body|..|body| + 3] == Fence;
    FindIs(s, Fence, |body|);
    assert s[..|body|] == body;
  }

  /** A reply fenced as "```json" body "```" gives back exactly the body, when the body holds no backtick. */
  lemma CutJsonBlock(body: string)
    requires '`' !in body
    ensures CutFenced(JsonFence + body + Fence) == body
  {
    var t := JsonFence + body + Fence;
    assert t[0..7] == JsonFence;
    FindIs(t, JsonFence, 0);
    assert t[7..] == body + Fence;
    NoJsonFence(body);
    ClosingFence(body);
  }

  /** body + "```" holds no "```json" when body holds no backtick, so splitting on it keeps it whole. */
  lemma NoJsonFence(body: string)
    requires '`' !in body
    ensures SplitFirst(body + Fence, JsonFence) == body + Fence
  {
    var s := body + Fence;
    var r := SplitFirst(s, JsonFence);
    forall j: nat ensures !OccursAt(s, JsonFence, j) {
      if j + |JsonFence| <= |s| {
        assert s[j..j + |JsonFence|][0] == s[j] == body[j];
        assert body[j] in body;
      }
    }
  }

  /** A pattern does not occur where it would run past the end or where one of its characters differs. */
  lemma MismatchAt(s: string, sub: string, i: nat, d: nat)
    requires d < |sub| && (i + |sub| > |s| || s[i + d] != sub[d])
    ensures !OccursAt(s, sub, i)
  {
    if i + |sub| <= |s| {
      assert s[i..i + |sub|][d] == s[i + d];
    }
  }

  /** A reply fenced as "```" body "```" gives back the body, when the body holds no backtick and does not start with "json". */
  lemma CutPlainBlock(body: string)
    requires '`' !in body && !StartsWith(body, "json")
    ensures CutFenced(Fence + body + Fence) == body
  {
    var t := Fence + body + Fence;
    assert JsonFence[3..7] == "json";
    forall k: nat ensures !OccursAt(t, JsonFence, k) {
      if k == 0 && |body| >= 4 {
        assert t[0..7][3..7] == body[..4];
      } else if k == 0 {
        assert t[3 + |body|] == '`';
        MismatchAt(t, JsonFence, 0, 3 + |body|);
      } else if k < 3 && body != [] {
        assert t[3] == body[0] != '`';
        MismatchAt(t, JsonFence, k, 3 - k);
      } else if 3 <= k < 3 + |body| {
        assert t[k] == body[k - 3] != '`';
        MismatchAt(t, JsonFence, k, 0);
      } else {
        MismatchAt(t, JsonFence, k, 0);
      }
    }
    assert t[0..3] == Fence;
    FindIs(t, Fence, 0);
    assert t[3..] == body + Fence;
    ClosingFence(body);
  }
}
