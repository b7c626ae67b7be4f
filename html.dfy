/** `escapeHtml`: the text of books and quotes made safe to splice into markup, and the
    decoding that undoes it. */
module Html {

  /** The entity `escapeHtml` writes for one character; any other character is kept. */
  function EscapeChar(c: char): string
  {
    if c == '&' then "&amp;"
    else if c == '<' then "&lt;"
    else if c == '>' then "&gt;"
    else if c == '"' then "&quot;"
    else if c == '\'' then "&#039;"
    else [c]
  }

  /** `t` starts with one of the five entities `escapeHtml` writes. */
  predicate StartsEntity(t: string)
  {
    "&amp;" <= t || "&lt;" <= t || "&gt;" <= t || "&quot;" <= t || "&#039;" <= t
  }

  /** A character markup gives a meaning to. */
  predicate Special(c: char)
  {
    c == '<' || c == '>' || c == '"' || c == '\''
  }

  /** The result holds no `<`, `>`, `"` or `'`, and every `&` in it begins an entity. */
  predicate Safe(r: string)
  {
    && (forall i :: 0 <= i < |r| ==> !Special(r[i]))
    && (forall i :: 0 <= i < |r| && r[i] == '&' ==> StartsEntity(r[i..]))
  }

  /** Putting one escaped character in front of safe text keeps it safe. */
  lemma EscapeCharSafe(c: char, rest: string)
    requires Safe(rest)
    ensures Safe(EscapeChar(c) + rest)
  {
    var x := EscapeChar(c);
    var r := x + rest;
    forall i | 0 <= i < |r|
      ensures !Special(r[i])
      ensures r[i] == '&' ==> StartsEntity(r[i..])
    {
      if i >= |x| {
        assert r[i] == rest[i - |x|];
        assert r[i..] == rest[i - |x|..];
      } else if r[i] == '&' {
        assert i == 0;
        assert x <= r;
      }
    }
  }

  /** `text.replace(/[&<>"']/g, m => map[m])`: each character replaced by its entity,
      leaving text that is safe to splice into markup. */
  function Escape(s: string): (r: string)
    ensures Safe(r)
  {
    if s == [] then []
    else
      EscapeCharSafe(s[0], Escape(s[1..]));
      EscapeChar(s[0]) + Escape(s[1..])
  }

  /** Every occurrence of `pat` in `s` replaced by `rep`, scanning from the left and
      resuming after each replacement. */
  function ReplaceAll(s: string, pat: string, rep: string): string
    requires |pat| > 0
  {
    if |s| < |pat| then s
    else if s[..|pat|] == pat then rep + ReplaceAll(s[|pat|..], pat, rep)
    else [s[0]] + ReplaceAll(s[1..], pat, rep)
  }

  /** Decoding: `&lt;`, `&gt;`, `&quot;` and `&#039;` first, `&amp;` last. */
  function Unescape(s: string): string
  {
    var s1 := ReplaceAll(s, "&lt;", "<");
    var s2 := ReplaceAll(s1, "&gt;", ">");
    var s3 := ReplaceAll(s2, "&quot;", "\"");
    var s4 := ReplaceAll(s3, "&#039;", "'");
    ReplaceAll(s4, "&amp;", "&")
  }

  /** The stage of `Unescape` that decodes each character: 1 to 4 for `<`, `>`, `"`
      and `'`, 5 for `&`, and 0 for a character that is never encoded. */
  function Stage(c: char): nat
  {
    if c == '<' then 1
    else if c == '>' then 2
    else if c == '"' then 3
    else if c == '\'' then 4
    else if c == '&' then 5
    else 0
  }

  /** The character stage `k` decodes. */
  function StageChar(k: nat): char
    requires 1 <= k <= 5
  {
    if k == 1 then '<' else if k == 2 then '>' else if k == 3 then '"' else if k == 4 then '\'' else '&'
  }

  /** What is left of the encoding of `c` once the first `k` stages have run. */
  function Partly(k: nat, c: char): string
  {
    if Stage(c) <= k then [c] else EscapeChar(c)
  }

  /** What is left of `Escape(s)` once the first `k` stages have run. */
  function PartlyStr(k: nat, s: string): string
  {
    if s == [] then [] else Partly(k, s[0]) + PartlyStr(k, s[1..])
  }

  lemma {:induction false} PartlyNone(s: string)
    ensures PartlyStr(0, s) == Escape(s)
  {
    if s != [] {
      PartlyNone(s[1..]);
    }
  }

  lemma {:induction false} PartlyAll(s: string)
    ensures PartlyStr(5, s) == s
  {
    if s != [] {
      PartlyAll(s[1..]);
      assert s == [s[0]] + s[1..];
    }
  }

  /** Replacing cannot start inside `x`: its only possible `&` is its first character,
      and there the next character already differs from the pattern's. */
  lemma {:induction false} SkipToken(x: string, rest: string, pat: string, rep: string)
    requires |pat| >= 2 && pat[0] == '&'
    requires |x| > 0
    requires forall i :: 1 <= i < |x| ==> x[i] != '&'
    requires x[0] == '&' ==> |x| >= 2 && x[1] != pat[1]
    ensures ReplaceAll(x + rest, pat, rep) == x + ReplaceAll(rest, pat, rep)
    decreases |x|
  {
    var t := x + rest;
    assert t[0] == x[0];
    if |t| < |pat| {
      assert |rest| < |pat|;
    } else {
      assert t[..|pat|] != pat by {
        if x[0] == '&' {
          assert t[1] == x[1];
        }
      }
      assert ReplaceAll(t, pat, rep) == [x[0]] + ReplaceAll(t[1..], pat, rep);
      if |x| == 1 {
        assert t[1..] == rest;
      } else {
        assert t[1..] == x[1..] + rest;
        assert x[1..][0] == x[1];
        SkipToken(x[1..], rest, pat, rep);
        assert x == [x[0]] + x[1..];
      }
    }
  }

  /** What the first `k` stages leave of a character that stage `k + 1` does not decode
      is left alone by that stage as well, and cannot hide a match of its pattern. */
  lemma OtherToken(k: nat, c: char)
    requires k < 5 && Stage(c) != k + 1
    ensures Partly(k + 1, c) == Partly(k, c)
    ensures |Partly(k, c)| > 0
    ensures forall i :: 1 <= i < |Partly(k, c)| ==> Partly(k, c)[i] != '&'
    ensures Partly(k, c)[0] == '&' ==> |Partly(k, c)| >= 2 && Partly(k, c)[1] != EscapeChar(StageChar(k + 1))[1]
  {
  }

  /** Stage `k + 1` turns what the first `k` stages left into what the first `k + 1` leave. */
  lemma {:induction false} StageStep(k: nat, s: string)
    requires k < 5
    ensures ReplaceAll(PartlyStr(k, s), EscapeChar(StageChar(k + 1)), [StageChar(k + 1)]) == PartlyStr(k + 1, s)
  {
    if s != [] {
      StageStep(k, s[1..]);
      var pat := EscapeChar(StageChar(k + 1));
      var x, rest := Partly(k, s[0]), PartlyStr(k, s[1..]);
      if Stage(s[0]) == k + 1 {
        assert x == pat;
        assert (x + rest)[..|pat|] == pat && (x + rest)[|pat|..] == rest;
      } else {
        OtherToken(k, s[0]);
        SkipToken(x, rest, pat, [StageChar(k + 1)]);
      }
    }
  }

  /** Decoding gives back exactly the text that was escaped. */
  lemma UnescapeEscape(s: string)
    ensures Unescape(Escape(s)) == s
  {
    PartlyNone(s);
    StageStep(0, s);
    StageStep(1, s);
    StageStep(2, s);
    StageStep(3, s);
    StageStep(4, s);
    PartlyAll(s);
    assert EscapeChar(StageChar(1)) == "&lt;";
    assert EscapeChar(StageChar(2)) == "&gt;";
    assert EscapeChar(StageChar(3)) == "&quot;";
    assert EscapeChar(StageChar(4)) == "&#039;";
    assert EscapeChar(StageChar(5)) == "&amp;";
  }
}
