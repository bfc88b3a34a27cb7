/** The background-image URL extractor: `hasBackgroundImageValue` and
    `getBackgroundImageURL`, which pull the single URL out of a
    `url("...")` background-image value. */
module BackgroundUrl {
  import opened Base

  /** What reading `backgroundImage` off a style declaration gives: a string,
      or something else (`undefined` when the property is missing). */
  datatype StyleValue = NotAString | Text(text: string)

  const Prefix: string := "url(\""
  const Suffix: string := "\")"

  /** The characters JavaScript's `.` does not match without the `s` flag. */
  predicate IsLineTerminator(c: char)
  {
    c == '\n' || c == '\r' || c == '\U{2028}' || c == '\U{2029}'
  }

  predicate NoLineTerminator(s: string)
  {
    forall k :: 0 <= k < |s| ==> !IsLineTerminator(s[k])
  }

  /** `typeof str === 'string' && !!str && str !== 'none'` */
  predicate HasBackgroundImageValue(v: StyleValue)
  {
    v.Text? && v.text != "" && v.text != "none"
  }

  /** How far the greedy `.+` of the pattern reaches from position `i`: the
      first line terminator at or after `i`, or the end of `s`. */
  function DotRunEnd(s: string, i: nat): (j: nat)
    requires i <= |s|
    ensures i <= j <= |s|
    ensures forall k :: i <= k < j ==> !IsLineTerminator(s[k])
    ensures j == |s| || IsLineTerminator(s[j])
    decreases |s| - i
  {
    if i == |s| || IsLineTerminator(s[i]) then i else DotRunEnd(s, i + 1)
  }

  /** The regex engine giving back characters of `.+` one at a time, from its
      greedy end `j` down to one character past `lo`, until the rest of the
      pattern, `"\)$`, matches; the result is where group 2 ends. */
  function Backtrack(s: string, lo: nat, j: nat): Option<nat>
    requires j <= |s|
    decreases j
  {
    if j <= lo then None
    else if s[j..] == Suffix then Some(j)
    else Backtrack(s, lo, j - 1)
  }

  /** Group 2 of `str.match(/^(url\(")(.+)("\))$/)`, or `None` when there is
      no match. Whatever it returns is wrapped in `url("` and `")` in `s`. */
  function MatchUrlPattern(s: string): (r: Option<string>)
    ensures r.Some? ==> s == Prefix + r.value + Suffix && r.value != "" && NoLineTerminator(r.value)
  {
    if |s| < |Prefix| || s[..|Prefix|] != Prefix then None
    else
      var j := DotRunEnd(s, |Prefix|);
      BacktrackFinds(s, |Prefix|, j);
      match Backtrack(s, |Prefix|, j)
      case None => None
      case Some(k) =>
        assert s == s[..|Prefix|] + s[|Prefix|..k] + s[k..];
        assert forall i :: 0 <= i < k - |Prefix| ==> s[|Prefix|..k][i] == s[|Prefix| + i];
        Some(s[|Prefix|..k])
  }

  /** `getBackgroundImageURL`: `null` (here `None`) unless the value is a
      usable string whose whole text is one double-quoted `url(...)`. A URL it
      returns is never empty, so a truthiness test on the result is the same
      as asking whether there is one. */
  function GetBackgroundImageURL(v: StyleValue): (r: Option<string>)
    ensures r.Some? ==> HasBackgroundImageValue(v) && r.value != ""
    ensures r.Some? ==> v == Text(Prefix + r.value + Suffix) && NoLineTerminator(r.value)
  {
    if !HasBackgroundImageValue(v) then None else MatchUrlPattern(v.text)
  }

  /** Backtracking succeeds exactly when the closing `")` sits at the end of
      `s`, leaves at least one character to `.+`, and lies within its reach. */
  lemma {:induction false} BacktrackFinds(s: string, lo: nat, j: nat)
    requires j <= |s|
    ensures Backtrack(s, lo, j) ==
            if lo < |s| - |Suffix| <= j && s[|s| - |Suffix|..] == Suffix then Some(|s| - |Suffix|) else None
  {
    if j <= lo {
    } else if s[j..] == Suffix {
      assert |s[j..]| == |Suffix|;
    } else {
      BacktrackFinds(s, lo, j - 1);
    }
  }

  /** The matcher accepts exactly the strings `url("` + m + `")` with `m`
      non-empty and free of line terminators, and gives back that `m`. */
  lemma MatchUrlPatternExact(s: string, m: string)
    ensures MatchUrlPattern(s) == Some(m) <==>
            (s == Prefix + m + Suffix && m != "" && NoLineTerminator(m))
  {
    if s == Prefix + m + Suffix && m != "" && NoLineTerminator(m) {
      assert s[..|Prefix|] == Prefix;
      var j := DotRunEnd(s, |Prefix|);
      BacktrackFinds(s, |Prefix|, j);
      assert s[|Prefix|..|s| - |Suffix|] == m;
      assert s[|s| - |Suffix|..] == Suffix;
      assert forall k :: |Prefix| <= k < |s| - |Suffix| ==> s[k] == m[k - |Prefix|];
      assert j >= |s| - |Suffix|;
    }
  }

  /** Exact characterisation of `getBackgroundImageURL`: it returns `m`
      exactly for the value `url("` + m + `")` with `m` non-empty and without
      line terminators; every other value, `url("")`, single-quoted and
      unquoted forms included, gives `None`. */
  lemma GetBackgroundImageURLExact(v: StyleValue, m: string)
    ensures GetBackgroundImageURL(v) == Some(m) <==>
            (v == Text(Prefix + m + Suffix) && m != "" && NoLineTerminator(m))
  {
    if v.Text? {
      MatchUrlPatternExact(v.text, m);
      if v.text == Prefix + m + Suffix {
        assert v.text != "" && v.text != "none" by {
          assert |v.text| >= |Prefix| + |Suffix|;
          assert v.text[0] == 'u';
        }
      }
    }
  }

  /** Round trip: wrapping a non-empty, single-line URL as a CSS `url("...")`
      value and extracting it gives the URL back. */
  lemma ExtractWrapped(m: string)
    requires m != "" && NoLineTerminator(m)
    ensures GetBackgroundImageURL(Text(Prefix + m + Suffix)) == Some(m)
  {
    GetBackgroundImageURLExact(Text(Prefix + m + Suffix), m);
  }

  /** The absent values: a non-string, the empty string and `none`. */
  lemma AbsentValues()
    ensures GetBackgroundImageURL(NotAString) == None
    ensures GetBackgroundImageURL(Text("")) == None
    ensures GetBackgroundImageURL(Text("none")) == None
  {
  }

  /** The `hasBackgroundImageValue` guard never changes the answer for a
      string: the pattern alone already rejects `""` and `none`. */
  lemma GuardIsRedundantForStrings(s: string)
    ensures GetBackgroundImageURL(Text(s)) == MatchUrlPattern(s)
  {
  }

  /** Sample values: the double-quoted form is unwrapped; the empty URL, the
      single-quoted and the unquoted forms are not URLs to this extractor. */
  lemma Samples()
    ensures GetBackgroundImageURL(Text("url(\"x.png\")")) == Some("x.png")
    ensures GetBackgroundImageURL(Text("url(\"\")")) == None
    ensures GetBackgroundImageURL(Text("url('x.png')")) == None
    ensures GetBackgroundImageURL(Text("url(x.png)")) == None
  {
    ExtractWrapped("x.png");
    assert Prefix + "x.png" + Suffix == "url(\"x.png\")";
    assert "url('x.png')"[4] != Prefix[4];
    assert "url(x.png)"[4] != Prefix[4];
  }
}
