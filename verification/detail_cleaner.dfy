/** `_clean_plan_details`: truncate to 50 characters, delete every special character that
    is followed by another special character, strip whitespace; a missing or empty input
    gives a fixed placeholder. A special character is one outside `[a-zA-Z0-9\s]`. */
module DetailCleaner {
  import opened Wrappers
  import opened Sequences
  import opened Text

  const Placeholder: string := "No details available"
  const MaxLength: nat := 50

  predicate IsAsciiAlnum(c: char) {
    'a' <= c <= 'z' || 'A' <= c <= 'Z' || '0' <= c <= '9'
  }

  /** A character of the class `[^a-zA-Z0-9\s]`. */
  predicate IsSpecial(c: char) {
    !IsAsciiAlnum(c) && !IsSpace(c)
  }

  predicate NoAdjacentSpecials(s: string) {
    forall i :: 0 <= i < |s| - 1 ==> !(IsSpecial(s[i]) && IsSpecial(s[i + 1]))
  }

  /** The characters of `s` that are not special, in order. */
  function Plain(s: string): string {
    if s == [] then [] else (if IsSpecial(s[0]) then [] else [s[0]]) + Plain(s[1..])
  }

  /** `s[:50]` */
  function Truncate(s: string): (r: string)
    ensures |r| == (if |s| <= MaxLength then |s| else MaxLength) && r <= s
  {
    if |s| <= MaxLength then s else s[..MaxLength]
  }

  /** `re.sub(r'[^a-zA-Z0-9\s](?=[^a-zA-Z0-9\s])', '', s)`: each one-character match is a
      special character whose successor is special, and every such character goes. The
      result keeps every non-special character and has no two specials side by side. */
  function DropSpecialRuns(s: string): (r: string)
    ensures |r| <= |s|
    ensures |s| > 0 && !IsSpecial(s[0]) ==> |r| > 0 && r[0] == s[0]
  {
    if s == [] then []
    else if IsSpecial(s[0]) && |s| > 1 && IsSpecial(s[1]) then DropSpecialRuns(s[1..])
    else [s[0]] + DropSpecialRuns(s[1..])
  }

  /** The substitution deletes only special characters: every other one is kept, in order. */
  lemma {:induction false} DropSpecialRunsKeepsPlain(s: string)
    ensures Plain(DropSpecialRuns(s)) == Plain(s)
  {
    if s != [] {
      DropSpecialRunsKeepsPlain(s[1..]);
      if !(IsSpecial(s[0]) && |s| > 1 && IsSpecial(s[1])) {
        var t := DropSpecialRuns(s[1..]);
        assert ([s[0]] + t)[0] == s[0] && ([s[0]] + t)[1..] == t;
      }
    }
  }

  /** After the substitution no two special characters are adjacent. */
  lemma {:induction false} DropSpecialRunsLeavesNoAdjacent(s: string)
    ensures NoAdjacentSpecials(DropSpecialRuns(s))
  {
    if s != [] {
      DropSpecialRunsLeavesNoAdjacent(s[1..]);
      if !(IsSpecial(s[0]) && |s| > 1 && IsSpecial(s[1])) {
        var t := DropSpecialRuns(s[1..]);
        var r := [s[0]] + t;
        assert r == DropSpecialRuns(s);
        forall i | 0 <= i < |r| - 1
          ensures !(IsSpecial(r[i]) && IsSpecial(r[i + 1]))
        {
          if i == 0 && IsSpecial(s[0]) {
            assert |s| > 1 && !IsSpecial(s[1]);
            assert r[1] == t[0] == s[1];
          } else if i > 0 {
            assert r[i] == t[i - 1] && r[i + 1] == t[i];
          }
        }
      }
    }
  }

  lemma NoAdjacentSpecialsSlice(s: string, lo: int, hi: int)
    requires 0 <= lo <= hi <= |s|
    requires NoAdjacentSpecials(s)
    ensures NoAdjacentSpecials(s[lo..hi])
  {
    forall i | 0 <= i < hi - lo - 1
      ensures !(IsSpecial(s[lo..hi][i]) && IsSpecial(s[lo..hi][i + 1]))
    {
      assert s[lo..hi][i] == s[lo + i] && s[lo..hi][i + 1] == s[lo + i + 1];
    }
  }

  lemma SuffixKeepsNoAdjacentSpecials(s: string, t: string)
    requires NoAdjacentSpecials(s)
    requires |t| <= |s| && t == s[|s| - |t|..]
    ensures NoAdjacentSpecials(t)
  {
    NoAdjacentSpecialsSlice(s, |s| - |t|, |s|);
    assert t == s[|s| - |t|..|s|];
  }

  lemma PrefixKeepsNoAdjacentSpecials(s: string, t: string)
    requires NoAdjacentSpecials(s)
    requires |t| <= |s| && t == s[..|t|]
    ensures NoAdjacentSpecials(t)
  {
    NoAdjacentSpecialsSlice(s, 0, |t|);
    assert t == s[0..|t|];
  }

  /** Stripping removes characters only at the ends, so it creates no adjacent specials. */
  lemma StripKeepsNoAdjacentSpecials(d: string)
    requires NoAdjacentSpecials(d)
    ensures NoAdjacentSpecials(Strip(d)) && |Strip(d)| <= |d|
  {
    var t := TrimStart(d);
    SuffixKeepsNoAdjacentSpecials(d, t);
    PrefixKeepsNoAdjacentSpecials(t, TrimEnd(t));
    assert Strip(d) == TrimEnd(t);
  }

  /** The placeholder is itself a cleaned text. */
  lemma PlaceholderIsClean()
    ensures |Placeholder| <= MaxLength && Stripped(Placeholder) && NoAdjacentSpecials(Placeholder)
  {
    assert forall i :: 0 <= i < |Placeholder| ==> !IsSpecial(Placeholder[i]);
  }

  /** `_clean_plan_details` for a `str` or `None` argument. */
  function CleanPlanDetails(details: Option<string>): (r: string)
    ensures details == None || details == Some("") ==> r == Placeholder
    ensures |r| <= MaxLength && Stripped(r) && NoAdjacentSpecials(r)
  {
    if details == None || details == Some("") then
      PlaceholderIsClean();
      Placeholder
    else
      var d := DropSpecialRuns(Truncate(details.value));
      DropSpecialRunsLeavesNoAdjacent(Truncate(details.value));
      StripKeepsNoAdjacentSpecials(d);
      Strip(d)
  }

  /** A string without adjacent specials is left alone by the substitution. */
  lemma {:induction false} DropSpecialRunsKeepsClean(s: string)
    requires NoAdjacentSpecials(s)
    ensures DropSpecialRuns(s) == s
  {
    if s != [] {
      NoAdjacentSpecialsSlice(s, 1, |s|);
      DropSpecialRunsKeepsClean(s[1..]);
      assert [s[0]] + s[1..] == s;
    }
  }

  /** Cleaning is idempotent on every non-empty output. */
  lemma CleanIdempotent(details: Option<string>)
    requires CleanPlanDetails(details) != ""
    ensures CleanPlanDetails(Some(CleanPlanDetails(details))) == CleanPlanDetails(details)
  {
    var c := CleanPlanDetails(details);
    assert Truncate(c) == c;
    DropSpecialRunsKeepsClean(c);
    StripKeepsStripped(c);
    assert CleanPlanDetails(Some(c)) == Strip(DropSpecialRuns(Truncate(c)));
  }

  /** The substitution leaves an all-whitespace result exactly when its input is all
      whitespace: it deletes only special characters, and never the last of a run. */
  lemma {:induction false} DropSpecialRunsAllSpace(s: string)
    ensures AllSpace(DropSpecialRuns(s)) <==> AllSpace(s)
  {
    if s != [] {
      DropSpecialRunsAllSpace(s[1..]);
      if IsSpecial(s[0]) && |s| > 1 && IsSpecial(s[1]) {
        assert !IsSpace(s[1..][0]);
      } else {
        var t := DropSpecialRuns(s[1..]);
        assert DropSpecialRuns(s) == [s[0]] + t;
        assert AllSpace([s[0]] + t) <==> IsSpace(s[0]) && AllSpace(t) by {
          assert ([s[0]] + t)[0] == s[0];
          assert forall j :: 0 <= j < |t| ==> ([s[0]] + t)[j + 1] == t[j];
        }
        assert AllSpace(s) <==> IsSpace(s[0]) && AllSpace(s[1..]) by {
          assert forall j :: 0 <= j < |s| - 1 ==> s[j + 1] == s[1..][j];
        }
      }
    }
  }

  /** Cleaning gives the empty string exactly for a non-empty input whose first 50
      characters are all whitespace (a blank text, or 50 spaces before anything else). */
  lemma CleansToEmptyIffBlankPrefix(s: string)
    ensures CleanPlanDetails(Some(s)) == "" <==> s != [] && AllSpace(Truncate(s))
  {
    if s != [] {
      var d := DropSpecialRuns(Truncate(s));
      DropSpecialRunsAllSpace(Truncate(s));
      StripEmptyIffAllSpace(d);
      assert CleanPlanDetails(Some(s)) == Strip(d);
    } else {
      assert |Placeholder| > 0;
    }
  }

  /** The exception to idempotence: the empty string cleaned from such an input is falsy,
      so cleaning again yields the placeholder. */
  lemma CleanNotIdempotentOnBlank(s: string)
    requires s != [] && AllSpace(Truncate(s))
    ensures CleanPlanDetails(Some(s)) == ""
    ensures CleanPlanDetails(Some(CleanPlanDetails(Some(s)))) == Placeholder
  {
    CleansToEmptyIffBlankPrefix(s);
  }

  /** Fifty spaces before any text hide that text entirely. */
  lemma SpacesBeforeTextCleanToEmpty(text: string)
    ensures CleanPlanDetails(Some(seq(MaxLength, _ => ' ') + text)) == ""
  {
    var s := seq(MaxLength, _ => ' ') + text;
    assert Truncate(s) == seq(MaxLength, _ => ' ');
    CleansToEmptyIffBlankPrefix(s);
  }

  /** A run made only of special characters collapses to its last character. */
  lemma {:induction false} SpecialRunCollapses(run: string)
    requires |run| > 0
    requires forall i :: 0 <= i < |run| ==> IsSpecial(run[i])
    ensures DropSpecialRuns(run) == [run[|run| - 1]]
  {
    if |run| > 1 {
      SpecialRunCollapses(run[1..]);
    }
  }

  /** The substitution works piecewise wherever the seam does not join two specials. */
  lemma {:induction false} DropSpecialRunsSplits(x: string, y: string)
    requires x == [] || y == [] || !IsSpecial(x[|x| - 1]) || !IsSpecial(y[0])
    ensures DropSpecialRuns(x + y) == DropSpecialRuns(x) + DropSpecialRuns(y)
  {
    if x == [] {
      assert x + y == y;
    } else {
      assert (x + y)[0] == x[0] && (x + y)[1..] == x[1..] + y;
      DropSpecialRunsSplits(x[1..], y);
      AppendAssociates([x[0]], DropSpecialRuns(x[1..]), DropSpecialRuns(y));
      if |x| == 1 {
        assert x[1..] + y == y;
        assert DropSpecialRuns(x) == [x[0]];
      } else {
        assert (x + y)[1] == x[1];
      }
    }
  }

  /** In every run of special characters only the LAST one survives: a run between two
      non-special neighbours (or the ends of the text) becomes its own last character. */
  lemma LastOfRunSurvives(before: string, run: string, after: string)
    requires |run| > 0
    requires forall i :: 0 <= i < |run| ==> IsSpecial(run[i])
    requires before == [] || !IsSpecial(before[|before| - 1])
    requires after == [] || !IsSpecial(after[0])
    ensures DropSpecialRuns(before + run + after)
         == DropSpecialRuns(before) + [run[|run| - 1]] + DropSpecialRuns(after)
  {
    SpecialRunCollapses(run);
    DropSpecialRunsSplits(run, after);
    DropSpecialRunsSplits(before, run + after);
    AppendAssociates(before, run, after);
    AppendAssociates(DropSpecialRuns(before), [run[|run| - 1]], DropSpecialRuns(after));
  }
}
