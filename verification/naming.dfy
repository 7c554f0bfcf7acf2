/** Batch job names built by `run_experiment` (scheduler/scheduler.py): each
    part is lower-cased and stripped to `[a-z0-9]` (`_remove_nonascii`), and
    the parts are joined with `-`. */
module Naming {
  import opened Strings

  /** A character the sanitiser keeps: `string.ascii_lowercase + string.digits`. */
  predicate IsIdentifierChar(c: char) {
    'a' <= c <= 'z' || '0' <= c <= '9'
  }

  predicate IsIdentifier(s: string) {
    forall i :: 0 <= i < |s| ==> IsIdentifierChar(s[i])
  }

  predicate IsAsciiLetterOrDigit(c: char) {
    'a' <= c <= 'z' || 'A' <= c <= 'Z' || '0' <= c <= '9'
  }

  /** `str.lower` on one ASCII character; other characters are left alone. */
  function LowerAscii(c: char): char {
    if 'A' <= c <= 'Z' then (c as int + 32) as char else c
  }

  /** What the sanitiser makes of one input character. */
  function Kept(c: char): string {
    var l := LowerAscii(c);
    if IsIdentifierChar(l) then [l] else ""
  }

  /** Reference definition of `_remove_nonascii`: every character is lowered
      and kept only if it is in `[a-z0-9]`. */
  function Sanitize(text: string): (r: string)
    ensures IsIdentifier(r)
    ensures |r| <= |text|
  {
    if |text| == 0 then "" else Kept(text[0]) + Sanitize(text[1..])
  }

  /** An ASCII letter or digit survives, lower-cased; anything else is dropped. */
  lemma {:induction false} KeptLetterOrDigit(c: char)
    ensures IsAsciiLetterOrDigit(c) ==> Kept(c) == [LowerAscii(c)]
    ensures !IsAsciiLetterOrDigit(c) ==> Kept(c) == ""
    ensures 'A' <= c <= 'Z' ==> 'a' <= LowerAscii(c) <= 'z'
  {
  }

  /** The sanitiser works character by character. */
  lemma {:induction false} SanitizeAppend(a: string, b: string)
    ensures Sanitize(a + b) == Sanitize(a) + Sanitize(b)
  {
    if |a| == 0 {
      assert a + b == b;
    } else {
      assert (a + b)[1..] == a[1..] + b;
      SanitizeAppend(a[1..], b);
    }
  }

  /** Every ASCII letter and digit of the input is kept, lower-cased, in its
      place relative to the others; every other character is dropped. */
  lemma {:induction false} SanitizeAt(text: string, i: int)
    requires 0 <= i < |text|
    ensures Sanitize(text) == Sanitize(text[..i]) + Kept(text[i]) + Sanitize(text[i + 1..])
  {
    var before, c, after := text[..i], text[i], text[i + 1..];
    assert text == before + ([c] + after);
    calc {
      Sanitize(text);
    == { SanitizeAppend(before, [c] + after); }
      Sanitize(before) + Sanitize([c] + after);
    == { SanitizeAppend([c], after); SanitizeSingle(c); }
      Sanitize(before) + (Kept(c) + Sanitize(after));
    }
  }

  lemma {:induction false} SanitizeSingle(c: char)
    ensures Sanitize([c]) == Kept(c)
  {
    assert [c][1..] == "";
  }

  /** A legal identifier is its own sanitisation. */
  lemma {:induction false} SanitizeIdentifier(s: string)
    requires IsIdentifier(s)
    ensures Sanitize(s) == s
  {
    if |s| > 0 {
      SanitizeIdentifier(s[1..]);
      assert s == [s[0]] + s[1..];
    }
  }

  /** Sanitising twice is sanitising once. */
  lemma {:induction false} SanitizeIdempotent(text: string)
    ensures Sanitize(Sanitize(text)) == Sanitize(text)
  {
    SanitizeIdentifier(Sanitize(text));
  }

  /** `_remove_nonascii(text)`: lower-case, then keep the characters in
      `ascii_lowercase + digits`, in order. */
  method RemoveNonAscii(text: string) returns (r: string)
    ensures r == Sanitize(text)
    ensures IsIdentifier(r)
  {
    r := "";
    var i := 0;
    while i < |text|
      invariant 0 <= i <= |text|
      invariant r == Sanitize(text[..i])
    {
      var letter := LowerAscii(text[i]);
      if IsIdentifierChar(letter) {
        r := r + [letter];
      }
      SanitizeAppend(text[..i], [text[i]]);
      SanitizeSingle(text[i]);
      assert text[..i + 1] == text[..i] + [text[i]];
      i := i + 1;
    }
    assert text[..i] == text;
  }

  /** The job name `"-".join(_remove_nonascii(p) for p in parts)` for an
      experiment, a scenario and a random suffix. Splitting it at `-` gives
      back the three sanitised parts, so it holds exactly two dashes. */
  function JobName(experimentName: string, scenarioName: string, randomId: string): (name: string)
    ensures SplitOn(name, {'-'}) == [Sanitize(experimentName), Sanitize(scenarioName), Sanitize(randomId)]
    ensures CountIn(name, {'-'}) == 2
    ensures forall i :: 0 <= i < |name| ==> IsIdentifierChar(name[i]) || name[i] == '-'
  {
    var parts := [Sanitize(experimentName), Sanitize(scenarioName), Sanitize(randomId)];
    assert forall k :: 0 <= k < |parts| ==> NoneIn(parts[k], {'-'});
    SplitOnJoin(parts, '-');
    JoinThree(parts, '-');
    Join(parts, '-')
  }

  lemma {:induction false} JoinThree(parts: seq<string>, sep: char)
    requires |parts| == 3
    ensures Join(parts, sep) == parts[0] + [sep] + parts[1] + [sep] + parts[2]
  {
    assert parts[1..] == [parts[1], parts[2]];
    assert parts[1..][1..] == [parts[2]];
    assert Join(parts[1..], sep) == parts[1] + [sep] + parts[2];
    assert Join(parts, sep) == parts[0] + [sep] + (parts[1] + [sep] + parts[2]);
  }

  /** The experiment "trial-1" with scenario "fast" gets a job name starting
      with "trial1-fast-". */
  lemma {:induction false} JobNameExample(experimentName: string, scenarioName: string, randomId: string)
    requires experimentName == "trial-1" && scenarioName == "fast"
    ensures "trial1-fast-" <= JobName(experimentName, scenarioName, randomId)
  {
    var before, after := "trial", "1";
    assert experimentName == before + ['-'] + after;
    SanitizeDropsSeparator(before, '-', after);
    SanitizeIdentifier(scenarioName);
    JobNameStartsWith(experimentName, scenarioName, randomId, before + after, scenarioName);
  }

  /** A job name starts with its sanitised experiment and scenario names,
      each followed by a dash. */
  lemma {:induction false} JobNameStartsWith(
    experimentName: string, scenarioName: string, randomId: string,
    experimentPart: string, scenarioPart: string)
    requires Sanitize(experimentName) == experimentPart
    requires Sanitize(scenarioName) == scenarioPart
    ensures experimentPart + "-" + scenarioPart + "-" <= JobName(experimentName, scenarioName, randomId)
  {
    JobNameLayout(experimentName, scenarioName, randomId);
  }

  /** The job name is the sanitised experiment name, a dash, the sanitised
      scenario name, a dash, and the sanitised suffix. */
  lemma {:induction false} JobNameLayout(experimentName: string, scenarioName: string, randomId: string)
    ensures JobName(experimentName, scenarioName, randomId)
      == Sanitize(experimentName) + "-" + Sanitize(scenarioName) + "-" + Sanitize(randomId)
  {
    JoinThree([Sanitize(experimentName), Sanitize(scenarioName), Sanitize(randomId)], '-');
  }

  /** A character other than an ASCII letter or digit between two
      identifiers vanishes: "trial-1" becomes "trial1". */
  lemma {:induction false} SanitizeDropsSeparator(before: string, c: char, after: string)
    requires IsIdentifier(before) && IsIdentifier(after) && !IsAsciiLetterOrDigit(c)
    ensures Sanitize(before + [c] + after) == before + after
  {
    calc {
      Sanitize(before + [c] + after);
    == { SanitizeAppend(before + [c], after); }
      Sanitize(before + [c]) + Sanitize(after);
    == { SanitizeAppend(before, [c]); }
      Sanitize(before) + Sanitize([c]) + Sanitize(after);
    == { SanitizeSingle(c); KeptLetterOrDigit(c); }
      Sanitize(before) + Sanitize(after);
    == { SanitizeIdentifier(before); SanitizeIdentifier(after); }
      before + after;
    }
  }

}
