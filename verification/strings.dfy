/** String helpers shared by the naming, storage and artifact-registry models:
    Python's `str.split`, `re.split` on a character class, `str.join` and
    `str.find`, on strings as `seq<char>`. */
module Strings {

  /** No character of `s` is one of `seps`. */
  predicate NoneIn(s: string, seps: set<char>) {
    forall i :: 0 <= i < |s| ==> s[i] !in seps
  }

  /** Number of separator characters in `s`. */
  function CountIn(s: string, seps: set<char>): nat {
    if |s| == 0 then 0
    else (if s[0] in seps then 1 else 0) + CountIn(s[1..], seps)
  }

  /** The separator characters of `s`, in order. */
  function SeparatorsOf(s: string, seps: set<char>): (r: string)
    ensures |r| == CountIn(s, seps)
    ensures forall i :: 0 <= i < |r| ==> r[i] in seps
  {
    if |s| == 0 then ""
    else (if s[0] in seps then [s[0]] else "") + SeparatorsOf(s[1..], seps)
  }

  /** Splitting at every occurrence of any character of `seps`, keeping empty
      pieces: `re.split("/|:", s)`, or `s.split(c)` when `seps == {c}`. */
  function SplitOn(s: string, seps: set<char>): (pieces: seq<string>)
    ensures |pieces| == CountIn(s, seps) + 1
    ensures forall i :: 0 <= i < |pieces| ==> NoneIn(pieces[i], seps)
  {
    if |s| == 0 then [""]
    else
      var rest := SplitOn(s[1..], seps);
      if s[0] in seps then [""] + rest
      else [[s[0]] + rest[0]] + rest[1..]
  }

  /** `sep.join(pieces)`. */
  function Join(pieces: seq<string>, sep: char): string {
    if |pieces| == 0 then ""
    else if |pieces| == 1 then pieces[0]
    else pieces[0] + [sep] + Join(pieces[1..], sep)
  }

  /** Puts `seps[i]` between `pieces[i]` and `pieces[i + 1]`. */
  function Interleave(pieces: seq<string>, seps: string): string
    requires |pieces| == |seps| + 1
  {
    if |seps| == 0 then pieces[0]
    else pieces[0] + [seps[0]] + Interleave(pieces[1..], seps[1..])
  }

  /** `s.find(c)`: the first index of `c`, or -1 when there is none. */
  function Find(s: string, c: char): (i: int)
    ensures -1 <= i < |s|
    ensures i == -1 <==> c !in s
    ensures 0 <= i ==> s[i] == c && c !in s[..i]
  {
    if |s| == 0 then -1
    else if s[0] == c then 0
    else
      var k := Find(s[1..], c);
      if k == -1 then -1 else k + 1
  }

  /** A string without separators is a single piece. */
  lemma {:induction false} SplitOnNoSeparator(s: string, seps: set<char>)
    requires NoneIn(s, seps)
    ensures SplitOn(s, seps) == [s]
  {
    if |s| > 0 {
      SplitOnNoSeparator(s[1..], seps);
      assert [s[0]] + s[1..] == s;
    }
  }

  /** Splitting distributes over a separator: the pieces of `a + [c] + b` are
      the pieces of `a` followed by the pieces of `b`. */
  lemma {:induction false} SplitOnConcat(a: string, c: char, b: string, seps: set<char>)
    requires c in seps
    ensures SplitOn(a + [c] + b, seps) == SplitOn(a, seps) + SplitOn(b, seps)
  {
    var s := a + [c] + b;
    if |a| == 0 {
      assert s[1..] == b;
    } else {
      assert s[1..] == a[1..] + [c] + b;
      SplitOnConcat(a[1..], c, b, seps);
    }
  }

  /** Joining with `sep` undoes splitting on `sep`. */
  lemma {:induction false} JoinSplitOn(s: string, sep: char)
    ensures Join(SplitOn(s, {sep}), sep) == s
  {
    if |s| > 0 {
      var rest := SplitOn(s[1..], {sep});
      JoinSplitOn(s[1..], sep);
      if s[0] == sep {
        assert SplitOn(s, {sep}) == [""] + rest;
        assert ([""] + rest)[1..] == rest;
        assert s == [s[0]] + s[1..];
      } else if |rest| == 1 {
        assert s == [s[0]] + s[1..];
      } else {
        var pieces := [[s[0]] + rest[0]] + rest[1..];
        assert SplitOn(s, {sep}) == pieces;
        assert pieces[1..] == rest[1..];
        assert s == [s[0]] + s[1..];
      }
    }
  }

  /** Splitting on `sep` undoes joining with `sep`, when no piece contains it. */
  lemma {:induction false} SplitOnJoin(pieces: seq<string>, sep: char)
    requires |pieces| > 0
    requires forall i :: 0 <= i < |pieces| ==> NoneIn(pieces[i], {sep})
    ensures SplitOn(Join(pieces, sep), {sep}) == pieces
  {
    if |pieces| == 1 {
      SplitOnNoSeparator(pieces[0], {sep});
    } else {
      SplitOnJoin(pieces[1..], sep);
      SplitOnConcat(pieces[0], sep, Join(pieces[1..], sep), {sep});
      SplitOnNoSeparator(pieces[0], {sep});
      assert [pieces[0]] + pieces[1..] == pieces;
    }
  }

  /** Putting the separators back between the pieces restores the input. */
  lemma {:induction false} InterleaveSplitOn(s: string, seps: set<char>)
    ensures Interleave(SplitOn(s, seps), SeparatorsOf(s, seps)) == s
  {
    if |s| > 0 {
      var rest := SplitOn(s[1..], seps);
      var restSeps := SeparatorsOf(s[1..], seps);
      InterleaveSplitOn(s[1..], seps);
      assert s == [s[0]] + s[1..];
      if s[0] in seps {
        assert SeparatorsOf(s, seps) == [s[0]] + restSeps;
        assert ([""] + rest)[1..] == rest;
        assert ([s[0]] + restSeps)[1..] == restSeps;
      } else if |restSeps| == 0 {
        assert SeparatorsOf(s, seps) == restSeps;
      } else {
        var pieces := [[s[0]] + rest[0]] + rest[1..];
        assert SeparatorsOf(s, seps) == restSeps;
        assert pieces[1..] == rest[1..];
      }
    }
  }

  /** The first piece is a prefix of the input, ending at the input's end or
      at a separator. */
  lemma {:induction false} SplitOnFirstPiece(s: string, seps: set<char>)
    ensures SplitOn(s, seps)[0] <= s
    ensures var f := SplitOn(s, seps)[0]; |f| == |s| || s[|f|] in seps
  {
    if |s| > 0 {
      SplitOnFirstPiece(s[1..], seps);
    }
  }
}
