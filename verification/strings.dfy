/**
 The string operations the server relies on: `toLowerCase()` and
 `split(sep).pop()` on object keys, and the line structure of a text whose
 lines each end in a newline.
 */
module Strings {

  /** Lower-cases an ASCII capital; every other character is kept. */
  function LowerChar(c: char): char {
    if 'A' <= c <= 'Z' then (c as int - 'A' as int + 'a' as int) as char else c
  }

  /** No ASCII capital occurs in `s`. */
  predicate IsLower(s: string) {
    forall i :: 0 <= i < |s| ==> !('A' <= s[i] <= 'Z')
  }

  /** `s.toLowerCase()` on the ASCII letters. */
  function Lower(s: string): string {
    seq(|s|, i requires 0 <= i < |s| => LowerChar(s[i]))
  }

  /**
   Lower-casing keeps the length, maps each character on its own, leaves no
   capital, and changes nothing in a string that has none.
   */
  lemma LowerFacts(s: string)
    ensures |Lower(s)| == |s|
    ensures forall i :: 0 <= i < |s| ==> Lower(s)[i] == LowerChar(s[i])
    ensures IsLower(Lower(s))
    ensures IsLower(s) ==> Lower(s) == s
  {
  }

  /** Lower-casing is idempotent. */
  lemma LowerIdempotent(s: string)
    ensures Lower(Lower(s)) == Lower(s)
  {
    LowerFacts(s);
    LowerFacts(Lower(s));
  }

  /** Lower-casing never creates or removes a character that is not a letter. */
  lemma LowerKeepsNonLetters(s: string, c: char)
    requires !('A' <= c <= 'Z') && !('a' <= c <= 'z')
    ensures c in Lower(s) <==> c in s
  {
    LowerFacts(s);
    if c in s {
      var i :| 0 <= i < |s| && s[i] == c;
      assert Lower(s)[i] == c;
    }
    if c in Lower(s) {
      var i :| 0 <= i < |s| && Lower(s)[i] == c;
      assert s[i] == c;
    }
  }

  /** `s.split([sep]).pop()`: the text after the last `sep`, or all of `s` when `sep` does not occur. */
  function LastSegment(s: string, sep: char): string
    decreases |s|
  {
    if |s| == 0 then ""
    else if s[|s| - 1] == sep then ""
    else LastSegment(s[..|s| - 1], sep) + [s[|s| - 1]]
  }

  /** The last segment is a suffix of `s`. */
  lemma {:induction false} LastSegmentSuffix(s: string, sep: char)
    ensures |LastSegment(s, sep)| <= |s| && LastSegment(s, sep) == s[|s| - |LastSegment(s, sep)|..]
    decreases |s|
  {
    if |s| > 0 && s[|s| - 1] != sep {
      var s' := s[..|s| - 1];
      LastSegmentSuffix(s', sep);
      var r' := LastSegment(s', sep);
      assert s[|s| - |r'| - 1..] == s'[|s'| - |r'|..] + [s[|s| - 1]];
    }
  }

  /** The last segment is all of `s` or follows a `sep`. */
  lemma {:induction false} LastSegmentFollowsSeparator(s: string, sep: char)
    ensures |LastSegment(s, sep)| == |s| || (|LastSegment(s, sep)| < |s| && s[|s| - |LastSegment(s, sep)| - 1] == sep)
    decreases |s|
  {
    if |s| > 0 && s[|s| - 1] != sep {
      var s' := s[..|s| - 1];
      LastSegmentFollowsSeparator(s', sep);
      var r' := LastSegment(s', sep);
      if |r'| < |s'| {
        assert s[|s'| - |r'| - 1] == s'[|s'| - |r'| - 1];
      }
    }
  }

  /** The last segment does not contain `sep`. */
  lemma {:induction false} LastSegmentFree(s: string, sep: char)
    ensures sep !in LastSegment(s, sep)
    decreases |s|
  {
    if |s| > 0 && s[|s| - 1] != sep {
      var s', c := s[..|s| - 1], s[|s| - 1];
      LastSegmentFree(s', sep);
      var r', r := LastSegment(s', sep), LastSegment(s, sep);
      assert r == r' + [c];
      assert forall x :: x in r <==> x in r' || x == c;
    }
  }

  /**
   The last segment is the longest suffix of `s` free of `sep`: it is all of
   `s` or follows a `sep`, and it is empty exactly when `s` is empty or ends
   in `sep`.
   */
  lemma {:induction false} LastSegmentShape(s: string, sep: char)
    ensures |LastSegment(s, sep)| <= |s| && LastSegment(s, sep) == s[|s| - |LastSegment(s, sep)|..]
    ensures sep !in LastSegment(s, sep)
    ensures |LastSegment(s, sep)| == |s| || s[|s| - |LastSegment(s, sep)| - 1] == sep
    ensures LastSegment(s, sep) == "" <==> |s| == 0 || s[|s| - 1] == sep
  {
    LastSegmentSuffix(s, sep);
    LastSegmentFollowsSeparator(s, sep);
    LastSegmentFree(s, sep);
  }

  /**
   The first three properties of `LastSegmentShape` determine the last
   segment: any suffix free of `sep` that is all of `s` or follows a `sep` is it.
   */
  lemma {:induction false} LastSegmentUnique(s: string, sep: char, t: string)
    requires |t| <= |s| && t == s[|s| - |t|..]
    requires sep !in t
    requires |t| == |s| || s[|s| - |t| - 1] == sep
    ensures t == LastSegment(s, sep)
    decreases |s|
  {
    if |s| > 0 && s[|s| - 1] != sep {
      var s', t' := s[..|s| - 1], t[..|t| - 1];
      assert t' == s'[|s'| - |t'|..];
      LastSegmentUnique(s', sep, t');
      assert t == t' + [s[|s| - 1]];
    }
  }

  /** Without a separator, the last segment is the whole string. */
  lemma LastSegmentWithoutSeparator(s: string, sep: char)
    requires sep !in s
    ensures LastSegment(s, sep) == s
  {
    LastSegmentUnique(s, sep, s);
  }

  /**
   A reference for the line structure of the `.env` text: the pieces between
   newlines, so a text ending in a newline ends in an empty piece.
   */
  function SplitLines(s: string): (r: seq<string>)
    ensures |r| >= 1
  {
    if |s| == 0 then [""]
    else if s[0] == '\n' then [""] + SplitLines(s[1..])
    else
      var rest := SplitLines(s[1..]);
      [[s[0]] + rest[0]] + rest[1..]
  }

  /** The text made of `lines`, each followed by a newline. */
  function Terminated(lines: seq<string>): string {
    if |lines| == 0 then "" else lines[0] + "\n" + Terminated(lines[1..])
  }

  /** A line without a newline, followed by one, is the first piece of the split. */
  lemma {:induction false} SplitAfterLine(line: string, rest: string)
    requires '\n' !in line
    ensures SplitLines(line + "\n" + rest) == [line] + SplitLines(rest)
    decreases |line|
  {
    if |line| == 0 {
      assert line + "\n" + rest == "\n" + rest;
      assert ("\n" + rest)[1..] == rest;
    } else {
      var t := line + "\n" + rest;
      assert t[1..] == line[1..] + "\n" + rest;
      SplitAfterLine(line[1..], rest);
      assert [t[0]] + line[1..] == line;
    }
  }

  /**
   Splitting a text of newline-terminated lines, none holding a newline,
   gives the lines back, followed by the empty piece after the last newline.
   */
  lemma {:induction false} SplitTerminated(lines: seq<string>)
    requires forall i :: 0 <= i < |lines| ==> '\n' !in lines[i]
    ensures SplitLines(Terminated(lines)) == lines + [""]
  {
    if |lines| > 0 {
      SplitAfterLine(lines[0], Terminated(lines[1..]));
      SplitTerminated(lines[1..]);
      assert lines == [lines[0]] + lines[1..];
    }
  }
}
