/** The string operations of Rust's `str` that the service relies on. */
module Text {
  // The Unicode White_Space property, which `str::trim` strips.
  predicate IsWhitespace(c: char) {
    var n := c as int;
    0x09 <= n <= 0x0D || n == 0x20 || n == 0x85 || n == 0xA0 || n == 0x1680 || 0x2000 <= n <= 0x200A
    || n == 0x2028 || n == 0x2029 || n == 0x202F || n == 0x205F || n == 0x3000
  }

  // The twenty-five characters that have it.
  lemma WhitespaceTable(c: char)
    ensures IsWhitespace(c) <==>
            c as int in {0x09, 0x0A, 0x0B, 0x0C, 0x0D, 0x20, 0x85, 0xA0, 0x1680,
                         0x2000, 0x2001, 0x2002, 0x2003, 0x2004, 0x2005, 0x2006, 0x2007, 0x2008, 0x2009, 0x200A,
                         0x2028, 0x2029, 0x202F, 0x205F, 0x3000}
  {
  }

  predicate Blank(s: string) {
    forall k :: 0 <= k < |s| ==> IsWhitespace(s[k])
  }

  // Neither end is whitespace.
  predicate Trimmed(s: string) {
    s != "" ==> !IsWhitespace(s[0]) && !IsWhitespace(s[|s| - 1])
  }

  function TrimStart(s: string): string {
    if s != "" && IsWhitespace(s[0]) then TrimStart(s[1..]) else s
  }

  function TrimEnd(s: string): string {
    if s != "" && IsWhitespace(s[|s| - 1]) then TrimEnd(s[..|s| - 1]) else s
  }

  function Trim(s: string): string {
    TrimEnd(TrimStart(s))
  }

  lemma {:induction false} TrimStartSplits(s: string) returns (pad: string)
    ensures Blank(pad) && s == pad + TrimStart(s)
    ensures TrimStart(s) != "" ==> !IsWhitespace(TrimStart(s)[0])
  {
    if s != "" && IsWhitespace(s[0]) {
      var rest := TrimStartSplits(s[1..]);
      pad := [s[0]] + rest;
    } else {
      pad := "";
    }
  }

  lemma {:induction false} TrimEndSplits(s: string) returns (pad: string)
    ensures Blank(pad) && s == TrimEnd(s) + pad
    ensures TrimEnd(s) != "" ==> !IsWhitespace(TrimEnd(s)[|TrimEnd(s)| - 1])
  {
    if s != "" && IsWhitespace(s[|s| - 1]) {
      var rest := TrimEndSplits(s[..|s| - 1]);
      pad := rest + [s[|s| - 1]];
    } else {
      pad := "";
    }
  }

  // Trimming removes blank text at both ends and nothing else, and what is left has no blank end.
  lemma TrimSplits(s: string) returns (left: string, right: string)
    ensures Blank(left) && Blank(right) && Trimmed(Trim(s))
    ensures s == left + Trim(s) + right
  {
    left := TrimStartSplits(s);
    right := TrimEndSplits(TrimStart(s));
  }

  lemma {:induction false} TrimStartPadded(left: string, s: string)
    requires Blank(left) && (s != "" ==> !IsWhitespace(s[0]))
    ensures TrimStart(left + s) == s
  {
    if left == "" {
      assert left + s == s;
    } else {
      assert (left + s)[1..] == left[1..] + s;
      TrimStartPadded(left[1..], s);
    }
  }

  lemma {:induction false} TrimEndPadded(s: string, right: string)
    requires Blank(right) && (s != "" ==> !IsWhitespace(s[|s| - 1]))
    ensures TrimEnd(s + right) == s
  {
    if right == "" {
      assert s + right == s;
    } else {
      var init := right[..|right| - 1];
      assert (s + right)[..|s + right| - 1] == s + init;
      TrimEndPadded(s, init);
    }
  }

  // The converse of TrimSplits: padding a trimmed string and trimming gives it back.
  lemma TrimPadded(left: string, s: string, right: string)
    requires Blank(left) && Blank(right) && Trimmed(s)
    ensures Trim(left + s + right) == s
  {
    if s == "" {
      assert left + s + right == (left + right) + "";
      TrimStartPadded(left + right, "");
    } else {
      assert left + s + right == left + (s + right);
      TrimStartPadded(left, s + right);
      TrimEndPadded(s, right);
    }
  }

  // `str::split(',')`: always at least one segment.
  function Split(s: string): (segments: seq<string>)
    ensures |segments| >= 1
  {
    if s == "" then [""]
    else if s[0] == ',' then [""] + Split(s[1..])
    else
      var rest := Split(s[1..]);
      [[s[0]] + rest[0]] + rest[1..]
  }

  function Join(segments: seq<string>): string {
    if segments == [] then ""
    else if |segments| == 1 then segments[0] else segments[0] + "," + Join(segments[1..])
  }

  predicate CommaFree(s: string) {
    ',' !in s
  }

  lemma {:induction false} SplitConcat(a: string, b: string)
    ensures Split(a + "," + b) == Split(a) + Split(b)
  {
    if a == "" {
      assert a + "," + b == "," + b;
    } else {
      assert (a + "," + b)[1..] == a[1..] + "," + b;
      SplitConcat(a[1..], b);
    }
  }

  lemma {:induction false} SplitCommaFree(s: string)
    requires CommaFree(s)
    ensures Split(s) == [s]
  {
    if s != "" {
      assert s == [s[0]] + s[1..];
      SplitCommaFree(s[1..]);
    }
  }

  lemma {:induction false} SplitSegmentsCommaFree(s: string)
    ensures forall k :: 0 <= k < |Split(s)| ==> CommaFree(Split(s)[k])
  {
    if s != "" {
      SplitSegmentsCommaFree(s[1..]);
    }
  }

  lemma {:induction false} SplitJoin(segments: seq<string>)
    requires forall k :: 0 <= k < |segments| ==> CommaFree(segments[k])
    ensures Split(Join(segments)) == if segments == [] then [""] else segments
  {
    if segments != [] {
      SplitCommaFree(segments[0]);
    }
    if |segments| > 1 {
      SplitJoin(segments[1..]);
      SplitConcat(segments[0], Join(segments[1..]));
    }
  }

  function AsciiLower(c: char): char {
    if 'A' <= c <= 'Z' then (c as int + 32) as char else c
  }

  function Lowercase(s: string): (t: string)
    ensures |t| == |s| && forall k :: 0 <= k < |s| ==> t[k] == AsciiLower(s[k])
  {
    seq(|s|, k requires 0 <= k < |s| => AsciiLower(s[k]))
  }

  // The same character, or the two cases of one ASCII letter.
  predicate SameLetter(c: char, d: char) {
    || c == d
    || ('A' <= c <= 'Z' && d as int - c as int == 'a' as int - 'A' as int)
    || ('A' <= d <= 'Z' && c as int - d as int == 'a' as int - 'A' as int)
  }

  // Equal up to the case of ASCII letters.
  predicate SameUpToCase(s: string, t: string) {
    |s| == |t| && forall k :: 0 <= k < |s| ==> SameLetter(s[k], t[k])
  }

  lemma SameLowercase(s: string, t: string)
    ensures SameUpToCase(s, t) <==> Lowercase(s) == Lowercase(t)
  {
    var a, b := Lowercase(s), Lowercase(t);
    forall k | 0 <= k < |s| && |s| == |t| ensures SameLetter(s[k], t[k]) <==> a[k] == b[k] {
    }
  }

  predicate Contains(s: string, part: string) {
    part <= s || (s != "" && Contains(s[1..], part))
  }

  lemma {:induction false} ContainsMeans(s: string, part: string)
    ensures Contains(s, part) <==> exists left, right :: s == left + part + right
  {
    if part <= s {
      assert s == "" + part + s[|part|..];
    } else if s != "" {
      ContainsMeans(s[1..], part);
      if Contains(s[1..], part) {
        var left, right :| s[1..] == left + part + right;
        assert s == ([s[0]] + left) + part + right;
      }
      forall left, right | s == left + part + right ensures Contains(s, part) {
        assert left != "";
        assert s[1..] == left[1..] + part + right;
      }
    } else {
      assert part != "";
    }
  }

  // Between `left` and `right`, the text has this word in some ASCII case.
  predicate WordAt(s: string, left: string, middle: string, right: string, word: string) {
    s == left + middle + right && SameUpToCase(middle, word)
  }

  ghost predicate Mentions(s: string, word: string) {
    exists left, middle, right :: WordAt(s, left, middle, right, word)
  }

  lemma LowercaseContains(s: string, word: string)
    requires Lowercase(word) == word
    ensures Contains(Lowercase(s), word) <==> Mentions(s, word)
  {
    var t := Lowercase(s);
    ContainsMeans(t, word);
    if Contains(t, word) {
      var l, r :| t == l + word + r;
      WordUnderLowercase(s, word, l, r);
    }
    if left, middle, right :| WordAt(s, left, middle, right, word) {
      SameLowercase(middle, word);
      LowercaseConcat(left, middle);
      LowercaseConcat(left + middle, right);
    }
  }

  lemma LowercaseConcat(a: string, b: string)
    ensures Lowercase(a + b) == Lowercase(a) + Lowercase(b)
  {
  }

  lemma WordUnderLowercase(s: string, word: string, l: string, r: string)
    requires Lowercase(word) == word && Lowercase(s) == l + word + r
    ensures Mentions(s, word)
  {
    var m := |l| + |word|;
    var middle := s[|l|..m];
    forall k | 0 <= k < |word| ensures AsciiLower(middle[k]) == word[k] {
      assert Lowercase(s)[|l| + k] == word[k];
    }
    assert Lowercase(middle) == word;
    SameLowercase(middle, word);
    assert s == s[..|l|] + middle + s[m..];
    assert WordAt(s, s[..|l|], middle, s[m..], word);
  }
}
