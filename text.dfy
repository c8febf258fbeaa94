/**
 * The string operations the stop search relies on, over ASCII: `str.lower`,
 * `str.upper`, `str.strip`, `" ".join`, `str.endswith` and the substring
 * test `in`. Characters outside ASCII are left as they are by the case
 * mappings, and only ASCII whitespace is stripped.
 */
module Text {

  predicate IsUpperAscii(c: char)
  {
    'A' <= c <= 'Z'
  }

  predicate IsLowerAscii(c: char)
  {
    'a' <= c <= 'z'
  }

  /** The characters `str.isspace` accepts below 128: tab to carriage return, the four separators, and space. */
  predicate IsSpace(c: char)
  {
    9 <= c as int <= 13 || 28 <= c as int <= 32
  }

  function LowerChar(c: char): (d: char)
    ensures !IsUpperAscii(d)
    ensures IsLowerAscii(c) || IsUpperAscii(c) ==> IsLowerAscii(d)
    ensures !IsUpperAscii(c) ==> d == c
  {
    if IsUpperAscii(c) then (c as int + 32) as char else c
  }

  function UpperChar(c: char): (d: char)
    ensures !IsLowerAscii(d)
    ensures IsLowerAscii(c) || IsUpperAscii(c) ==> IsUpperAscii(d)
    ensures !IsLowerAscii(c) ==> d == c
  {
    if IsLowerAscii(c) then (c as int - 32) as char else c
  }

  /** `s.lower()`: the same length, every letter in lower case, nothing else changed. */
  function Lower(s: string): (r: string)
    ensures |r| == |s|
    ensures forall i :: 0 <= i < |s| ==> r[i] == LowerChar(s[i])
  {
    seq(|s|, i requires 0 <= i < |s| => LowerChar(s[i]))
  }

  /** `s.upper()`: the same length, every letter in upper case, nothing else changed. */
  function Upper(s: string): (r: string)
    ensures |r| == |s|
    ensures forall i :: 0 <= i < |s| ==> r[i] == UpperChar(s[i])
  {
    seq(|s|, i requires 0 <= i < |s| => UpperChar(s[i]))
  }

  /** A lower-cased string has no upper-case letter, and lower-casing it again changes nothing. */
  lemma LowerIsLower(s: string)
    ensures forall i :: 0 <= i < |Lower(s)| ==> !IsUpperAscii(Lower(s)[i])
    ensures Lower(Lower(s)) == Lower(s)
  {
  }

  /** An upper-cased string has no lower-case letter, and upper-casing it again changes nothing. */
  lemma UpperIsUpper(s: string)
    ensures forall i :: 0 <= i < |Upper(s)| ==> !IsLowerAscii(Upper(s)[i])
    ensures Upper(Upper(s)) == Upper(s)
  {
  }

  /** Case mappings forget the case they started from: two spellings that differ in case lower (and upper) alike. */
  lemma CaseInsensitive(s: string)
    ensures Lower(Upper(s)) == Lower(s)
    ensures Upper(Lower(s)) == Upper(s)
  {
    assert forall i :: 0 <= i < |s| ==> Lower(Upper(s))[i] == Lower(s)[i];
    assert forall i :: 0 <= i < |s| ==> Upper(Lower(s))[i] == Upper(s)[i];
  }

  /** How many whitespace characters `s` starts with. */
  function LeadingSpaces(s: string): (n: nat)
    ensures n <= |s|
    ensures forall i :: 0 <= i < n ==> IsSpace(s[i])
    ensures n == |s| || !IsSpace(s[n])
  {
    if s != [] && IsSpace(s[0]) then 1 + LeadingSpaces(s[1..]) else 0
  }

  /** How many whitespace characters `s` ends with. */
  function TrailingSpaces(s: string): (n: nat)
    ensures n <= |s|
    ensures forall i :: |s| - n <= i < |s| ==> IsSpace(s[i])
    ensures n == |s| || !IsSpace(s[|s| - n - 1])
  {
    if s != [] && IsSpace(s[|s| - 1]) then 1 + TrailingSpaces(s[..|s| - 1]) else 0
  }

  /** `s.strip()`: what lies between the leading and the trailing whitespace; it neither starts nor ends with whitespace. */
  function Strip(s: string): (r: string)
    ensures |r| <= |s|
    ensures r == [] || (!IsSpace(r[0]) && !IsSpace(r[|r| - 1]))
  {
    var rest := s[LeadingSpaces(s)..];
    rest[..|rest| - TrailingSpaces(rest)]
  }

  /** What `strip` keeps is a slice of its input, and only whitespace lies around that slice. */
  lemma StripSlice(s: string)
    ensures var a := LeadingSpaces(s); a + |Strip(s)| <= |s| && Strip(s) == s[a..a + |Strip(s)|]
    ensures forall i :: 0 <= i < LeadingSpaces(s) ==> IsSpace(s[i])
    ensures forall i :: LeadingSpaces(s) + |Strip(s)| <= i < |s| ==> IsSpace(s[i])
  {
    var a := LeadingSpaces(s);
    var rest := s[a..];
    var r := Strip(s);
    assert rest[..|r|] == s[a..a + |r|];
    forall i | a + |r| <= i < |s| ensures IsSpace(s[i]) {
      assert s[i] == rest[i - a];
    }
  }

  /** A string that neither starts nor ends with whitespace is its own strip. */
  lemma StripUnpadded(s: string)
    requires s != [] && !IsSpace(s[0]) && !IsSpace(s[|s| - 1])
    ensures Strip(s) == s
  {
    assert LeadingSpaces(s) == 0;
    assert s[0..] == s;
    assert TrailingSpaces(s) == 0;
  }

  /** Stripping a stripped string changes nothing. */
  lemma StripIdempotent(s: string)
    ensures Strip(Strip(s)) == Strip(s)
  {
    var r := Strip(s);
    if r != [] {
      assert LeadingSpaces(r) == 0;
      assert r[0..] == r;
      assert TrailingSpaces(r) == 0;
    }
  }

  /** Stripping keeps every character it keeps: a string with no upper-case letter gives a stripped one with none. */
  lemma StripNoUpper(t: string)
    requires forall i :: 0 <= i < |t| ==> !IsUpperAscii(t[i])
    ensures forall i :: 0 <= i < |Strip(t)| ==> !IsUpperAscii(Strip(t)[i])
  {
    StripSlice(t);
    var a := LeadingSpaces(t);
    var r := Strip(t);
    forall i | 0 <= i < |r| ensures !IsUpperAscii(r[i]) {
      assert r[i] == t[a + i];
    }
  }

  /** `" ".join(words)`: the words in order, with one space between neighbours. */
  function Join(words: seq<string>): (r: string)
    ensures words == [] ==> r == []
    ensures |words| == 1 ==> r == words[0]
    ensures |words| >= 1 ==> |r| == Total(words) + |words| - 1
  {
    if words == [] then []
    else if |words| == 1 then words[0]
    else Join(words[..|words| - 1]) + " " + words[|words| - 1]
  }

  /** The number of characters in all the words together. */
  function Total(words: seq<string>): nat
  {
    if words == [] then 0 else Total(words[..|words| - 1]) + |words[|words| - 1]|
  }

  /** Adding a word adds a space and the word. */
  lemma JoinSnoc(words: seq<string>, w: string)
    requires words != []
    ensures Join(words + [w]) == Join(words) + " " + w
  {
    assert (words + [w])[..|words|] == words;
  }

  /** `s.endswith(suffix)`. */
  predicate EndsWith(s: string, suffix: string)
  {
    |suffix| <= |s| && s[|s| - |suffix|..] == suffix
  }

  /** `s.endswith(suffix)` holds exactly when `s` is some prefix followed by `suffix`. */
  lemma EndsWithIff(s: string, suffix: string)
    ensures EndsWith(s, suffix) <==> exists p :: s == p + suffix
  {
    if EndsWith(s, suffix) {
      var p := s[..|s| - |suffix|];
      assert s == p + suffix;
    }
    if exists p :: s == p + suffix {
      var p :| s == p + suffix;
      assert s[|p|..] == suffix;
    }
  }

  /** A one-character suffix is the last character. */
  lemma EndsWithChar(s: string, c: char)
    ensures EndsWith(s, [c]) <==> s != [] && s[|s| - 1] == c
  {
    if s != [] && s[|s| - 1] == c {
      assert s[|s| - 1..] == [c];
    }
  }

  /** `needle` occurs in `haystack` starting at index i. */
  ghost predicate OccursAt(needle: string, haystack: string, i: int)
  {
    0 <= i && i + |needle| <= |haystack| && haystack[i..i + |needle|] == needle
  }

  /** `needle in haystack`, scanning the start positions from the left. */
  function Contains(needle: string, haystack: string): (r: bool)
    ensures needle == [] ==> r
    ensures r ==> |needle| <= |haystack|
    decreases |haystack|
  {
    if |needle| > |haystack| then false
    else if haystack[..|needle|] == needle then true
    else Contains(needle, haystack[1..])
  }

  /** A needle whose first character the haystack never holds does not occur in it. */
  lemma {:induction false} ContainsFirstChar(needle: string, haystack: string)
    requires needle != []
    requires forall i :: 0 <= i < |haystack| ==> haystack[i] != needle[0]
    ensures !Contains(needle, haystack)
    decreases |haystack|
  {
    if |needle| <= |haystack| {
      assert haystack[..|needle|][0] == haystack[0];
      ContainsFirstChar(needle, haystack[1..]);
    }
  }

  /** The scan answers the substring question exactly: true when and only when some start position holds the needle. */
  lemma {:induction false} ContainsIff(needle: string, haystack: string)
    ensures Contains(needle, haystack) <==> exists i :: OccursAt(needle, haystack, i)
    decreases |haystack|
  {
    if |needle| > |haystack| {
      assert forall i :: !OccursAt(needle, haystack, i);
    } else if haystack[..|needle|] == needle {
      assert OccursAt(needle, haystack, 0);
    } else {
      var rest := haystack[1..];
      ContainsIff(needle, rest);
      if exists i :: OccursAt(needle, rest, i) {
        var i :| OccursAt(needle, rest, i);
        assert rest[i..i + |needle|] == haystack[i + 1..i + 1 + |needle|];
        assert OccursAt(needle, haystack, i + 1);
      }
      if exists i :: OccursAt(needle, haystack, i) {
        var i :| OccursAt(needle, haystack, i);
        assert i != 0;
        assert rest[i - 1..i - 1 + |needle|] == haystack[i..i + |needle|];
        assert OccursAt(needle, rest, i - 1);
      }
    }
  }
}
