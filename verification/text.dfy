/** The three string operations of Go's `strings` package that the
    advertisement handler relies on: `ToLower` (registry keys and address
    lookup), `ReplaceAll` (topic templates and the colon-free MAC segment)
    and `Title` (the state payload label). Case mapping is modelled for
    ASCII letters only. */
module Text {

  predicate IsUpper(c: char) { 'A' <= c <= 'Z' }

  predicate IsLower(c: char) { 'a' <= c <= 'z' }

  /** ASCII lower-casing of one character; every other character is kept. */
  function LowerChar(c: char): (d: char)
    ensures !IsUpper(d)
    ensures IsUpper(c) ==> IsLower(d) && d as int - c as int == 32
    ensures !IsUpper(c) ==> d == c
  {
    if IsUpper(c) then (c as int + 32) as char else c
  }

  /** ASCII upper-casing of one character (Go's `unicode.ToTitle` on ASCII). */
  function UpperChar(c: char): (d: char)
    ensures !IsLower(d)
    ensures IsLower(c) ==> IsUpper(d) && c as int - d as int == 32
    ensures !IsLower(c) ==> d == c
  {
    if IsLower(c) then (c as int - 32) as char else c
  }

  /** `strings.ToLower`, character by character. */
  function ToLower(s: string): (r: string)
    ensures |r| == |s|
    ensures forall i :: 0 <= i < |s| ==> r[i] == LowerChar(s[i])
  {
    seq(|s|, i requires 0 <= i < |s| => LowerChar(s[i]))
  }

  /** A lower-cased string has no upper-case letter left, so lower-casing
      it again changes nothing: a registry key is its own lookup key. */
  lemma ToLowerIdempotent(s: string)
    ensures forall i :: 0 <= i < |s| ==> !IsUpper(ToLower(s)[i])
    ensures ToLower(ToLower(s)) == ToLower(s)
  {
  }

  /** `pat` occurs in `s` starting at position `i`. */
  predicate OccursAt(s: string, pat: string, i: nat)
  {
    i + |pat| <= |s| && s[i..i + |pat|] == pat
  }

  predicate Occurs(s: string, pat: string)
  {
    exists i :: 0 <= i < |s| && OccursAt(s, pat, i)
  }

  /** `strings.ReplaceAll` for a non-empty pattern: scanning left to right,
      every non-overlapping occurrence of `pat` is replaced by `rep`, and
      the scan resumes after the replaced occurrence (the replacement text
      itself is never rescanned). */
  function ReplaceAll(s: string, pat: string, rep: string): (r: string)
    requires |pat| > 0
    decreases |s|
  {
    if |s| < |pat| then s
    else if s[..|pat|] == pat then rep + ReplaceAll(s[|pat|..], pat, rep)
    else [s[0]] + ReplaceAll(s[1..], pat, rep)
  }

  /** A string in which the pattern never occurs is returned unchanged. */
  lemma {:induction false} ReplaceAllNoOccurrence(s: string, pat: string, rep: string)
    requires |pat| > 0
    requires !Occurs(s, pat)
    ensures ReplaceAll(s, pat, rep) == s
    decreases |s|
  {
    if |s| >= |pat| {
      assert !OccursAt(s, pat, 0);
      assert s[..|pat|] != pat;
      forall i | 0 <= i < |s[1..]| && OccursAt(s[1..], pat, i)
        ensures false
      {
        assert s[1..][i..i + |pat|] == s[i + 1..i + 1 + |pat|];
        assert OccursAt(s, pat, i + 1);
      }
      ReplaceAllNoOccurrence(s[1..], pat, rep);
      assert [s[0]] + s[1..] == s;
    }
  }

  /** A prefix that does not contain the pattern's first character cannot
      host the start of an occurrence, so it is copied through verbatim. */
  lemma {:induction false} ReplaceAllCopiesPrefix(a: string, b: string, pat: string, rep: string)
    requires |pat| > 0
    requires pat[0] !in a
    ensures ReplaceAll(a + b, pat, rep) == a + ReplaceAll(b, pat, rep)
    decreases |a|
  {
    if |a| > 0 {
      var s := a + b;
      if |s| >= |pat| {
        assert s[..|pat|][0] == a[0] != pat[0];
      }
      assert s[1..] == a[1..] + b;
      ReplaceAllCopiesPrefix(a[1..], b, pat, rep);
      assert [a[0]] + a[1..] == a;
    } else {
      assert a + b == b;
    }
  }

  /** A string without the pattern's first character is left unchanged. */
  lemma ReplaceAllWithoutFirstChar(s: string, pat: string, rep: string)
    requires |pat| > 0
    requires pat[0] !in s
    ensures ReplaceAll(s, pat, rep) == s
  {
    ReplaceAllCopiesPrefix(s, [], pat, rep);
    assert s + [] == s;
  }

  /** An occurrence of the pattern at the front is replaced. */
  lemma ReplaceAllLeadingMatch(b: string, pat: string, rep: string)
    requires |pat| > 0
    ensures ReplaceAll(pat + b, pat, rep) == rep + ReplaceAll(b, pat, rep)
  {
    var s := pat + b;
    assert s[..|pat|] == pat;
    assert s[|pat|..] == b;
  }

  /** `s` with every `c` deleted and the other characters kept in order. */
  function Strip(s: string, c: char): (r: string)
    ensures c !in r
    ensures |r| <= |s|
    ensures c !in s ==> r == s
  {
    if |s| == 0 then []
    else if s[0] == c then Strip(s[1..], c)
    else [s[0]] + Strip(s[1..], c)
  }

  /** Replacing a one-character pattern by the empty string deletes that
      character and keeps everything else in order. */
  lemma {:induction false} ReplaceAllDeletesChar(s: string, c: char)
    ensures ReplaceAll(s, [c], "") == Strip(s, c)
    decreases |s|
  {
    if |s| > 0 {
      ReplaceAllDeletesChar(s[1..], c);
      if s[0] == c {
        assert s[..1] == [c];
      } else {
        assert s[..1] != [c];
      }
    }
  }

  /** Go's `isSeparator` on ASCII: anything but a letter, a digit or `_`
      separates words. Other characters are treated as letters. */
  predicate IsSeparator(c: char)
  {
    c as int <= 0x7F && !(IsUpper(c) || IsLower(c) || ('0' <= c <= '9') || c == '_')
  }

  /** The character before position `i`; the start of the string counts as
      preceded by a space. */
  function Prev(s: string, i: nat): (c: char)
    requires i < |s|
  {
    if i == 0 then ' ' else s[i - 1]
  }

  /** One step of `strings.Title`: upper-case `c` when `prev` separates words. */
  function TitleChar(prev: char, c: char): (d: char)
    ensures IsSeparator(d) == IsSeparator(c)
    ensures LowerChar(d) == LowerChar(c)
  {
    if IsSeparator(prev) then UpperChar(c) else c
  }

  /** `strings.Title`: every character that starts a word is upper-cased.
      A word starts at the beginning of the string and after each separator;
      every other character is kept. */
  function Title(s: string): (r: string)
    ensures |r| == |s|
    ensures |s| > 0 ==> r[0] == UpperChar(s[0])
    ensures forall i :: 0 < i < |s| && IsSeparator(s[i - 1]) ==> r[i] == UpperChar(s[i])
    ensures forall i :: 0 < i < |s| && !IsSeparator(s[i - 1]) ==> r[i] == s[i]
  {
    seq(|s|, i requires 0 <= i < |s| => TitleChar(Prev(s, i), s[i]))
  }

  /** `Title` changes letter case only, and only at the start of a word:
      lower-casing both sides gives the same string, the first character is
      upper-cased, a character that follows a separator is upper-cased, and
      a character that follows a non-separator is kept. */
  lemma TitleOnlyChangesWordStarts(s: string)
    ensures ToLower(Title(s)) == ToLower(s)
    ensures |s| > 0 ==> Title(s)[0] == UpperChar(s[0])
    ensures forall i :: 0 < i < |s| && IsSeparator(s[i - 1]) ==> Title(s)[i] == UpperChar(s[i])
    ensures forall i :: 0 < i < |s| && !IsSeparator(s[i - 1]) ==> Title(s)[i] == s[i]
  {
    var t := Title(s);
    assert forall i :: 0 <= i < |s| ==> LowerChar(t[i]) == LowerChar(s[i]);
  }

  /** Word starts are recognised the same way before and after `Title`,
      so applying it twice is the same as applying it once. */
  lemma TitleIdempotent(s: string)
    ensures Title(Title(s)) == Title(s)
  {
    var t := Title(s);
    forall i | 0 <= i < |s|
      ensures Title(t)[i] == t[i]
    {
      assert IsSeparator(Prev(t, i)) == IsSeparator(Prev(s, i));
      if IsSeparator(Prev(s, i)) {
        assert t[i] == UpperChar(s[i]);
      }
    }
  }

  /** A single lower-case word is capitalised: only its first letter changes. */
  lemma TitleOfWord(s: string)
    requires |s| > 0
    requires forall i :: 0 <= i < |s| ==> IsLower(s[i])
    ensures Title(s) == [UpperChar(s[0])] + s[1..]
  {
    var t := Title(s);
    forall i | 1 <= i < |s|
      ensures t[i] == s[i]
    {
      assert !IsSeparator(s[i - 1]);
    }
  }

  /** The example label: the sensor `livingroom` is shown as `Livingroom`.
      The literals arrive as parameters fixed by `requires`, so the verifier
      does not unfold the string functions on them eagerly; the literal
      facts themselves are proved in a small helper lemma. */
  lemma TitleExample(name: string)
    requires name == "livingroom"
    ensures Title(name) == "Livingroom"
  {
    LowerCaseWord(name);
    TitleOfWord(name);
  }

  /** `livingroom` is one lower-case word, and capitalising it gives `Livingroom`. */
  lemma LowerCaseWord(name: string)
    requires name == "livingroom"
    ensures |name| > 0 && forall i :: 0 <= i < |name| ==> IsLower(name[i])
    ensures [UpperChar(name[0])] + name[1..] == "Livingroom"
  {
  }
}
