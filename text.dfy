/** The string primitives the portal relies on, written out: JavaScript's `trim`,
    the `\s` class of its regular expressions, `toLowerCase`, `includes` and `join`. */
module Text {
  import Lists

  /** JavaScript's WhiteSpace and LineTerminator characters: what `trim` strips and `\s` matches. */
  predicate IsSpace(c: char)
  {
    c == ' ' || c == '\t' || c == '\n' || c == '\r' || c == '\U{000B}' || c == '\U{000C}'
    || c == '\U{00A0}' || c == '\U{1680}' || ('\U{2000}' <= c <= '\U{200A}')
    || c == '\U{2028}' || c == '\U{2029}' || c == '\U{202F}' || c == '\U{205F}'
    || c == '\U{3000}' || c == '\U{FEFF}'
  }

  predicate IsBlank(s: string)
  {
    forall k :: 0 <= k < |s| ==> IsSpace(s[k])
  }

  /** The number of whitespace characters `s` starts with. */
  function LeadingSpaces(s: string): (n: nat)
    ensures n <= |s|
    ensures forall k :: 0 <= k < n ==> IsSpace(s[k])
    ensures n == |s| || !IsSpace(s[n])
  {
    if s == [] || !IsSpace(s[0]) then 0 else 1 + LeadingSpaces(s[1..])
  }

  /** The number of whitespace characters `s` ends with. */
  function TrailingSpaces(s: string): (n: nat)
    ensures n <= |s|
    ensures forall k :: |s| - n <= k < |s| ==> IsSpace(s[k])
    ensures n == |s| || !IsSpace(s[|s| - 1 - n])
  {
    if s == [] || !IsSpace(s[|s| - 1]) then 0 else 1 + TrailingSpaces(s[..|s| - 1])
  }

  /** `String.prototype.trim`: the text between the leading and the trailing whitespace. What
      remains neither starts nor ends with whitespace. */
  function Trim(s: string): (r: string)
    ensures |r| <= |s|
    ensures r != [] ==> !IsSpace(r[0]) && !IsSpace(r[|r| - 1])
  {
    var i := LeadingSpaces(s);
    var rest := s[i..];
    var r := rest[..|rest| - TrailingSpaces(rest)];
    assert r != [] ==> r[0] == s[i] && r[|r| - 1] == rest[|rest| - 1 - TrailingSpaces(rest)];
    r
  }

  /** A string trims to nothing exactly when it is all whitespace. */
  lemma TrimEmptyIffBlank(s: string)
    ensures Trim(s) == [] <==> IsBlank(s)
  {
    var i := LeadingSpaces(s);
    var rest := s[i..];
    var j := TrailingSpaces(rest);
    if i < |s| {
      assert rest[0] == s[i];
      assert j < |rest|;
    }
  }

  /** A string that neither starts nor ends with whitespace trims to itself. */
  lemma TrimKeepsUnpadded(s: string)
    requires s != [] && !IsSpace(s[0]) && !IsSpace(s[|s| - 1])
    ensures Trim(s) == s
  {
    assert LeadingSpaces(s) == 0;
    assert s[0..] == s;
  }

  /** Trimming keeps a contiguous slice of the input with only whitespace around it. */
  lemma TrimIsSlice(s: string)
    ensures exists i, j :: 0 <= i <= j <= |s| && Trim(s) == s[i..j]
                          && IsBlank(s[..i]) && IsBlank(s[j..])
  {
    var i := LeadingSpaces(s);
    var rest := s[i..];
    var j := i + |rest| - TrailingSpaces(rest);
    assert Trim(s) == s[i..j];
    assert forall k :: 0 <= k < |s| - j ==> s[j..][k] == rest[j - i + k];
  }

  /** `toLowerCase` on the letters the portal's texts use: ASCII A-Z and the
      Latin-1 capitals U+00C0 to U+00DE (except the sign U+00D7) move up by 0x20. */
  function LowerChar(c: char): (r: char)
  {
    if 'A' <= c <= 'Z' || ('\U{00C0}' <= c <= '\U{00DE}' && c != '\U{00D7}')
    then (c as int + 32) as char
    else c
  }

  function Lower(s: string): (r: string)
    ensures |r| == |s|
    ensures forall k :: 0 <= k < |s| ==> r[k] == LowerChar(s[k])
  {
    if s == [] then [] else [LowerChar(s[0])] + Lower(s[1..])
  }

  /** The needle sits in the haystack starting at index `i`. */
  predicate OccursAt(haystack: string, needle: string, i: int)
  {
    0 <= i <= |haystack| - |needle| && haystack[i..i + |needle|] == needle
  }

  /** `haystack.includes(needle)`: the needle occurs at some index of the haystack. */
  function Contains(haystack: string, needle: string): (r: bool)
    ensures r <==> exists i :: OccursAt(haystack, needle, i)
    decreases |haystack|
  {
    if |needle| > |haystack| then false
    else if haystack[..|needle|] == needle then
      assert OccursAt(haystack, needle, 0);
      true
    else
      var r := Contains(haystack[1..], needle);
      forall i ensures OccursAt(haystack[1..], needle, i) <==> OccursAt(haystack, needle, i + 1) {
        if 0 <= i <= |haystack| - 1 - |needle| {
          assert haystack[1..][i..i + |needle|] == haystack[i + 1..i + 1 + |needle|];
        }
      }
      assert !OccursAt(haystack, needle, 0);
      assert forall i :: OccursAt(haystack, needle, i) ==> OccursAt(haystack[1..], needle, i - 1);
      r
  }

  /** Lowering both sides keeps an occurrence where it was. */
  lemma LowerKeepsOccurrence(haystack: string, needle: string, i: int)
    requires OccursAt(haystack, needle, i)
    ensures OccursAt(Lower(haystack), Lower(needle), i)
  {
    var h := Lower(haystack);
    assert forall k :: 0 <= k < |needle| ==> h[i..i + |needle|][k] == h[i + k] && needle[k] == haystack[i + k];
    assert h[i..i + |needle|] == Lower(needle);
  }

  /** An occurrence in a part is an occurrence in any text that ends with that part. */
  lemma OccursInSuffix(prefix: string, text: string, needle: string, i: int)
    requires OccursAt(text, needle, i)
    ensures OccursAt(prefix + text, needle, |prefix| + i)
  {
    assert (prefix + text)[|prefix| + i..|prefix| + i + |needle|] == text[i..i + |needle|];
  }

  /** The total length of the parts. */
  function TotalLength(parts: seq<string>): nat
  {
    if parts == [] then 0 else |parts[0]| + TotalLength(parts[1..])
  }

  /** `parts.join(sep)`: the parts in order with `sep` between neighbours; it starts with the
      first part, ends with the last, and holds one separator per pair of neighbours. */
  function Join(parts: seq<string>, sep: string): (r: string)
    ensures parts == [] ==> r == []
    ensures parts != [] ==> |r| == TotalLength(parts) + (|parts| - 1) * |sep|
    ensures parts != [] ==> |parts[0]| <= |r| && r[..|parts[0]|] == parts[0]
    ensures parts != [] ==> |parts[|parts| - 1]| <= |r| && r[|r| - |parts[|parts| - 1]|..] == parts[|parts| - 1]
  {
    if parts == [] then ""
    else if |parts| == 1 then parts[0]
    else parts[0] + sep + Join(parts[1..], sep)
  }

  /** Appending a part appends the separator and that part. */
  lemma {:induction false} JoinSnoc(parts: seq<string>, p: string, sep: string)
    ensures Join(parts + [p], sep) == if parts == [] then p else Join(parts, sep) + sep + p
    decreases |parts|
  {
    if parts == [] {
      assert parts + [p] == [p];
    } else {
      SnocSplit(parts, p);
      if |parts| == 1 {
        assert parts[1..] + [p] == [p];
      } else {
        JoinSnoc(parts[1..], p, sep);
        ConcatAssoc(parts[0], sep, Join(parts[1..], sep), sep, p);
      }
    }
  }

  /** The head and tail of a sequence with an element appended. */
  lemma SnocSplit<T>(s: seq<T>, x: T)
    requires s != []
    ensures |s + [x]| > 1 && (s + [x])[0] == s[0] && (s + [x])[1..] == s[1..] + [x]
  {
  }

  /** Concatenation regroups freely. */
  lemma ConcatAssoc<T>(a: seq<T>, b: seq<T>, c: seq<T>, d: seq<T>, e: seq<T>)
    ensures a + b + (c + d + e) == (a + b + c) + d + e
  {
  }

  /** Every part shows up in the joined text. */
  lemma {:induction false} JoinContainsParts(parts: seq<string>, sep: string, k: nat)
    requires k < |parts|
    ensures Contains(Join(parts, sep), parts[k])
  {
    if k == 0 {
      var j := Join(parts, sep);
      assert j[0..|parts[0]|] == parts[0];
      assert OccursAt(j, parts[0], 0);
    } else {
      JoinContainsParts(parts[1..], sep, k - 1);
      var rest := Join(parts[1..], sep);
      assert parts[1..][k - 1] == parts[k];
      var i :| OccursAt(rest, parts[k], i);
      OccursInSuffix(parts[0] + sep, rest, parts[k], i);
    }
  }

  /** `s.replace(/\s/g, '')`: the non-space characters of `s`, in order. */
  function StripSpaces(s: string): (r: string)
    ensures forall k :: 0 <= k < |r| ==> !IsSpace(r[k])
    ensures forall c :: !IsSpace(c) ==> multiset(r)[c] == multiset(s)[c]
    ensures Lists.Subseq(r, s)
  {
    if s == [] then []
    else
      var rest := StripSpaces(s[1..]);
      assert s == [s[0]] + s[1..];
      if IsSpace(s[0]) then rest else [s[0]] + rest
  }

  /** Text without whitespace is left as it is. */
  lemma {:induction false} StripSpacesKeepsUnspaced(s: string)
    requires forall k :: 0 <= k < |s| ==> !IsSpace(s[k])
    ensures StripSpaces(s) == s
    decreases |s|
  {
    if s != [] {
      StripSpacesKeepsUnspaced(s[1..]);
    }
  }
}
