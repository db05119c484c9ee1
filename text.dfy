/** Character classes, case mapping and the string operations the converters
    use on food names: `str.lower()`, `str.upper()`, `str.strip(chars)` and
    the `re.sub` passes that collapse runs of characters. */
module Text {

  /** Python's `\s` on str patterns, which is the set `str.isspace()` accepts. */
  predicate IsSpace(c: char) {
    var n := c as int;
    (9 <= n <= 13) || (0x1C <= n <= 0x20) || n == 0x85 || n == 0xA0 || n == 0x1680
    || (0x2000 <= n <= 0x200A) || n == 0x2028 || n == 0x2029 || n == 0x202F
    || n == 0x205F || n == 0x3000
  }

  /** Python's `\w` on str patterns: letters, digits and `_`. Only the Latin
      blocks (ASCII, Latin-1, Latin Extended-A and -B) are listed. */
  predicate IsWordChar(c: char) {
    var n := c as int;
    ('a' <= c <= 'z') || ('A' <= c <= 'Z') || ('0' <= c <= '9') || c == '_'
    || n == 0xAA || n == 0xB2 || n == 0xB3 || n == 0xB5 || n == 0xB9 || n == 0xBA
    || (0xBC <= n <= 0xBE) || (0xC0 <= n <= 0x24F && n != 0xD7 && n != 0xF7)
  }

  /** No character is both a word character and whitespace. */
  lemma WordCharIsNotSpace(c: char)
    requires IsWordChar(c)
    ensures !IsSpace(c)
  {
  }

  /** The capitals of Latin Extended-A whose small letter is the next code
      point. U+0130 is not among them: its lower case is two code points. */
  predicate PairedCapital(n: int) {
    ((0x100 <= n <= 0x12F || 0x132 <= n <= 0x137 || 0x14A <= n <= 0x177) && n % 2 == 0)
    || ((0x139 <= n <= 0x148 || 0x179 <= n <= 0x17E) && n % 2 == 1)
  }

  /** Lower-case mapping of one character (ASCII, Latin-1 and Latin Extended-A
      capitals). */
  function LowerChar(c: char): char {
    var n := c as int;
    if ('A' <= c <= 'Z') || (0xC0 <= n <= 0xDE && n != 0xD7) then (n + 32) as char
    else if PairedCapital(n) then (n + 1) as char
    else if n == 0x178 then 0xFF as char
    else c
  }

  /** A lowered character is its own lower case. */
  lemma LowerCharIdempotent(c: char)
    ensures LowerChar(LowerChar(c)) == LowerChar(c)
  {
  }

  /** Upper-case mapping of one character (ASCII, Latin-1 and Latin Extended-A
      small letters whose upper case is a single code point). */
  function UpperChar(c: char): char {
    var n := c as int;
    if ('a' <= c <= 'z') || (0xE0 <= n <= 0xFE && n != 0xF7) then (n - 32) as char
    else if n == 0xFF then 0x178 as char
    else if n == 0xB5 then 0x39C as char
    else if PairedCapital(n - 1) then (n - 1) as char
    else if n == 0x131 then 'I'
    else if n == 0x17F then 'S'
    else c
  }

  /** `s.lower()`, one character at a time. */
  function Lower(s: string): (r: string)
    ensures |r| == |s|
    ensures forall i :: 0 <= i < |s| ==> r[i] == LowerChar(s[i])
  {
    seq(|s|, i requires 0 <= i < |s| => LowerChar(s[i]))
  }

  /** `s.upper()`, one character at a time. */
  function Upper(s: string): (r: string)
    ensures |r| == |s|
    ensures forall i :: 0 <= i < |s| ==> r[i] == UpperChar(s[i])
  {
    seq(|s|, i requires 0 <= i < |s| => UpperChar(s[i]))
  }

  /** Lowering a string whose characters are already lower case changes nothing. */
  lemma LowerOfLowered(s: string)
    requires forall i :: 0 <= i < |s| ==> LowerChar(s[i]) == s[i]
    ensures Lower(s) == s
  {
  }

  /** The suffix left after dropping the leading characters that satisfy `p`. */
  function DropWhile(s: string, p: char -> bool): (r: string)
    ensures |r| <= |s| && r == s[|s| - |r|..]
    ensures r == [] || !p(r[0])
    ensures forall i :: 0 <= i < |s| - |r| ==> p(s[i])
    decreases |s|
  {
    if s != [] && p(s[0]) then DropWhile(s[1..], p) else s
  }

  /** The prefix left after dropping the trailing characters that satisfy `p`. */
  function DropWhileEnd(s: string, p: char -> bool): (r: string)
    ensures |r| <= |s| && r == s[..|r|]
    ensures r == [] || !p(r[|r| - 1])
    ensures forall i :: |r| <= i < |s| ==> p(s[i])
    decreases |s|
  {
    if s != [] && p(s[|s| - 1]) then DropWhileEnd(s[..|s| - 1], p) else s
  }

  /** `s.strip(chars)`: drop the characters in `p` from both ends. */
  function Strip(s: string, p: char -> bool): (r: string)
    ensures |r| <= |s|
    ensures r == [] || (!p(r[0]) && !p(r[|r| - 1]))
  {
    var t := DropWhile(s, p);
    var r := DropWhileEnd(t, p);
    assert r != [] ==> r[0] == t[0];
    r
  }

  /** Where the result of `Strip` begins in `s`: after the leading characters
      in `p`. */
  function StripStart(s: string, p: char -> bool): (lo: nat)
    ensures lo <= |s|
  {
    |s| - |DropWhile(s, p)|
  }

  /** `StripStart` stops at the first character outside `p`. */
  lemma StripStartIsFirstOutside(s: string, p: char -> bool)
    ensures forall i :: 0 <= i < StripStart(s, p) ==> p(s[i])
    ensures StripStart(s, p) == |s| || !p(s[StripStart(s, p)])
  {
    var r := DropWhile(s, p);
    assert r != [] ==> r[0] == s[|s| - |r|];
  }

  /** `u` is the block of `s` starting at `lo`, and every character of `s`
      outside it is in `p`. */
  predicate BlockIn(s: string, u: string, lo: nat, p: char -> bool) {
    lo + |u| <= |s| && s[lo..lo + |u|] == u
    && forall i :: 0 <= i < |s| && !(lo <= i < lo + |u|) ==> p(s[i])
  }

  /** `Strip` keeps the middle of `s` unchanged: the result is the block of `s`
      starting at `StripStart`, and every character outside that block is in `p`. */
  lemma StripIsBlock(s: string, p: char -> bool)
    ensures BlockIn(s, Strip(s, p), StripStart(s, p), p)
  {
    var t := DropWhile(s, p);
    var r := DropWhileEnd(t, p);
    assert r == Strip(s, p);
    BlockOfEnds(s, t, r, StripStart(s, p), p);
  }

  /** Dropping a prefix in `p` and then a suffix in `p` leaves a block of `s`
      amid characters in `p`. */
  lemma BlockOfEnds(s: string, t: string, r: string, lo: nat, p: char -> bool)
    requires lo <= |s| && t == s[lo..]
    requires forall i :: 0 <= i < lo ==> p(s[i])
    requires |r| <= |t| && r == t[..|r|]
    requires forall i :: |r| <= i < |t| ==> p(t[i])
    ensures BlockIn(s, r, lo, p)
  {
    assert s[lo..lo + |r|] == r by {
      forall k | 0 <= k < |r| ensures s[lo + k] == r[k] {
        assert r[k] == t[k];
        assert t[k] == s[lo + k];
      }
    }
    forall i | 0 <= i < |s| && !(lo <= i < lo + |r|) ensures p(s[i]) {
      if lo + |r| <= i {
        assert s[i] == t[i - lo];
      }
    }
  }

  /** `u` is the block of `s` starting at `lo`, and every character of `s`
      outside it is in `p` or in `q`. */
  predicate Amid(s: string, u: string, lo: nat, p: char -> bool, q: char -> bool) {
    lo + |u| <= |s| && s[lo..lo + |u|] == u
    && forall i :: 0 <= i < |s| && !(lo <= i < lo + |u|) ==> p(s[i]) || q(s[i])
  }

  /** Stripping `p` and then `q` leaves a block of `s` amid characters in `p` or `q`. */
  lemma StripTwiceIsBlock(s: string, p: char -> bool, q: char -> bool)
    ensures Amid(s, Strip(Strip(s, p), q), StripStart(s, p) + StripStart(Strip(s, p), q), p, q)
  {
    StripIsBlock(s, p);
    StripIsBlock(Strip(s, p), q);
    BlockOfBlock(s, Strip(s, p), Strip(Strip(s, p), q), StripStart(s, p), StripStart(Strip(s, p), q), p, q);
  }

  lemma AmidOfEqual(s: string, u: string, v: string, lo: nat, p: char -> bool, q: char -> bool)
    requires Amid(s, u, lo, p, q) && u == v
    ensures Amid(s, v, lo, p, q)
  {
  }

  /** A block of a block, each amid characters in `p` and in `q` respectively,
      is a block of the whole amid characters in `p` or `q`. */
  lemma BlockOfBlock(s: string, t: string, u: string, lo1: nat, lo2: nat, p: char -> bool, q: char -> bool)
    requires BlockIn(s, t, lo1, p)
    requires BlockIn(t, u, lo2, q)
    ensures Amid(s, u, lo1 + lo2, p, q)
  {
    assert s[lo1 + lo2..lo1 + lo2 + |u|] == u by {
      forall k | 0 <= k < |u| ensures s[lo1 + lo2 + k] == u[k] {
        assert u[k] == t[lo2 + k];
        assert t[lo2 + k] == s[lo1 + lo2 + k];
      }
    }
    forall i | 0 <= i < |s| && !(lo1 + lo2 <= i < lo1 + lo2 + |u|)
      ensures p(s[i]) || q(s[i])
    {
      if lo1 <= i < lo1 + |t| {
        assert s[i] == t[i - lo1];
      }
    }
  }

  /** A string whose first and last characters are not in `p` is its own strip. */
  lemma StripOfStripped(s: string, p: char -> bool)
    requires s == [] || (!p(s[0]) && !p(s[|s| - 1]))
    ensures Strip(s, p) == s
  {
  }

  /** `re.sub(run, c, s)` where `run` matches one or more characters of the class
      `inRun`: every maximal run of such characters becomes the single character `c`. */
  function CollapseRuns(s: string, inRun: char -> bool, c: char): (r: string)
    ensures |s| > 0 ==> |r| > 0 && r[0] == (if inRun(s[0]) then c else s[0])
    ensures forall i :: 0 <= i < |r| ==> r[i] == c || (r[i] in s && !inRun(r[i]))
    ensures inRun(c) ==> forall i :: 0 <= i < |r| - 1 ==> !(inRun(r[i]) && inRun(r[i + 1]))
    decreases |s|
  {
    if s == [] then []
    else if inRun(s[0]) then [c] + CollapseRuns(DropWhile(s[1..], inRun), inRun, c)
    else [s[0]] + CollapseRuns(s[1..], inRun, c)
  }

  /** A string with no two adjacent run characters, whose run characters are all
      `c` already, is left unchanged by the collapsing pass. */
  lemma {:induction false} CollapseRunsOfCollapsed(s: string, inRun: char -> bool, c: char)
    requires forall i :: 0 <= i < |s| && inRun(s[i]) ==> s[i] == c
    requires forall i :: 0 <= i < |s| - 1 ==> !(inRun(s[i]) && inRun(s[i + 1]))
    ensures CollapseRuns(s, inRun, c) == s
    decreases |s|
  {
    if s != [] {
      CollapseRunsOfCollapsed(s[1..], inRun, c);
      if inRun(s[0]) {
        assert DropWhile(s[1..], inRun) == s[1..];
      }
    }
  }

  /** `re.sub(cls, '', s)` where `cls` matches one character outside `keep`:
      the characters of `s` in `keep`, in their order. */
  function Filter(s: string, keep: char -> bool): (r: string)
    ensures |r| <= |s|
    decreases |s|
  {
    if s == [] then [] else (if keep(s[0]) then [s[0]] else []) + Filter(s[1..], keep)
  }

  /** The filter keeps exactly the characters of `s` in `keep`. */
  lemma {:induction false} FilterChars(s: string, keep: char -> bool)
    ensures forall c :: c in Filter(s, keep) <==> c in s && keep(c)
    decreases |s|
  {
    if s != [] {
      FilterChars(s[1..], keep);
      assert forall c :: c in s <==> c == s[0] || c in s[1..];
    }
  }

  /** Filtering works character by character: the filter of a concatenation is
      the concatenation of the filters. */
  lemma {:induction false} FilterAppend(a: string, b: string, keep: char -> bool)
    ensures Filter(a + b, keep) == Filter(a, keep) + Filter(b, keep)
    decreases |a|
  {
    if a == [] {
      assert a + b == b;
    } else {
      var head := if keep(a[0]) then [a[0]] else [];
      assert (a + b)[0] == a[0];
      assert (a + b)[1..] == a[1..] + b;
      FilterAppend(a[1..], b, keep);
      calc {
        Filter(a + b, keep);
        head + Filter(a[1..] + b, keep);
        head + (Filter(a[1..], keep) + Filter(b, keep));
        (head + Filter(a[1..], keep)) + Filter(b, keep);
        Filter(a, keep) + Filter(b, keep);
      }
    }
  }

  /** A string whose characters are all kept is its own filter. */
  lemma {:induction false} FilterKeepsAll(s: string, keep: char -> bool)
    ensures (forall i :: 0 <= i < |s| ==> keep(s[i])) ==> Filter(s, keep) == s
    decreases |s|
  {
    if s != [] && forall i :: 0 <= i < |s| ==> keep(s[i]) {
      assert forall i :: 0 <= i < |s| - 1 ==> keep(s[1..][i]);
      FilterKeepsAll(s[1..], keep);
    }
  }
}
