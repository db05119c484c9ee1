/** Small building blocks shared by both converter scripts: an optional value,
    Python's `str(n)` for non-negative integers, and `sub in text`. */
module Common {

  /** A value that may be absent (Python's `None`). */
  datatype Option<T> = None | Some(value: T)

  /** The decimal digit character for `d`. */
  function DigitChar(d: nat): (c: char)
    requires d < 10
    ensures '0' <= c <= '9'
  {
    ('0' as int + d) as char
  }

  /** `str(n)` for a non-negative integer: its decimal digits, no sign, no leading zeros. */
  function NatToString(n: nat): (s: string)
    ensures |s| > 0
    ensures forall i :: 0 <= i < |s| ==> '0' <= s[i] <= '9'
    ensures n < 10 <==> |s| == 1
    decreases n
  {
    if n < 10 then [DigitChar(n)] else NatToString(n / 10) + [DigitChar(n % 10)]
  }

  /** Distinct numbers print differently, so numbered suffixes never collide. */
  lemma {:induction false} NatToStringInjective(a: nat, b: nat)
    requires NatToString(a) == NatToString(b)
    ensures a == b
    decreases a
  {
    var sa, sb := NatToString(a), NatToString(b);
    if a >= 10 && b >= 10 {
      assert sa[|sa| - 1] == DigitChar(a % 10) && sb[|sb| - 1] == DigitChar(b % 10);
      assert a % 10 == b % 10;
      assert sa[..|sa| - 1] == NatToString(a / 10);
      assert sb[..|sb| - 1] == NatToString(b / 10);
      NatToStringInjective(a / 10, b / 10);
    }
  }

  /** Python's `prefix` test: `text.startswith(p)`. */
  predicate IsPrefix(p: string, text: string) {
    |p| <= |text| && text[..|p|] == p
  }

  /** Python's `sub in text` for strings: `sub` occurs as a contiguous block of `text`. */
  predicate Contains(text: string, sub: string)
    decreases |text|
  {
    IsPrefix(sub, text) || (text != [] && Contains(text[1..], sub))
  }

  /** `sub` occurs in `text` starting at position `i`. */
  predicate OccursAt(text: string, sub: string, i: int) {
    0 <= i <= |text| - |sub| && text[i..i + |sub|] == sub
  }

  /** `Contains` agrees with the positional definition of a substring. */
  lemma {:induction false} ContainsAt(text: string, sub: string)
    ensures Contains(text, sub) <==> exists i :: OccursAt(text, sub, i)
    decreases |text|
  {
    if Contains(text, sub) {
      if IsPrefix(sub, text) {
        assert OccursAt(text, sub, 0);
      } else {
        ContainsAt(text[1..], sub);
        var i :| OccursAt(text[1..], sub, i);
        assert OccursAt(text, sub, i + 1);
      }
    }
    if exists i :: OccursAt(text, sub, i) {
      var i :| OccursAt(text, sub, i);
      if i > 0 {
        assert OccursAt(text[1..], sub, i - 1);
        ContainsAt(text[1..], sub);
      }
    }
  }

  /** A block of `text` only holds characters of `text`: a keyword with a
      character the text lacks cannot occur in it. */
  lemma {:induction false} ContainsOnlyTextChars(text: string, sub: string, c: char)
    requires c in sub && c !in text
    ensures !Contains(text, sub)
    decreases |text|
  {
    if text != [] {
      ContainsOnlyTextChars(text[1..], sub, c);
    }
  }
}
