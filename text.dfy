/**
 * The Python string built-ins the engine relies on, restricted to ASCII: `strip`, `lower`,
 * `replace(ch, "")`, `startswith` and the first word of `split()`.
 *
 * The functions are plain definitions; what they guarantee is stated by the lemmas next to
 * them, so that a proof pays for these facts only where it asks for them.
 */
module PyText {
  import opened Wrappers

  /** The ASCII characters Python's `str.isspace` accepts. */
  predicate IsSpace(c: char) {
    // space, tab, line feed, vertical tab, form feed, carriage return, and the
    // file, group, record and unit separators
    c == ' ' || 9 <= c as int <= 13 || 28 <= c as int <= 31
  }

  /** No whitespace character at either end. */
  predicate Trimmed(s: string) {
    |s| == 0 || (!IsSpace(s[0]) && !IsSpace(s[|s| - 1]))
  }

  /** `s.lstrip()`: drops the leading whitespace. */
  function StripLeft(s: string): string {
    if |s| != 0 && IsSpace(s[0]) then StripLeft(s[1..]) else s
  }

  /** `s.rstrip()`: drops the trailing whitespace. */
  function StripRight(s: string): string {
    if |s| != 0 && IsSpace(s[|s| - 1]) then StripRight(s[..|s| - 1]) else s
  }

  /** `s.strip()`. */
  function Strip(s: string): string {
    StripRight(StripLeft(s))
  }

  /** `lstrip` removes exactly a whitespace prefix and leaves a non-space first character. */
  lemma {:induction false} StripLeftFacts(s: string)
    ensures |StripLeft(s)| <= |s| && StripLeft(s) == s[|s| - |StripLeft(s)|..]
    ensures |StripLeft(s)| == 0 || !IsSpace(StripLeft(s)[0])
    ensures forall i :: 0 <= i < |s| - |StripLeft(s)| ==> IsSpace(s[i])
  {
    if |s| != 0 && IsSpace(s[0]) {
      StripLeftFacts(s[1..]);
    }
  }

  /** `rstrip` removes exactly a whitespace suffix and leaves a non-space last character. */
  lemma {:induction false} StripRightFacts(s: string)
    ensures |StripRight(s)| <= |s| && StripRight(s) == s[..|StripRight(s)|]
    ensures |StripRight(s)| == 0 || !IsSpace(StripRight(s)[|StripRight(s)| - 1])
    ensures forall i :: |StripRight(s)| <= i < |s| ==> IsSpace(s[i])
  {
    if |s| != 0 && IsSpace(s[|s| - 1]) {
      StripRightFacts(s[..|s| - 1]);
    }
  }

  /** `strip` leaves no whitespace at either end. */
  lemma StripTrims(s: string)
    ensures Trimmed(Strip(s))
  {
    var left := StripLeft(s);
    StripLeftFacts(s);
    StripRightFacts(left);
    var r := StripRight(left);
    if |r| != 0 {
      assert r[0] == left[0];
    }
  }

  /** A string without whitespace at either end is its own strip. */
  lemma StripUnchanged(s: string)
    requires Trimmed(s)
    ensures Strip(s) == s
  {
  }

  /** ASCII `str.lower` of one character. */
  function LowerChar(c: char): char {
    if 'A' <= c <= 'Z' then (c as int + 32) as char else c
  }

  /** ASCII `str.lower`. */
  function Lower(s: string): (r: string)
    ensures |r| == |s| && forall i :: 0 <= i < |s| ==> r[i] == LowerChar(s[i])
  {
    seq(|s|, i requires 0 <= i < |s| => LowerChar(s[i]))
  }

  /** `s.replace(ch, "")`: `s` with every occurrence of `ch` removed, order kept. */
  function RemoveChar(s: string, ch: char): string {
    if |s| == 0 then []
    else (if s[0] == ch then [] else [s[0]]) + RemoveChar(s[1..], ch)
  }

  /** `replace(ch, "")` leaves no `ch`, never lengthens, and keeps a string without `ch`. */
  lemma {:induction false} RemoveCharFacts(s: string, ch: char)
    ensures ch !in RemoveChar(s, ch)
    ensures |RemoveChar(s, ch)| <= |s|
    ensures ch !in s ==> RemoveChar(s, ch) == s
  {
    if |s| != 0 {
      RemoveCharFacts(s[1..], ch);
      if ch !in s {
        assert s == [s[0]] + s[1..];
      }
    }
  }

  /** Removing a character distributes over concatenation. */
  lemma {:induction false} RemoveCharAppend(a: string, b: string, ch: char)
    ensures RemoveChar(a + b, ch) == RemoveChar(a, ch) + RemoveChar(b, ch)
  {
    if |a| == 0 {
      assert a + b == b;
    } else {
      assert (a + b)[0] == a[0] && (a + b)[1..] == a[1..] + b;
      RemoveCharAppend(a[1..], b, ch);
    }
  }

  /** `s.startswith(prefix)`. */
  predicate StartsWith(s: string, prefix: string) {
    |prefix| <= |s| && s[..|prefix|] == prefix
  }

  /** The characters of `s` before its first whitespace character. */
  function TakeWord(s: string): string {
    if |s| == 0 || IsSpace(s[0]) then [] else [s[0]] + TakeWord(s[1..])
  }

  /** `s.split()[0]`, or None where Python raises IndexError because `s` has no word. */
  function FirstWord(s: string): Option<string> {
    var t := StripLeft(s);
    if |t| == 0 then None else Some(TakeWord(t))
  }

  /** The taken word is the longest whitespace-free prefix. */
  lemma {:induction false} TakeWordFacts(s: string)
    ensures |TakeWord(s)| <= |s| && TakeWord(s) == s[..|TakeWord(s)|]
    ensures forall i :: 0 <= i < |TakeWord(s)| ==> !IsSpace(TakeWord(s)[i])
    ensures |TakeWord(s)| < |s| ==> IsSpace(s[|TakeWord(s)|])
  {
    if |s| != 0 && !IsSpace(s[0]) {
      TakeWordFacts(s[1..]);
    }
  }

  /** `split()` has no first word exactly when `s` is all whitespace; the word is non-empty and space-free. */
  lemma FirstWordFacts(s: string)
    ensures FirstWord(s).None? <==> forall i :: 0 <= i < |s| ==> IsSpace(s[i])
    ensures FirstWord(s).Some? ==>
      |FirstWord(s).value| != 0 && forall i :: 0 <= i < |FirstWord(s).value| ==> !IsSpace(FirstWord(s).value[i])
  {
    StripLeftFacts(s);
    var t := StripLeft(s);
    if |t| != 0 {
      TakeWordFacts(t);
      assert !IsSpace(s[|s| - |t|]);
    }
  }

  /** A string free of whitespace is its own first word. */
  lemma FirstWordOfWord(s: string)
    requires |s| != 0 && forall i :: 0 <= i < |s| ==> !IsSpace(s[i])
    ensures FirstWord(s) == Some(s)
  {
    TakeWordWhole(s);
  }

  lemma {:induction false} TakeWordWhole(s: string)
    requires forall i :: 0 <= i < |s| ==> !IsSpace(s[i])
    ensures TakeWord(s) == s
  {
    if |s| != 0 {
      TakeWordWhole(s[1..]);
    }
  }
}
