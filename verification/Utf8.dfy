/** Sums over the characters of a text, among them the bytes of its UTF-8 form. */
module Utf8 {
  /** Bytes of one character of the basic multilingual plane. */
  function Utf8Width(c: char): nat {
    if c < '\U{80}' then 1 else if c < '\U{800}' then 2 else 3
  }

  function Utf8Length(s: string): nat {
    Measure(s, Utf8Width)
  }

  /** How far a character stays below three bytes. */
  function Spare(c: char): nat {
    3 - Utf8Width(c)
  }

  /** Two for every character. */
  function Pair(c: char): nat {
    2
  }

  function DoubleWidth(c: char): nat {
    2 * Utf8Width(c)
  }

  function Measure(s: string, w: char -> nat): nat {
    if s == [] then 0 else Measure(s[..|s| - 1], w) + w(s[|s| - 1])
  }

  lemma {:induction false} MeasureJoins(s: string, t: string, w: char -> nat)
    ensures Measure(s + t, w) == Measure(s, w) + Measure(t, w)
  {
    if t == [] {
      assert s + t == s;
    } else {
      assert (s + t)[..|s + t| - 1] == s + t[..|t| - 1];
      MeasureJoins(s, t[..|t| - 1], w);
    }
  }

  predicate Ascii(s: string) {
    forall i :: 0 <= i < |s| ==> s[i] < '\U{80}'
  }

  /** Every ASCII character weighs two, as it does in `Spare`. */
  ghost predicate FlatOnAscii(w: char -> nat) {
    forall c :: c < '\U{80}' ==> w(c) == 2
  }

  /** How many of the characters are ASCII. */
  function AsciiCount(s: string): (n: nat)
    ensures n <= |s| && (Ascii(s) ==> n == |s|)
  {
    if s == [] then 0 else AsciiCount(s[1..]) + (if s[0] < '\U{80}' then 1 else 0)
  }

  lemma {:induction false} AsciiMeasure(s: string, w: char -> nat)
    requires Ascii(s) && FlatOnAscii(w)
    ensures Measure(s, w) == 2 * |s|
  {
    if s != [] {
      AsciiMeasure(s[..|s| - 1], w);
    }
  }

  /** Three bytes a character, less what the characters spare. */
  lemma {:induction false} LengthAndSpare(s: string)
    ensures Utf8Length(s) + Measure(s, Spare) == 3 * |s|
    ensures Measure(s, Pair) == 2 * |s| && Measure(s, DoubleWidth) == 2 * Utf8Length(s)
  {
    if s != [] {
      LengthAndSpare(s[..|s| - 1]);
    }
  }

  lemma {:induction false} Repeated(s: string, c: char, w: char -> nat)
    requires forall i :: 0 <= i < |s| ==> s[i] == c
    ensures Measure(s, w) == |s| * w(c)
  {
    if s != [] {
      Repeated(s[..|s| - 1], c, w);
      assert |s| * w(c) == (|s| - 1) * w(c) + w(c);
    }
  }
}
