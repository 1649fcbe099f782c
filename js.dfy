/**
 * The JavaScript built-ins that the scenes build their numbers and strings with:
 * `Math.round`, `String.prototype.slice(0, n)`, `padStart`, `split`, `join`,
 * `String(n)` and `Number.prototype.toString(radix)`, each for the kind of
 * argument the repository passes it (integers, single-character separators).
 */
module Js {

  function Max(a: int, b: int): int { if a >= b then a else b }

  function Min(a: int, b: int): int { if a <= b then a else b }

  function RealMax(a: real, b: real): real { if a >= b then a else b }

  /** `Math.round(x)`: the nearest integer, a half rounded up (towards +infinity). */
  function Round(x: real): (r: int)
    ensures r as real - 0.5 <= x < r as real + 0.5
  {
    (x + 0.5).Floor
  }

  /** `s.slice(0, end)` for an integer `end`; a negative `end` counts back from the end of `s`. */
  function Slice(s: string, end: int): (r: string)
    ensures r <= s
    ensures 0 <= end ==> |r| == Min(end, |s|)
    ensures end < 0 ==> |r| == Max(0, |s| + end)
  {
    if end >= 0 then s[..Min(end, |s|)] else s[..Max(0, |s| + end)]
  }

  /** Slicing with a count of at least the length gives the whole string back. */
  lemma SliceWhole(s: string, end: int)
    requires end >= |s|
    ensures Slice(s, end) == s
  {
  }

  function Repeat(c: char, n: nat): (r: string)
    ensures |r| == n
    ensures forall i :: 0 <= i < n ==> r[i] == c
  {
    seq(n, _ => c)
  }

  /** `s.padStart(width, fill)` with a one-character `fill`. */
  function PadStart(s: string, width: nat, fill: char): (r: string)
    ensures |r| == Max(width, |s|)
    ensures r[|r| - |s|..] == s
    ensures forall i :: 0 <= i < |r| - |s| ==> r[i] == fill
  {
    if |s| >= width then s else Repeat(fill, width - |s|) + s
  }

  // ---------------------------------------------------------------------------
  // Numbers to strings and back

  /** The digit character of value `d` in `toString(radix)`: '0'..'9' then 'a'..'f'. */
  function DigitChar(d: nat): char
    requires d < 16
  {
    if d < 10 then ('0' as int + d) as char else ('a' as int + d - 10) as char
  }

  /** The value of a digit character, or -1 for a character that is not one. */
  function DigitValue(c: char): int
  {
    if '0' <= c <= '9' then c as int - '0' as int
    else if 'a' <= c <= 'f' then c as int - 'a' as int + 10
    else -1
  }

  ghost predicate IsDigits(s: string, radix: nat)
  {
    forall i :: 0 <= i < |s| ==> 0 <= DigitValue(s[i]) < radix
  }

  /** Euclidean division facts for a positive divisor, stated once so that proofs need not rediscover them. */
  lemma DivMod(n: nat, radix: nat)
    requires 2 <= radix
    ensures n == (n / radix) * radix + n % radix
    ensures 0 <= n % radix < radix
    ensures n >= radix ==> 1 <= n / radix < n
    ensures n < radix ==> n / radix == 0 && n % radix == n
  {
  }

  /**
   * `n.toString(radix)` for a non-negative integer `n`: its digits, most
   * significant first, with a leading zero exactly when `n` is zero.
   */
  function ToRadix(n: nat, radix: nat): (r: string)
    requires 2 <= radix <= 16
    ensures 1 <= |r|
    ensures IsDigits(r, radix)
    ensures (r[0] == '0') == (n == 0)
    decreases n
  {
    DivMod(n, radix);
    if n < radix then [DigitChar(n)] else ToRadix(n / radix, radix) + [DigitChar(n % radix)]
  }

  /** The value of a string of digits in the given radix (the inverse of `ToRadix`). */
  function ParseRadix(s: string, radix: nat): nat
    requires 2 <= radix <= 16
    requires IsDigits(s, radix)
  {
    if s == [] then 0 else ParseRadix(s[..|s| - 1], radix) * radix + DigitValue(s[|s| - 1])
  }

  lemma {:induction false} ParseToRadix(n: nat, radix: nat)
    requires 2 <= radix <= 16
    ensures ParseRadix(ToRadix(n, radix), radix) == n
    decreases n
  {
    DivMod(n, radix);
    if n >= radix {
      var s := ToRadix(n, radix);
      assert s == ToRadix(n / radix, radix) + [DigitChar(n % radix)];
      assert s[..|s| - 1] == ToRadix(n / radix, radix);
      ParseToRadix(n / radix, radix);
      assert DigitValue(DigitChar(n % radix)) == n % radix;
    }
  }

  /** A number from 16 up to 255 has exactly two hexadecimal digits. */
  lemma HexLength(n: nat)
    requires 16 <= n < 256
    ensures |ToRadix(n, 16)| == 2
  {
    DivMod(n, 16);
    assert n / 16 < 16;
    assert ToRadix(n, 16) == ToRadix(n / 16, 16) + [DigitChar(n % 16)];
  }

  /** A number below ten has one decimal digit; one from 10 up to 99 has two. */
  lemma DecimalLength(n: nat)
    requires n < 100
    ensures n < 10 ==> ToRadix(n, 10) == [DigitChar(n)]
    ensures 10 <= n ==> |ToRadix(n, 10)| == 2
  {
    DivMod(n, 10);
    if 10 <= n {
      assert n / 10 < 10;
      assert ToRadix(n, 10) == ToRadix(n / 10, 10) + [DigitChar(n % 10)];
    }
  }

  /** `String(n)` for an integer `n`. */
  function IntToString(n: int): (r: string)
    ensures 1 <= |r|
    ensures (r[0] == '-') == (n < 0)
  {
    if n < 0 then "-" + ToRadix(-n, 10) else ToRadix(n, 10)
  }

  /** Reads back a decimal integer with an optional leading minus sign. */
  function ParseInt(s: string): int
  {
    if |s| > 0 && s[0] == '-' && IsDecimal(s[1..]) then 0 - ParseRadix(s[1..], 10)
    else if IsDecimal(s) then ParseRadix(s, 10)
    else 0
  }

  predicate IsDecimal(s: string)
  {
    forall i :: 0 <= i < |s| ==> '0' <= s[i] <= '9'
  }

  lemma DecimalDigits(s: string)
    requires IsDigits(s, 10)
    ensures IsDecimal(s)
  {
    forall i | 0 <= i < |s| ensures '0' <= s[i] <= '9' {
      assert 0 <= DigitValue(s[i]) < 10;
    }
  }

  lemma ParseIntToString(n: int)
    ensures ParseInt(IntToString(n)) == n
  {
    var s := IntToString(n);
    if n < 0 {
      var digits := ToRadix(-n, 10);
      assert s == "-" + digits;
      assert s[1..] == digits;
      DecimalDigits(digits);
      ParseToRadix(-n, 10);
      assert ParseInt(s) == 0 - ParseRadix(digits, 10);
    } else {
      assert s == ToRadix(n, 10);
      assert s[0] != '-';
      DecimalDigits(s);
      ParseToRadix(n, 10);
      assert ParseInt(s) == ParseRadix(s, 10);
    }
  }

  /** `String(n).padStart(2, "0")`: a number written with at least two digits. */
  function PadTwo(n: nat): (r: string)
    ensures |r| >= 2
    ensures |IntToString(n)| >= 2 ==> r == IntToString(n)
  {
    PadStart(IntToString(n), 2, '0')
  }

  /** Below 100 the padded number is exactly two digits and reads back as the number it shows. */
  lemma PadTwoRoundTrip(n: nat)
    requires n < 100
    ensures |PadTwo(n)| == 2
    ensures IsDecimal(PadTwo(n))
    ensures ParseInt(PadTwo(n)) == n
  {
    DecimalLength(n);
    var f := PadTwo(n);
    if n < 10 {
      assert f == ['0', DigitChar(n)];
      assert f[..1] == ['0'] && ['0'][..0] == [];
      assert IsDecimal(f);
      assert ParseRadix(['0'], 10) == 0;
      assert DigitValue(DigitChar(n)) == n;
    } else {
      DecimalDigits(ToRadix(n, 10));
      ParseToRadix(n, 10);
    }
  }

  // ---------------------------------------------------------------------------
  // Splitting and joining

  /** The number of occurrences of `c` in `s`. */
  function Count(s: string, c: char): nat
  {
    if s == [] then 0 else (if s[0] == c then 1 else 0) + Count(s[1..], c)
  }

  /**
   * `s.split(sep)` for a one-character separator: the pieces between the
   * separators, with an empty piece wherever two separators touch or one
   * stands at either end. The empty string gives one empty piece.
   */
  function Split(s: string, sep: char): (r: seq<string>)
    ensures |r| == Count(s, sep) + 1
    ensures forall i :: 0 <= i < |r| ==> sep !in r[i]
    decreases |s|
  {
    if s == [] then [[]]
    else
      var rest := Split(s[1..], sep);
      if s[0] == sep then [[]] + rest
      else [[s[0]] + rest[0]] + rest[1..]
  }

  /** `words.join(sep)` for a one-character separator. */
  function Join(words: seq<string>, sep: char): string
  {
    if |words| == 0 then []
    else if |words| == 1 then words[0]
    else words[0] + [sep] + Join(words[1..], sep)
  }

  /** Joining the pieces of a split with the same separator gives the string back. */
  lemma {:induction false} JoinSplit(s: string, sep: char)
    ensures Join(Split(s, sep), sep) == s
    decreases |s|
  {
    if s != [] {
      var rest := Split(s[1..], sep);
      JoinSplit(s[1..], sep);
      if s[0] == sep {
        assert Split(s, sep) == [[]] + rest;
      } else {
        var r := Split(s, sep);
        assert r == [[s[0]] + rest[0]] + rest[1..];
        if |rest| == 1 {
          assert Join(rest, sep) == rest[0];
        } else {
          assert rest == [rest[0]] + rest[1..];
          assert Join(rest, sep) == rest[0] + [sep] + Join(rest[1..], sep);
          assert r[1..] == rest[1..];
        }
      }
    }
  }

  /** Splitting a word free of the separator, followed by more text, extends the first piece. */
  lemma {:induction false} SplitAfterWord(w: string, t: string, sep: char)
    requires sep !in w
    ensures Split(w + t, sep) == [w + Split(t, sep)[0]] + Split(t, sep)[1..]
    decreases |w|
  {
    if w != [] {
      assert (w + t)[1..] == w[1..] + t;
      assert w[0] != sep;
      SplitAfterWord(w[1..], t, sep);
      assert [w[0]] + (w[1..] + Split(t, sep)[0]) == w + Split(t, sep)[0];
    } else {
      assert w + t == t;
      assert w + Split(t, sep)[0] == Split(t, sep)[0];
      assert [Split(t, sep)[0]] + Split(t, sep)[1..] == Split(t, sep);
    }
  }

  /** Splitting words joined by a separator they do not contain gives the words back. */
  lemma {:induction false} SplitJoin(words: seq<string>, sep: char)
    requires |words| >= 1
    requires forall i :: 0 <= i < |words| ==> sep !in words[i]
    ensures Split(Join(words, sep), sep) == words
    decreases |words|
  {
    if |words| == 1 {
      SplitAfterWord(words[0], [], sep);
      assert words[0] + [] == words[0];
    } else {
      var tail := Join(words[1..], sep);
      SplitJoin(words[1..], sep);
      assert words[0] + [sep] + tail == words[0] + ([sep] + tail);
      SplitAfterWord(words[0], [sep] + tail, sep);
      assert ([sep] + tail)[1..] == tail;
      assert Split([sep] + tail, sep) == [[]] + words[1..];
      assert words[0] + [] == words[0];
    }
  }

  /** `s.split("")`: one single-character string per character. */
  function Chars(s: string): (r: seq<string>)
    ensures |r| == |s|
    ensures forall i :: 0 <= i < |s| ==> r[i] == [s[i]]
  {
    seq(|s|, i requires 0 <= i < |s| => [s[i]])
  }

  /** The strings of `words` written one after another. */
  function Concat(words: seq<string>): string
  {
    if words == [] then [] else words[0] + Concat(words[1..])
  }

  /** Writing out the single characters of `s` in order gives `s` back. */
  lemma {:induction false} ConcatChars(s: string)
    ensures Concat(Chars(s)) == s
    decreases |s|
  {
    if s != [] {
      ConcatChars(s[1..]);
      assert Chars(s)[1..] == Chars(s[1..]);
      assert [s[0]] + s[1..] == s;
    }
  }
}
