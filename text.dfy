/** The Python string operations the runner relies on: `str.split()` with no argument,
    `" ".join(...)`, substring `in`, `str(int)`, `str.split(sep)` and `str.lower()`. */
module Text {

  /** The characters Python's `str.split()` treats as separators (`str.isspace`). */
  predicate IsSpace(c: char) {
    || c == ' ' || c == '\t' || c == '\n' || c == '\r'
    || c == '\U{B}' || c == '\U{C}'
    || ('\U{1C}' <= c <= '\U{1F}')
    || c == '\U{85}' || c == '\U{A0}' || c == '\U{1680}'
    || ('\U{2000}' <= c <= '\U{200A}')
    || c == '\U{2028}' || c == '\U{2029}' || c == '\U{202F}' || c == '\U{205F}' || c == '\U{3000}'
  }

  /** A token as `str.split()` produces it: non-empty, with no separator inside. */
  predicate IsWord(s: string) {
    |s| > 0 && forall i :: 0 <= i < |s| ==> !IsSpace(s[i])
  }

  /** The length of the run of non-separator characters at the front of `s`. */
  function WordEnd(s: string): (n: nat)
    ensures n <= |s|
    ensures forall i :: 0 <= i < n ==> !IsSpace(s[i])
    ensures n < |s| ==> IsSpace(s[n])
  {
    if |s| == 0 || IsSpace(s[0]) then 0 else 1 + WordEnd(s[1..])
  }

  /** Python's `s.split()`: the maximal runs of non-separator characters, in order. */
  function Split(s: string): (r: seq<string>)
    ensures forall k :: 0 <= k < |r| ==> IsWord(r[k])
    decreases |s|
  {
    if |s| == 0 then []
    else if IsSpace(s[0]) then Split(s[1..])
    else
      var n := WordEnd(s);
      [s[..n]] + Split(s[n..])
  }

  /** Python's `sep.join(parts)`. */
  function Join(sep: string, parts: seq<string>): string {
    if |parts| == 0 then ""
    else if |parts| == 1 then parts[0]
    else parts[0] + sep + Join(sep, parts[1..])
  }

  /** The tokens of every part, one part after the other. */
  function SplitAll(parts: seq<string>): seq<string> {
    if |parts| == 0 then [] else Split(parts[0]) + SplitAll(parts[1..])
  }

  /** Every character is printable ASCII other than the space. */
  predicate Visible(w: string) {
    |w| == 0 || ('!' <= w[0] <= '~' && Visible(w[1..]))
  }

  /** Printable ASCII other than the space is never a separator. */
  lemma {:induction false} VisibleWord(w: string)
    requires |w| > 0 && Visible(w)
    ensures IsWord(w)
  {
    if |w| > 1 {
      VisibleWord(w[1..]);
      assert forall i :: 1 <= i < |w| ==> w[i] == w[1..][i - 1];
    }
  }

  lemma SplitAllOne(x: string)
    ensures SplitAll([x]) == Split(x)
  {
    assert [x][1..] == [];
  }

  /** One more piece at the front adds its own tokens at the front. */
  lemma SplitAllCons(x: string, rest: seq<string>)
    ensures SplitAll([x] + rest) == Split(x) + SplitAll(rest)
  {
    SplitAllAppend([x], rest);
    SplitAllOne(x);
  }

  /** One more piece at the end adds its own tokens at the end. */
  lemma SplitAllSnoc(a: seq<string>, x: string)
    ensures SplitAll(a + [x]) == SplitAll(a) + Split(x)
  {
    SplitAllAppend(a, [x]);
    SplitAllOne(x);
  }

  /** Two more single-word pieces at the end are two more tokens at the end. */
  lemma SplitAllSnocWords(a: seq<string>, x: string, y: string)
    requires IsWord(x) && IsWord(y)
    ensures SplitAll(a + [x, y]) == SplitAll(a) + [x, y]
  {
    SplitAllAppend(a, [x, y]);
    SplitAllWords([x, y]);
  }

  lemma SplitWord(w: string)
    requires IsWord(w)
    ensures Split(w) == [w]
  {
    assert !IsSpace(w[0]);
    assert WordEnd(w) == |w|;
    assert w[..|w|] == w;
    assert w[|w|..] == [];
  }

  /** A separator at the front of the rest does not change the first word. */
  lemma {:induction false} WordEndBeforeSpace(a: string, t: string)
    requires |t| > 0 && IsSpace(t[0])
    ensures WordEnd(a + t) == WordEnd(a)
    decreases |a|
  {
    if |a| > 0 && !IsSpace(a[0]) {
      assert (a + t)[1..] == a[1..] + t;
      WordEndBeforeSpace(a[1..], t);
    }
  }

  /** Splitting text glued with a single space is splitting each side. */
  lemma {:induction false} SplitSpaced(a: string, b: string)
    ensures Split(a + " " + b) == Split(a) + Split(b)
    decreases |a|
  {
    var s := a + " " + b;
    if |a| == 0 {
      assert s[1..] == b;
    } else if IsSpace(a[0]) {
      assert s[1..] == a[1..] + " " + b;
      SplitSpaced(a[1..], b);
    } else {
      assert s == a + (" " + b);
      WordEndBeforeSpace(a, " " + b);
      var n := WordEnd(a);
      assert s[..n] == a[..n];
      assert s[n..] == a[n..] + " " + b;
      SplitSpaced(a[n..], b);
    }
  }

  /** `" ".join(parts).split()` is the tokens of the parts, in order. */
  lemma {:induction false} SplitJoin(parts: seq<string>)
    ensures Split(Join(" ", parts)) == SplitAll(parts)
  {
    if |parts| == 1 {
      assert SplitAll(parts[1..]) == [];
    } else if |parts| > 1 {
      SplitSpaced(parts[0], Join(" ", parts[1..]));
      SplitJoin(parts[1..]);
    }
  }

  lemma {:induction false} SplitAllAppend(a: seq<string>, b: seq<string>)
    ensures SplitAll(a + b) == SplitAll(a) + SplitAll(b)
  {
    if |a| == 0 {
      assert a + b == b;
    } else {
      assert (a + b)[0] == a[0] && (a + b)[1..] == a[1..] + b;
      assert SplitAll(a[1..] + b) == SplitAll(a[1..]) + SplitAll(b) by {
        SplitAllAppend(a[1..], b);
      }
      assert Split(a[0]) + (SplitAll(a[1..]) + SplitAll(b)) == Split(a[0]) + SplitAll(a[1..]) + SplitAll(b);
    }
  }

  /** Words split back into themselves. */
  lemma {:induction false} SplitAllWords(ws: seq<string>)
    requires forall k :: 0 <= k < |ws| ==> IsWord(ws[k])
    ensures SplitAll(ws) == ws
  {
    if |ws| > 0 {
      SplitWord(ws[0]);
      SplitAllWords(ws[1..]);
    }
  }

  /** Single words joined with spaces split back into those words. */
  lemma SplitJoinWords(ws: seq<string>)
    requires forall k :: 0 <= k < |ws| ==> IsWord(ws[k])
    ensures Split(Join(" ", ws)) == ws
  {
    SplitJoin(ws);
    SplitAllWords(ws);
  }

  /** Text glued to the front of a join is glued to its first part. */
  lemma JoinGlued(sep: string, pre: string, parts: seq<string>)
    requires |parts| > 0
    ensures pre + Join(sep, parts) == Join(sep, [pre + parts[0]] + parts[1..])
  {
    var glued := [pre + parts[0]] + parts[1..];
    if |parts| == 1 {
      assert glued == [pre + parts[0]];
    } else {
      var tail := Join(sep, parts[1..]);
      assert glued[1..] == parts[1..];
      calc {
        Join(sep, glued);
        glued[0] + sep + tail;
        (pre + parts[0]) + sep + tail;
        { assert (pre + parts[0]) + sep + tail == pre + (parts[0] + sep + tail); }
        pre + (parts[0] + sep + tail);
        pre + Join(sep, parts);
      }
    }
  }

  /** `needle` starts at position `i` of `hay`. */
  predicate OccursAt(hay: string, needle: string, i: nat)
    requires i + |needle| <= |hay|
  {
    hay[i..i + |needle|] == needle
  }

  /** Python's `needle in hay` on strings or bytes: a literal substring test. */
  predicate Contains(hay: string, needle: string) {
    exists i: nat :: i + |needle| <= |hay| && OccursAt(hay, needle, i)
  }

  lemma EmptyIsContained(hay: string)
    ensures Contains(hay, "")
  {
    assert OccursAt(hay, "", 0);
  }

  /** Nothing non-empty occurs in an empty output. */
  lemma NothingInEmpty(needle: string)
    ensures Contains("", needle) <==> needle == ""
  {
    if needle == "" { EmptyIsContained(""); }
  }

  function DigitChar(d: nat): (c: char)
    requires d < 10
    ensures '0' <= c <= '9'
    ensures DigitValue(c) == d
  {
    (d + '0' as int) as char
  }

  /** The value of a decimal digit character. */
  function DigitValue(c: char): nat
    requires '0' <= c <= '9'
  {
    c as int - '0' as int
  }

  /** The number a run of decimal digits denotes. */
  function DigitsValue(s: string): nat
    requires forall i :: 0 <= i < |s| ==> '0' <= s[i] <= '9'
  {
    if |s| == 0 then 0 else 10 * DigitsValue(s[..|s| - 1]) + DigitValue(s[|s| - 1])
  }

  /** The decimal digits of a natural number, with no leading zero. */
  function Digits(n: nat): (s: string)
    ensures |s| > 0
    ensures forall i :: 0 <= i < |s| ==> '0' <= s[i] <= '9'
    ensures s[0] == '0' <==> n == 0
  {
    if n < 10 then [DigitChar(n)] else Digits(n / 10) + [DigitChar(n % 10)]
  }

  /** The digits read back give the number. */
  lemma {:induction false} DigitsRoundTrip(n: nat)
    ensures DigitsValue(Digits(n)) == n
  {
    var s := Digits(n);
    if n >= 10 {
      DigitsRoundTrip(n / 10);
      assert s[..|s| - 1] == Digits(n / 10);
    }
  }

  /** Python's `str(n)` (and `f"{n}"`) for an integer: a minus sign exactly for negatives,
      then digits. */
  function Decimal(n: int): (s: string)
    ensures IsWord(s)
    ensures forall i :: 0 <= i < |s| ==> s[i] == '-' || '0' <= s[i] <= '9'
    ensures (s[0] == '-') <==> n < 0
    ensures forall i :: 0 < i < |s| ==> '0' <= s[i] <= '9'
  {
    if n < 0 then "-" + Digits(-n) else Digits(n)
  }

  /** `str(n)` read back as a sign and digits gives `n`, with no leading zero but in "0". */
  lemma DecimalRoundTrip(n: int)
    ensures var s := Decimal(n);
      var digits := if n < 0 then s[1..] else s;
      && (if n < 0 then -(DigitsValue(digits) as int) else DigitsValue(digits) as int) == n
      && (digits[0] == '0' <==> n == 0)
  {
    if n < 0 {
      assert Decimal(n)[1..] == Digits(-n);
      DigitsRoundTrip(-n);
    } else {
      DigitsRoundTrip(n);
    }
  }

  /** Python's `s.split(sep)` for a one-character separator: the pieces between separators,
      empty pieces included. */
  function SplitOn(s: string, sep: char): (r: seq<string>)
    ensures |r| > 0
    ensures forall k, i :: 0 <= k < |r| && 0 <= i < |r[k]| ==> r[k][i] != sep
    decreases |s|
  {
    var n := IndexOf(s, sep);
    if n == |s| then [s] else [s[..n]] + SplitOn(s[n + 1..], sep)
  }

  /** The position of the first `c` in `s`, or `|s|` if there is none. */
  function IndexOf(s: string, c: char): (n: nat)
    ensures n <= |s|
    ensures forall i :: 0 <= i < n ==> s[i] != c
    ensures n < |s| ==> s[n] == c
  {
    if |s| == 0 || s[0] == c then 0 else 1 + IndexOf(s[1..], c)
  }

  /** Joining the pieces of `s.split(sep)` with `sep` gives back `s`. */
  lemma {:induction false} JoinSplitOn(s: string, sep: char)
    ensures Join([sep], SplitOn(s, sep)) == s
    decreases |s|
  {
    var n := IndexOf(s, sep);
    if n < |s| {
      var head, tail := s[..n], s[n + 1..];
      var rest := SplitOn(tail, sep);
      assert SplitOn(s, sep) == [head] + rest;
      assert Join([sep], rest) == tail by {
        JoinSplitOn(tail, sep);
      }
      JoinCons([sep], head, rest);
      assert s == head + [sep] + tail;
    }
  }

  lemma JoinCons(sep: string, head: string, rest: seq<string>)
    requires |rest| > 0
    ensures Join(sep, [head] + rest) == head + sep + Join(sep, rest)
  {
    assert ([head] + rest)[1..] == rest;
  }

  /** Python's `str.lower()` on ASCII letters; other characters are left as they are. */
  function Lower(s: string): (r: string)
    ensures |r| == |s|
    ensures forall i :: 0 <= i < |s| ==> r[i] == if 'A' <= s[i] <= 'Z' then (s[i] as int + 32) as char else s[i]
  {
    if |s| == 0 then "" else [LowerChar(s[0])] + Lower(s[1..])
  }

  /** A string without upper-case ASCII letters is its own lower-case form. */
  lemma LowerOfLower(s: string)
    requires forall i :: 0 <= i < |s| ==> !('A' <= s[i] <= 'Z')
    ensures Lower(s) == s
  {
  }

  function LowerChar(c: char): char {
    if 'A' <= c <= 'Z' then (c as int + 32) as char else c
  }
}
