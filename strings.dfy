/** String helpers whose JavaScript behaviour the components rely on:
    `String.prototype.split` on a one-character separator (and the join it
    inverts), `String(n)` for a non-negative integer, the reading of a
    property key as an array index, and `padStart`. */
module Strings {
  import opened Wrappers

  // ---------------------------------------------------------------------------
  // split / join on a single separator character
  // ---------------------------------------------------------------------------

  /** `s.split(sep)`: the pieces between the separators, in order. An empty
      string gives one empty piece, and every separator adds one piece. */
  function Split(s: string, sep: char): (parts: seq<string>)
    ensures |parts| >= 1
    ensures forall i :: 0 <= i < |parts| ==> sep !in parts[i]
  {
    if s == [] then [[]]
    else
      var rest := Split(s[1..], sep);
      if s[0] == sep then [[]] + rest
      else [[s[0]] + rest[0]] + rest[1..]
  }

  /** `parts.join(sep)`. */
  function Join(parts: seq<string>, sep: char): string
    requires |parts| >= 1
  {
    if |parts| == 1 then parts[0] else parts[0] + [sep] + Join(parts[1..], sep)
  }

  lemma {:induction false} JoinConsHead(c: char, p: string, tail: seq<string>, sep: char)
    ensures Join([[c] + p] + tail, sep) == [c] + Join([p] + tail, sep)
  {
    var xs, ys := [[c] + p] + tail, [p] + tail;
    assert xs[1..] == tail == ys[1..];
  }

  lemma {:induction false} JoinEmptyHead(rest: seq<string>, sep: char)
    requires |rest| >= 1
    ensures Join([[]] + rest, sep) == [sep] + Join(rest, sep)
  {
    assert ([[]] + rest)[1..] == rest;
  }

  /** Joining the pieces of a split gives back the original string. */
  lemma {:induction false} JoinSplit(s: string, sep: char)
    ensures Join(Split(s, sep), sep) == s
  {
    if s != [] {
      var rest := Split(s[1..], sep);
      JoinSplit(s[1..], sep);
      assert s == [s[0]] + s[1..];
      if s[0] == sep {
        JoinEmptyHead(rest, sep);
      } else {
        JoinConsHead(s[0], rest[0], rest[1..], sep);
        assert [rest[0]] + rest[1..] == rest;
      }
    }
  }

  /** Splitting a string that starts with a separator-free prefix `p`. */
  lemma {:induction false} SplitPrefix(p: string, t: string, sep: char)
    requires sep !in p
    ensures Split(p + t, sep) == [p + Split(t, sep)[0]] + Split(t, sep)[1..]
  {
    if p != [] {
      SplitPrefix(p[1..], t, sep);
      assert (p + t)[1..] == p[1..] + t;
      assert [p[0]] + (p[1..] + Split(t, sep)[0]) == p + Split(t, sep)[0];
    } else {
      var q := Split(t, sep);
      assert p + t == t && p + q[0] == q[0];
      assert [q[0]] + q[1..] == q;
    }
  }

  /** Splitting a join of separator-free pieces gives back the pieces. */
  lemma {:induction false} SplitJoin(parts: seq<string>, sep: char)
    requires |parts| >= 1
    requires forall i :: 0 <= i < |parts| ==> sep !in parts[i]
    ensures Split(Join(parts, sep), sep) == parts
  {
    if |parts| == 1 {
      SplitPrefix(parts[0], [], sep);
      assert parts[0] + [] == parts[0];
    } else {
      var tail := Join(parts[1..], sep);
      SplitJoin(parts[1..], sep);
      SplitPrefix(parts[0], [sep] + tail, sep);
      assert parts[0] + [sep] + tail == parts[0] + ([sep] + tail);
      var q := Split([sep] + tail, sep);
      assert q == [[]] + parts[1..] by {
        assert ([sep] + tail)[1..] == tail;
      }
      assert q[0] == [] && q[1..] == parts[1..];
      assert parts[0] + q[0] == parts[0];
      assert Join(parts, sep) == parts[0] + ([sep] + tail);
      assert parts == [parts[0]] + parts[1..];
    }
  }

  /** A separator-free first segment splits off as the first piece. */
  lemma {:induction false} SplitCons(a: string, rest: string, sep: char)
    requires sep !in a
    ensures Split(a + [sep] + rest, sep) == [a] + Split(rest, sep)
  {
    var t := [sep] + rest;
    assert a + [sep] + rest == a + t;
    SplitPrefix(a, t, sep);
    assert t[1..] == rest;
    assert Split(t, sep) == [[]] + Split(rest, sep);
    assert a + [] == a;
  }

  /** A separator-free string is a single piece. */
  lemma {:induction false} SplitOne(a: string, sep: char)
    requires sep !in a
    ensures Split(a, sep) == [a]
  {
    SplitPrefix(a, [], sep);
    assert a + [] == a;
  }

  /** A key made of two separator-free segments splits into those two. */
  lemma {:induction false} SplitTwo(a: string, b: string, sep: char)
    requires sep !in a && sep !in b
    ensures Split(a + [sep] + b, sep) == [a, b]
  {
    SplitCons(a, b, sep);
    SplitOne(b, sep);
  }

  /** A key made of three separator-free segments splits into those three. */
  lemma {:induction false} SplitThree(a: string, b: string, c: string, sep: char)
    requires sep !in a && sep !in b && sep !in c
    ensures Split(a + [sep] + b + [sep] + c, sep) == [a, b, c]
  {
    assert a + [sep] + b + [sep] + c == a + [sep] + (b + [sep] + c);
    SplitCons(a, b + [sep] + c, sep);
    SplitTwo(b, c, sep);
  }

  /** A key made of four separator-free segments splits into those four. */
  lemma {:induction false} SplitFour(a: string, b: string, c: string, d: string, sep: char)
    requires sep !in a && sep !in b && sep !in c && sep !in d
    ensures Split(a + [sep] + b + [sep] + c + [sep] + d, sep) == [a, b, c, d]
  {
    assert a + [sep] + b + [sep] + c + [sep] + d == a + [sep] + (b + [sep] + c + [sep] + d);
    SplitCons(a, b + [sep] + c + [sep] + d, sep);
    SplitThree(b, c, d, sep);
  }

  // ---------------------------------------------------------------------------
  // decimal digits
  // ---------------------------------------------------------------------------

  predicate IsDigit(c: char) {
    '0' <= c <= '9'
  }

  predicate AllDigits(s: string) {
    forall i :: 0 <= i < |s| ==> IsDigit(s[i])
  }

  function DigitChar(d: nat): (c: char)
    requires d < 10
    ensures IsDigit(c)
  {
    "0123456789"[d]
  }

  function DigitValue(c: char): (d: nat)
    requires IsDigit(c)
    ensures d < 10
  {
    (c as int - '0' as int) as nat
  }

  lemma DigitRoundTrip(d: nat)
    requires d < 10
    ensures DigitValue(DigitChar(d)) == d
  {
  }

  /** The number a string of digits denotes; leading zeros add nothing. */
  function DigitsValue(s: string): nat
    requires AllDigits(s)
  {
    if s == [] then 0 else DigitsValue(s[..|s| - 1]) * 10 + DigitValue(s[|s| - 1])
  }

  /** The decimal digits without a superfluous leading zero: what `String(n)`
      produces, and what JavaScript accepts as an array index. */
  predicate IsCanonicalDecimal(s: string) {
    s != [] && AllDigits(s) && (s[0] == '0' ==> |s| == 1)
  }

  /** `String(n)` for a non-negative integer. */
  function NatToString(n: nat): (s: string)
    ensures IsCanonicalDecimal(s)
    ensures DigitsValue(s) == n
  {
    if n < 10 then [DigitChar(n)]
    else
      var prefix := NatToString(n / 10);
      var s := prefix + [DigitChar(n % 10)];
      assert s[..|s| - 1] == prefix;
      s
  }

  lemma {:induction false} LeadingDigitPositive(s: string)
    requires IsCanonicalDecimal(s) && s[0] != '0'
    ensures DigitsValue(s) > 0
  {
    if |s| > 1 {
      var p := s[..|s| - 1];
      LeadingDigitPositive(p);
    }
  }

  /** The last digit of a string of digits is its value modulo ten, and the
      rest is the value of the prefix. */
  lemma {:induction false} LastDigit(s: string)
    requires AllDigits(s) && s != []
    ensures DigitsValue(s) / 10 == DigitsValue(s[..|s| - 1])
    ensures DigitsValue(s) % 10 == DigitValue(s[|s| - 1])
    ensures s == s[..|s| - 1] + [DigitChar(DigitValue(s[|s| - 1]))]
  {
    assert DigitChar(DigitValue(s[|s| - 1])) == s[|s| - 1];
  }

  /** A canonical decimal string is the rendering of the number it denotes,
      so two different canonical strings never denote the same number. */
  lemma {:induction false} CanonicalDecimalRoundTrip(s: string)
    requires IsCanonicalDecimal(s)
    ensures NatToString(DigitsValue(s)) == s
  {
    LastDigit(s);
    if |s| == 1 {
      assert s[..0] == [];
    } else {
      var p := s[..|s| - 1];
      LeadingDigitPositive(p);
      CanonicalDecimalRoundTrip(p);
    }
  }

  /** The array index a property key names: the key must be the canonical
      decimal rendering of a number (so "01" and "" are not indexes). */
  function ParseIndex(k: string): (r: Option<nat>)
    ensures r.Some? <==> IsCanonicalDecimal(k)
  {
    if IsCanonicalDecimal(k) then Some(DigitsValue(k)) else None
  }

  /** Rendering a number and reading it back as an index gives the number. */
  lemma IndexRoundTrip(n: nat)
    ensures ParseIndex(NatToString(n)) == Some(n)
  {
  }

  /** An index key is exactly the rendering of the index it names. */
  lemma IndexKeyIsRendering(k: string, n: nat)
    requires ParseIndex(k) == Some(n)
    ensures k == NatToString(n)
  {
    CanonicalDecimalRoundTrip(k);
  }

  // ---------------------------------------------------------------------------
  // padStart
  // ---------------------------------------------------------------------------

  function Repeat(c: char, n: nat): (r: string)
    ensures |r| == n && forall i :: 0 <= i < n ==> r[i] == c
  {
    if n == 0 then [] else [c] + Repeat(c, n - 1)
  }

  /** `s.padStart(width, fill)` for a one-character fill. */
  function PadStart(s: string, width: nat, fill: char): (r: string)
    ensures |r| == if |s| >= width then |s| else width
    ensures r[|r| - |s|..] == s
    ensures forall i :: 0 <= i < |r| - |s| ==> r[i] == fill
  {
    if |s| >= width then s else Repeat(fill, width - |s|) + s
  }

  lemma {:induction false} LeadingZerosAddNothing(z: string, s: string)
    requires forall i :: 0 <= i < |z| ==> z[i] == '0'
    requires AllDigits(s)
    ensures AllDigits(z + s)
    ensures DigitsValue(z + s) == DigitsValue(s)
  {
    if s == [] {
      assert z + s == z;
      if z != [] {
        LeadingZerosAddNothing(z[..|z| - 1], []);
        assert z[..|z| - 1] + [] == z[..|z| - 1];
      }
    } else {
      var p := s[..|s| - 1];
      LeadingZerosAddNothing(z, p);
      assert (z + s)[..|z + s| - 1] == z + p;
    }
  }

  /** `String(n).padStart(2, "0")`: at least two characters, and still the
      decimal rendering of `n`. */
  function PadTwo(n: nat): (r: string)
    ensures |r| >= 2
    ensures AllDigits(r) && DigitsValue(r) == n
    ensures n >= 10 ==> r == NatToString(n)
    ensures n < 10 ==> r == ['0', DigitChar(n)]
  {
    var s := NatToString(n);
    var r := PadStart(s, 2, '0');
    LeadingZerosAddNothing(r[..|r| - |s|], s);
    assert r == r[..|r| - |s|] + s;
    r
  }
}
