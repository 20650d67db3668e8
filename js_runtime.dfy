/**
 * The JavaScript built-ins that the portal's logic relies on, restricted to
 * the inputs it meets: String.prototype.split with a non-empty separator,
 * Number() on a string, String.prototype.trim, toUpperCase, the removal of
 * non-digits done by `replace(/\D/g, '')`, Math.floor and Math.ceil of a
 * quotient, and the decimal rendering of an integer inside a template literal.
 */
module JsRuntime {

  datatype Option<+T> = None | Some(value: T)

  /** How a JavaScript evaluation ends: with a value, or by throwing. */
  datatype Completion<+T> = Normal(value: T) | Throw

  // ---------------------------------------------------------------------
  // String.prototype.split(sep) for a non-empty separator

  /** `sep` occurs in `s` at position `i`. */
  predicate OccursAt(s: string, sep: string, i: nat)
  {
    i + |sep| <= |s| && s[i..i + |sep|] == sep
  }

  /** The first position at or after `from` where `sep` occurs in `s`. */
  function IndexOfFrom(s: string, sep: string, from: nat): (r: Option<nat>)
    requires |sep| > 0
    decreases |s| - from
    ensures r.Some? ==> from <= r.value && OccursAt(s, sep, r.value)
    ensures r.Some? ==> forall i :: from <= i < r.value ==> !OccursAt(s, sep, i)
    ensures r.None? ==> forall i :: from <= i ==> !OccursAt(s, sep, i)
  {
    if from + |sep| > |s| then None
    else if s[from..from + |sep|] == sep then Some(from)
    else IndexOfFrom(s, sep, from + 1)
  }

  /** `s.split(sep)`: the pieces between the non-overlapping occurrences of `sep`, left to right. */
  function Split(s: string, sep: string): (parts: seq<string>)
    requires |sep| > 0
    decreases |s|
    ensures |parts| >= 1
  {
    match IndexOfFrom(s, sep, 0)
    case None => [s]
    case Some(i) => [s[..i]] + Split(s[i + |sep|..], sep)
  }

  /** `parts.join(sep)`. */
  function Join(parts: seq<string>, sep: string): string
  {
    if |parts| == 0 then ""
    else if |parts| == 1 then parts[0]
    else parts[0] + sep + Join(parts[1..], sep)
  }

  lemma JoinCons(a: string, tail: seq<string>, sep: string)
    requires |tail| >= 1
    ensures Join([a] + tail, sep) == a + sep + Join(tail, sep)
  {
    assert ([a] + tail)[1..] == tail;
  }

  /** Joining the pieces of a split with the same separator gives the string back. */
  lemma {:induction false} JoinSplit(s: string, sep: string)
    requires |sep| > 0
    ensures Join(Split(s, sep), sep) == s
    decreases |s|
  {
    var r := IndexOfFrom(s, sep, 0);
    if r.Some? {
      var i := r.value;
      var a, rest := s[..i], s[i + |sep|..];
      assert Split(s, sep) == [a] + Split(rest, sep);
      JoinSplit(rest, sep);
      JoinCons(a, Split(rest, sep), sep);
      assert s == a + s[i..i + |sep|] + rest;
    }
  }

  /** No piece of a split contains the separator. */
  lemma {:induction false} SplitPiecesAvoidSeparator(s: string, sep: string, k: nat, j: nat)
    requires |sep| > 0
    requires k < |Split(s, sep)|
    ensures !OccursAt(Split(s, sep)[k], sep, j)
    decreases |s|
  {
    match IndexOfFrom(s, sep, 0)
    case None =>
    case Some(i) =>
      if k == 0 {
        var piece := s[..i];
        if OccursAt(piece, sep, j) {
          assert s[j..j + |sep|] == piece[j..j + |sep|];
          assert OccursAt(s, sep, j);
          assert false;
        }
      } else {
        SplitPiecesAvoidSeparator(s[i + |sep|..], sep, k - 1, j);
      }
  }

  /** When `sep` does not occur before position |a| of `a + sep + b`, the split cuts there first. */
  lemma SplitFirstCut(a: string, sep: string, b: string)
    requires |sep| > 0
    requires forall i :: 0 <= i < |a| ==> !OccursAt(a + sep + b, sep, i)
    ensures Split(a + sep + b, sep) == [a] + Split(b, sep)
  {
    var s := a + sep + b;
    assert s[|a|..|a| + |sep|] == sep;
    assert OccursAt(s, sep, |a|);
    var r := IndexOfFrom(s, sep, 0);
    assert r == Some(|a|);
    assert s[..|a|] == a;
    assert s[|a| + |sep|..] == b;
  }

  /** A string in which `sep` never occurs splits into itself alone. */
  lemma SplitWithoutSeparator(s: string, sep: string)
    requires |sep| > 0
    requires forall i :: 0 <= i ==> !OccursAt(s, sep, i)
    ensures Split(s, sep) == [s]
  {
  }

  /** A one-character separator occurs only where that character stands. */
  lemma CharSeparatorOccurs(s: string, c: char, i: nat)
    ensures OccursAt(s, [c], i) <==> i < |s| && s[i] == c
  {
    if i < |s| && s[i] == c {
      assert s[i..i + 1] == [c];
    }
  }

  // ---------------------------------------------------------------------
  // Number(str) on strings of decimal digits

  predicate IsDigit(c: char)
  {
    '0' <= c <= '9'
  }

  predicate AllDigits(s: string)
  {
    forall i :: 0 <= i < |s| ==> IsDigit(s[i])
  }

  function DigitValue(c: char): nat
    requires IsDigit(c)
  {
    (c as int - '0' as int) as nat
  }

  function DigitChar(d: nat): (c: char)
    requires d < 10
    ensures IsDigit(c) && DigitValue(c) == d
  {
    ('0' as int + d) as char
  }

  /** The value of a string of decimal digits; the empty string is 0, as for Number(""). */
  function DigitsValue(s: string): nat
    requires AllDigits(s)
  {
    if |s| == 0 then 0
    else DigitsValue(s[..|s| - 1]) * 10 + DigitValue(s[|s| - 1])
  }

  /**
   * Number(s) for the strings the portal parses: a string of decimal digits
   * (possibly empty) has its decimal value, anything else is NaN (None).
   */
  function ToNumber(s: string): (r: Option<nat>)
    ensures r.Some? <==> AllDigits(s)
  {
    if AllDigits(s) then Some(DigitsValue(s)) else None
  }

  // ---------------------------------------------------------------------
  // Decimal rendering, as `${n}` does for an integer

  function NatToString(n: nat): (s: string)
    ensures |s| >= 1 && AllDigits(s)
    decreases n
  {
    if n < 10 then [DigitChar(n)]
    else NatToString(n / 10) + [DigitChar(n % 10)]
  }

  function IntToString(i: int): string
  {
    if i < 0 then "-" + NatToString(-i) else NatToString(i)
  }

  /** Number() reads back what `${n}` wrote. */
  lemma {:induction false} NumberOfNatToString(n: nat)
    ensures ToNumber(NatToString(n)) == Some(n)
    decreases n
  {
    var s := NatToString(n);
    if n < 10 {
      assert s[..0] == [];
    } else {
      NumberOfNatToString(n / 10);
      assert s[..|s| - 1] == NatToString(n / 10);
      assert DigitsValue(s) == DigitsValue(NatToString(n / 10)) * 10 + n % 10;
    }
  }

  /** Two-digit zero padding, as in the clock strings "09:00 AM". */
  function Pad2(n: nat): (s: string)
    requires n < 100
    ensures |s| == 2 && AllDigits(s)
  {
    [DigitChar(n / 10), DigitChar(n % 10)]
  }

  lemma NumberOfPad2(n: nat)
    requires n < 100
    ensures ToNumber(Pad2(n)) == Some(n)
  {
    var s := Pad2(n);
    assert s[..1] == [DigitChar(n / 10)];
    assert s[..1][..0] == [];
    assert DigitsValue(s[..1]) == n / 10;
    assert DigitsValue(s) == (n / 10) * 10 + n % 10;
  }

  // ---------------------------------------------------------------------
  // Math.floor and Math.ceil of an integer quotient

  /** Math.floor(x / d); Dafny's `/` already rounds toward negative infinity for d > 0. */
  function FloorDiv(x: int, d: int): (q: int)
    requires d > 0
    ensures q * d <= x < (q + 1) * d
  {
    x / d
  }

  /** Math.ceil(x / d). */
  function CeilDiv(x: int, d: int): (q: int)
    requires d > 0
    ensures (q - 1) * d < x <= q * d
  {
    -((-x) / d)
  }

  // ---------------------------------------------------------------------
  // String.prototype.trim, toUpperCase and replace(/\D/g, '')

  /** The WhiteSpace and LineTerminator code points that trim removes. */
  predicate IsJsWhitespace(c: char)
  {
    c == '\U{9}' || c == '\U{A}' || c == '\U{B}' || c == '\U{C}' || c == '\U{D}'
    || c == '\U{20}' || c == '\U{A0}' || c == '\U{1680}' || ('\U{2000}' <= c <= '\U{200A}')
    || c == '\U{2028}' || c == '\U{2029}' || c == '\U{202F}' || c == '\U{205F}'
    || c == '\U{3000}' || c == '\U{FEFF}'
  }

  function TrimStart(s: string): (r: string)
    ensures |r| > 0 ==> !IsJsWhitespace(r[0])
  {
    if |s| > 0 && IsJsWhitespace(s[0]) then TrimStart(s[1..]) else s
  }

  function TrimEnd(s: string): string
  {
    if |s| > 0 && IsJsWhitespace(s[|s| - 1]) then TrimEnd(s[..|s| - 1]) else s
  }

  function Trim(s: string): string
  {
    TrimEnd(TrimStart(s))
  }

  predicate AllWhitespace(s: string)
  {
    forall i :: 0 <= i < |s| ==> IsJsWhitespace(s[i])
  }

  lemma {:induction false} TrimStartEmpty(s: string)
    ensures TrimStart(s) == "" <==> AllWhitespace(s)
  {
    if |s| > 0 && IsJsWhitespace(s[0]) {
      TrimStartEmpty(s[1..]);
      assert AllWhitespace(s[1..]) ==> AllWhitespace(s) by {
        if AllWhitespace(s[1..]) {
          forall i | 0 <= i < |s| ensures IsJsWhitespace(s[i]) {
            if i > 0 { assert s[i] == s[1..][i - 1]; }
          }
        }
      }
    }
  }

  lemma {:induction false} TrimEndKeepsContent(s: string)
    ensures TrimEnd(s) == "" <==> AllWhitespace(s)
  {
    if |s| > 0 && IsJsWhitespace(s[|s| - 1]) {
      var p := s[..|s| - 1];
      TrimEndKeepsContent(p);
      assert AllWhitespace(p) ==> AllWhitespace(s) by {
        if AllWhitespace(p) {
          forall i | 0 <= i < |s| ensures IsJsWhitespace(s[i]) {
            if i < |s| - 1 { assert s[i] == p[i]; }
          }
        }
      }
    }
  }

  /** `!s.trim()` holds exactly when every character of `s` is white space. */
  lemma TrimEmptyIff(s: string)
    ensures Trim(s) == "" <==> AllWhitespace(s)
  {
    TrimStartEmpty(s);
    TrimEndKeepsContent(TrimStart(s));
  }

  function UpperChar(c: char): char
  {
    if 'a' <= c <= 'z' then (c as int - 32) as char else c
  }

  /** toUpperCase on the ASCII letters. */
  function ToUpperCase(s: string): (r: string)
    ensures |r| == |s|
    ensures forall i :: 0 <= i < |s| ==> r[i] == UpperChar(s[i])
  {
    if |s| == 0 then "" else [UpperChar(s[0])] + ToUpperCase(s[1..])
  }

  /** `s.replace(/\D/g, '')`: the decimal digits of `s`, in order. */
  function StripNonDigits(s: string): (r: string)
    ensures AllDigits(r) && |r| <= |s|
    ensures AllDigits(s) ==> r == s
    ensures IsSublist(r, s)
    ensures forall c :: multiset(r)[c] == if IsDigit(c) then multiset(s)[c] else 0
  {
    if |s| == 0 then ""
    else
      var rest := StripNonDigits(s[1..]);
      assert s == [s[0]] + s[1..];
      if IsDigit(s[0]) then
        assert ([s[0]] + rest)[1..] == rest;
        [s[0]] + rest
      else
        SublistSkip(rest, s);
        rest
  }

  /** A sublist of the tail is a sublist of the whole. */
  lemma SublistSkip<T>(a: seq<T>, b: seq<T>)
    requires |b| > 0 && IsSublist(a, b[1..])
    ensures IsSublist(a, b)
  {
  }

  // ---------------------------------------------------------------------
  // What Array.prototype.filter returns

  /** `a` is `b` with some elements left out and the rest in their order. */
  predicate IsSublist<T(==)>(a: seq<T>, b: seq<T>)
    decreases |b|
  {
    if |a| == 0 then true
    else if |b| == 0 then false
    else (a[0] == b[0] && IsSublist(a[1..], b[1..])) || IsSublist(a, b[1..])
  }
}
