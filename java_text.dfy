/**
 * The java.lang.String and java.lang.Integer operations the binding relies on,
 * with the semantics of the Java platform written out.
 */
module JavaText {
  import opened Common

  /** True when `pat` occurs in `s` starting at index `i`. */
  predicate MatchesAt(s: string, pat: string, i: int)
  {
    0 <= i && i + |pat| <= |s| && s[i..i + |pat|] == pat
  }

  /** `s.indexOf(pat, from)`: the first index at or after `from` where `pat` occurs. */
  function IndexOfFrom(s: string, pat: string, from: nat): (r: Option<nat>)
    ensures r.Some? ==> from <= r.value && MatchesAt(s, pat, r.value)
    ensures r.Some? ==> forall j :: from <= j < r.value ==> !MatchesAt(s, pat, j)
    ensures r.None? ==> forall j :: from <= j ==> !MatchesAt(s, pat, j)
    decreases |s| - from
  {
    if from + |pat| > |s| then None
    else if s[from..from + |pat|] == pat then Some(from)
    else IndexOfFrom(s, pat, from + 1)
  }

  /** `s.indexOf(pat)`, with None for Java's -1. */
  function IndexOf(s: string, pat: string): (r: Option<nat>)
    ensures r.Some? ==> MatchesAt(s, pat, r.value)
    ensures r.Some? ==> forall j :: 0 <= j < r.value ==> !MatchesAt(s, pat, j)
    ensures r.None? ==> forall j :: !MatchesAt(s, pat, j)
  {
    IndexOfFrom(s, pat, 0)
  }

  /** `s.contains(pat)`. */
  predicate Contains(s: string, pat: string)
  {
    IndexOf(s, pat).Some?
  }

  /** `s.endsWith(suffix)`. */
  predicate EndsWith(s: string, suffix: string)
  {
    |suffix| <= |s| && s[|s| - |suffix|..] == suffix
  }

  /** A string in which the character `c` does not occur contains no `cc`. */
  lemma AbsentCharNotContained(s: string, c: char)
    requires c !in s
    ensures !Contains(s, [c, c])
  {
    forall j ensures !MatchesAt(s, [c, c], j) {
      if 0 <= j && j + 2 <= |s| {
        assert s[j] in s;
        assert s[j..j + 2][0] == s[j];
      }
    }
  }

  /**
   * When `c` does not occur in `f`, the first `cc` of `f + [c, c] + rest`
   * is the one right after `f`.
   */
  lemma {:induction false} FirstDoubleAfter(f: string, c: char, rest: string)
    requires c !in f
    ensures IndexOf(f + [c, c] + rest, [c, c]) == Some(|f|)
  {
    var s := f + [c, c] + rest;
    assert s[|f|..|f| + 2] == [c, c];
    assert MatchesAt(s, [c, c], |f|);
    forall j | 0 <= j < |f| ensures !MatchesAt(s, [c, c], j) {
      assert s[j] == f[j];
      assert f[j] in f;
      assert s[j..j + 2][0] == s[j];
    }
  }

  // ---------------------------------------------------------------------
  // String.split with a literal (regex-free) delimiter and the default limit 0

  /**
   * The pieces between the successive leftmost, non-overlapping occurrences
   * of `delim`, trailing empty pieces included.
   */
  function Pieces(s: string, delim: string): (r: seq<string>)
    requires delim != []
    ensures |r| >= 1
    ensures |r| == 1 <==> !Contains(s, delim)
    decreases |s|
  {
    match IndexOf(s, delim)
    case None => [s]
    case Some(i) => [s[..i]] + Pieces(s[i + |delim|..], delim)
  }

  /** Removes the empty strings at the end of `ps`. */
  function DropTrailingEmpty(ps: seq<string>): (r: seq<string>)
    ensures |r| <= |ps| && r == ps[..|r|]
    ensures r == [] || r[|r| - 1] != []
    ensures forall k :: |r| <= k < |ps| ==> ps[k] == []
  {
    if ps != [] && ps[|ps| - 1] == [] then DropTrailingEmpty(ps[..|ps| - 1]) else ps
  }

  /**
   * `s.split(delim)`: the string itself when the delimiter does not occur,
   * otherwise the pieces with every trailing empty piece removed.
   */
  function Split(s: string, delim: string): (r: seq<string>)
    requires delim != []
    ensures !Contains(s, delim) ==> r == [s]
    ensures Contains(s, delim) ==> r == DropTrailingEmpty(Pieces(s, delim))
  {
    if Contains(s, delim) then DropTrailingEmpty(Pieces(s, delim)) else [s]
  }

  // ---------------------------------------------------------------------
  // String.trim

  /** Characters `trim()` removes: every code point up to and including U+0020. */
  predicate IsTrimmable(c: char)
  {
    c <= ' '
  }

  function TrimStart(s: string): (r: string)
    ensures |r| <= |s| && r == s[|s| - |r|..]
    ensures r == [] || !IsTrimmable(r[0])
    ensures forall k :: 0 <= k < |s| - |r| ==> IsTrimmable(s[k])
  {
    if s != [] && IsTrimmable(s[0]) then TrimStart(s[1..]) else s
  }

  function TrimEnd(s: string): (r: string)
    ensures |r| <= |s| && r == s[..|r|]
    ensures r == [] || !IsTrimmable(r[|r| - 1])
    ensures forall k :: |r| <= k < |s| ==> IsTrimmable(s[k])
  {
    if s != [] && IsTrimmable(s[|s| - 1]) then TrimEnd(s[..|s| - 1]) else s
  }

  /**
   * `s.trim()`: the text between the first and the last character above
   * U+0020; empty when there is none.
   */
  function Trim(s: string): (r: string)
    ensures |r| <= |s|
    ensures r == [] || (!IsTrimmable(r[0]) && !IsTrimmable(r[|r| - 1]))
    ensures (forall k :: 0 <= k < |s| ==> IsTrimmable(s[k])) ==> r == []
    ensures s != [] && !IsTrimmable(s[0]) && !IsTrimmable(s[|s| - 1]) ==> r == s
  {
    TrimEnd(TrimStart(s))
  }

  lemma {:induction false} TrimEndIgnoresPadding(s: string, pad: string)
    requires forall k :: 0 <= k < |pad| ==> IsTrimmable(pad[k])
    ensures TrimEnd(s + pad) == TrimEnd(s)
    decreases |pad|
  {
    if pad != [] {
      var shorter := pad[..|pad| - 1];
      assert (s + pad)[..|s + pad| - 1] == s + shorter;
      TrimEndIgnoresPadding(s, shorter);
    } else {
      assert s + pad == s;
    }
  }

  lemma {:induction false} TrimStartOfPadded(s: string, pad: string)
    requires forall k :: 0 <= k < |pad| ==> IsTrimmable(pad[k])
    ensures TrimStart(s) != [] ==> TrimStart(s + pad) == TrimStart(s) + pad
    ensures TrimStart(s) == [] ==> TrimStart(s + pad) == []
    decreases |s| + |pad|
  {
    if s == [] {
      if pad != [] {
        assert ([] + pad)[1..] == pad[1..];
        TrimStartOfPadded([], pad[1..]);
      }
    } else if IsTrimmable(s[0]) {
      assert (s + pad)[1..] == s[1..] + pad;
      TrimStartOfPadded(s[1..], pad);
    } else {
      assert (s + pad)[0] == s[0];
    }
  }

  /** Trailing characters that `trim()` removes never change its result. */
  lemma TrimIgnoresPadding(s: string, pad: string)
    requires forall k :: 0 <= k < |pad| ==> IsTrimmable(pad[k])
    ensures Trim(s + pad) == Trim(s)
  {
    TrimStartOfPadded(s, pad);
    if TrimStart(s) != [] {
      TrimEndIgnoresPadding(TrimStart(s), pad);
    }
  }

  // ---------------------------------------------------------------------
  // Lower case (the binding only lower-cases ASCII text)

  function ToLowerChar(c: char): (r: char)
  {
    if 'A' <= c <= 'Z' then (c as int - 'A' as int + 'a' as int) as char else c
  }

  /** `s.toLowerCase()` on ASCII text. */
  function ToLowerCase(s: string): (r: string)
    ensures |r| == |s|
    ensures forall k :: 0 <= k < |s| ==> r[k] == ToLowerChar(s[k])
  {
    seq(|s|, k requires 0 <= k < |s| => ToLowerChar(s[k]))
  }

  // ---------------------------------------------------------------------
  // Decimal integers: Integer.toString and Integer.parseInt

  predicate IsDigit(c: char)
  {
    '0' <= c <= '9'
  }

  predicate AllDigits(s: string)
  {
    forall k :: 0 <= k < |s| ==> IsDigit(s[k])
  }

  function DigitChar(d: nat): (c: char)
    requires d < 10
    ensures IsDigit(c)
  {
    ('0' as int + d) as char
  }

  /** The value of a run of decimal digits, most significant first. */
  function DigitsValue(s: string): nat
    requires AllDigits(s)
  {
    if s == [] then 0 else 10 * DigitsValue(s[..|s| - 1]) + (s[|s| - 1] as int - '0' as int)
  }

  /** The decimal text Java produces for a non-negative int (`"" + n`). */
  function NatToString(n: nat): (r: string)
    ensures r != [] && AllDigits(r)
  {
    if n < 10 then [DigitChar(n)] else NatToString(n / 10) + [DigitChar(n % 10)]
  }

  const IntMin: int := -0x8000_0000
  const IntMax: int := 0x7fff_ffff

  /**
   * `Integer.parseInt(s)`: an optional sign and at least one decimal digit,
   * with a value that fits in 32 bits. None stands for the
   * NumberFormatException Java throws, a null argument included.
   */
  function ParseInt(s: Option<string>): (r: Option<int>)
    ensures r.Some? ==> s.Some? && s.value != [] && IntMin <= r.value <= IntMax
    // unsigned text
    ensures s.Some? && s.value != [] && AllDigits(s.value) && DigitsValue(s.value) <= IntMax
            ==> r == Some(DigitsValue(s.value))
    ensures s.Some? && s.value != [] && AllDigits(s.value) && DigitsValue(s.value) > IntMax ==> r.None?
    ensures s.Some? && s.value != [] && s.value[0] != '-' && s.value[0] != '+' && !AllDigits(s.value) ==> r.None?
    // signed text
    ensures s.Some? && s.value != [] && (s.value[0] == '-' || s.value[0] == '+') && (s.value[1..] == [] || !AllDigits(s.value[1..]))
            ==> r.None?
    ensures s.Some? && |s.value| >= 2 && s.value[0] == '-' && AllDigits(s.value[1..])
            ==> r == (if DigitsValue(s.value[1..]) <= -IntMin then Some(-(DigitsValue(s.value[1..]) as int)) else None)
    ensures s.Some? && |s.value| >= 2 && s.value[0] == '+' && AllDigits(s.value[1..])
            ==> r == (if DigitsValue(s.value[1..]) <= IntMax then Some(DigitsValue(s.value[1..]) as int) else None)
  {
    match s
    case None => None
    case Some(t) =>
      if t == [] then None
      else
        var digits := if t[0] == '-' || t[0] == '+' then t[1..] else t;
        if digits == [] || !AllDigits(digits) then None
        else
          var v: int := if t[0] == '-' then -(DigitsValue(digits) as int) else DigitsValue(digits);
          if IntMin <= v <= IntMax then Some(v) else None
  }

  lemma {:induction false} DigitsValueOfNatToString(n: nat)
    ensures DigitsValue(NatToString(n)) == n
  {
    if n >= 10 {
      var prefix := NatToString(n / 10);
      var s := prefix + [DigitChar(n % 10)];
      assert s[..|s| - 1] == prefix;
      DigitsValueOfNatToString(n / 10);
    }
  }

  /** `Integer.parseInt` reads back what `Integer.toString` writes. */
  lemma ParseIntOfNatToString(n: nat)
    requires n <= IntMax
    ensures ParseInt(Some(NatToString(n))) == Some(n)
  {
    DigitsValueOfNatToString(n);
  }
}
