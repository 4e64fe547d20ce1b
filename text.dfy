/** The string operations of the .NET base library that Session.cs relies on:
    upper-casing, ordinal substring search, splitting on one character, and the
    Boolean and Int32 parsers. Strings are sequences of characters. */
module Text {
  import opened Wrappers

  // ---------------------------------------------------------------- casing

  predicate IsLower(c: char) { 'a' <= c <= 'z' }

  /** Upper-casing of one character, restricted to the ASCII letters. */
  function UpperChar(c: char): (r: char)
    ensures !IsLower(r)
    ensures IsLower(c) ==> r as int + 32 == c as int
    ensures !IsLower(c) ==> r == c
  {
    if IsLower(c) then (c as int - 32) as char else c
  }

  /** String.ToUpper over ASCII letters. */
  function ToUpper(s: string): (r: string)
    ensures |r| == |s|
    ensures forall i :: 0 <= i < |s| ==> r[i] == UpperChar(s[i])
  {
    if s == [] then [] else [UpperChar(s[0])] + ToUpper(s[1..])
  }

  lemma {:induction false} ToUpperIdempotent(s: string)
    ensures ToUpper(ToUpper(s)) == ToUpper(s)
  {
    if s != [] {
      ToUpperIdempotent(s[1..]);
      assert ToUpper(s)[1..] == ToUpper(s[1..]);
    }
  }

  // ------------------------------------------------------ substring search

  /** t occurs in s at position i, characters j.. still to compare. */
  predicate OccursAt(s: string, t: string, i: nat, j: nat)
    decreases |t| - j
  {
    j >= |t| || (i + j < |s| && s[i + j] == t[j] && OccursAt(s, t, i, j + 1))
  }

  predicate ContainsFrom(s: string, t: string, i: nat)
    decreases |s| + 1 - i
  {
    (i + |t| <= |s| && OccursAt(s, t, i, 0)) || (i < |s| && ContainsFrom(s, t, i + 1))
  }

  /** String.Contains(string): ordinal substring search. */
  predicate Contains(s: string, t: string)
  {
    ContainsFrom(s, t, 0)
  }

  /** t occurs in s at position k, read as a slice. */
  ghost predicate SliceAt(s: string, t: string, k: nat)
  {
    k + |t| <= |s| && s[k..k + |t|] == t
  }

  /** The slice-based reading of "t is a substring of s". */
  ghost predicate IsSubstring(t: string, s: string)
  {
    exists k: nat :: SliceAt(s, t, k)
  }

  lemma {:induction false} OccursAtSlice(s: string, t: string, i: nat, j: nat)
    requires i + |t| <= |s| && j <= |t|
    ensures OccursAt(s, t, i, j) <==> s[i + j..i + |t|] == t[j..]
    decreases |t| - j
  {
    if j < |t| {
      OccursAtSlice(s, t, i, j + 1);
      assert s[i + j..i + |t|] == [s[i + j]] + s[i + j + 1..i + |t|];
      assert t[j..] == [t[j]] + t[j + 1..];
    }
  }

  lemma {:induction false} ContainsFromSlice(s: string, t: string, i: nat)
    requires i <= |s| + 1
    ensures ContainsFrom(s, t, i) <==> exists k: nat :: i <= k && SliceAt(s, t, k)
    decreases |s| + 1 - i
  {
    if i + |t| <= |s| {
      OccursAtSlice(s, t, i, 0);
      assert OccursAt(s, t, i, 0) <==> SliceAt(s, t, i);
    }
    if i < |s| {
      ContainsFromSlice(s, t, i + 1);
    }
    if exists k: nat :: i <= k && SliceAt(s, t, k) {
      var k: nat :| i <= k && SliceAt(s, t, k);
      if k == i {
        OccursAtSlice(s, t, i, 0);
      } else {
        assert i < |s|;
      }
    }
  }

  /** The character-by-character search decides exactly the slice definition. */
  lemma ContainsIsSubstring(s: string, t: string)
    ensures Contains(s, t) <==> IsSubstring(t, s)
  {
    ContainsFromSlice(s, t, 0);
  }

  // -------------------------------------------------------------- splitting

  /** Joins segments with the separator between neighbours (String.Join). */
  function Join(parts: seq<string>, d: char): string
    requires |parts| >= 1
  {
    if |parts| == 1 then parts[0] else parts[0] + [d] + Join(parts[1..], d)
  }

  /** The number of occurrences of d in s. */
  function Occurrences(s: string, d: char): nat
  {
    if s == [] then 0 else (if s[0] == d then 1 else 0) + Occurrences(s[1..], d)
  }

  /** String.Split(d) with StringSplitOptions.None: every segment between
      separators, empty ones included, so there is one more segment than
      there are separators, and no segment holds the separator. */
  function Split(s: string, d: char): (r: seq<string>)
    ensures |r| == Occurrences(s, d) + 1
    ensures forall k :: 0 <= k < |r| ==> d !in r[k]
    decreases |s|
  {
    if |s| == 0 then [""]
    else
      var rest := Split(s[1..], d);
      if s[0] == d then [""] + rest
      else [[s[0]] + rest[0]] + rest[1..]
  }

  /** Joining the segments back with the separator gives the original string. */
  lemma {:induction false} SplitJoinsBack(s: string, d: char)
    ensures Join(Split(s, d), d) == s
    decreases |s|
  {
    if |s| > 0 {
      var rest := Split(s[1..], d);
      SplitJoinsBack(s[1..], d);
      if s[0] == d {
        assert Split(s, d) == [""] + rest;
        assert ([""] + rest)[1..] == rest;
      } else {
        var r := Split(s, d);
        assert r == [[s[0]] + rest[0]] + rest[1..];
        if |rest| == 1 {
          assert Join(r, d) == [s[0]] + rest[0];
        } else {
          assert r[1..] == rest[1..];
          assert Join(rest, d) == rest[0] + [d] + Join(rest[1..], d);
          assert Join(r, d) == [s[0]] + rest[0] + [d] + Join(rest[1..], d);
        }
        assert s == [s[0]] + s[1..];
      }
    }
  }

  /** A string without the separator splits into itself alone. */
  lemma SplitWithoutSeparator(s: string, d: char)
    requires d !in s
    ensures Split(s, d) == [s]
  {
    var r := Split(s, d);
    NoOccurrences(s, d);
    SplitJoinsBack(s, d);
  }

  lemma {:induction false} NoOccurrences(s: string, d: char)
    requires d !in s
    ensures Occurrences(s, d) == 0
  {
    if s != [] {
      assert d !in s[1..] by { assert forall c :: c in s[1..] ==> c in s; }
      NoOccurrences(s[1..], d);
    }
  }

  /** Joining segments whose first one is not empty starts with that
      segment's first character. */
  lemma JoinFirstChar(parts: seq<string>, d: char)
    requires |parts| >= 1 && |parts[0]| > 0
    ensures Join(parts, d) == [parts[0][0]] + Join([parts[0][1..]] + parts[1..], d)
  {
    var head := parts[0];
    var shorter := [head[1..]] + parts[1..];
    assert head == [head[0]] + head[1..];
    if |parts| > 1 {
      assert shorter[1..] == parts[1..];
    }
  }

  /** Splitting is the inverse of joining separator-free segments. */
  lemma {:induction false} SplitJoin(parts: seq<string>, d: char)
    requires |parts| >= 1
    requires forall k :: 0 <= k < |parts| ==> d !in parts[k]
    ensures Split(Join(parts, d), d) == parts
    decreases |parts|, |parts[0]|
  {
    if |parts[0]| > 0 {
      var head := parts[0];
      var shorter := [head[1..]] + parts[1..];
      assert forall k :: 0 <= k < |shorter| ==> d !in shorter[k] by {
        forall k | 0 <= k < |shorter| ensures d !in shorter[k] {
          if k == 0 { assert forall c :: c in head[1..] ==> c in head; }
          else { assert shorter[k] == parts[k]; }
        }
      }
      SplitJoin(shorter, d);
      var j := Join(parts, d);
      JoinFirstChar(parts, d);
      assert j[1..] == Join(shorter, d);
      assert Split(j, d) == [[head[0]] + shorter[0]] + shorter[1..];
      assert [head[0]] + head[1..] == head;
      assert parts == [head] + parts[1..];
    } else if |parts| > 1 {
      SplitJoin(parts[1..], d);
      var j := Join(parts, d);
      assert j == [d] + Join(parts[1..], d);
      assert j[1..] == Join(parts[1..], d);
    }
  }

  // ---------------------------------------------------------------- parsing

  /** The white space that Boolean.Parse and Int32.Parse skip (ASCII part). */
  predicate IsWhite(c: char) { c == ' ' || '\t' <= c <= '\r' }

  /** String.TrimStart: drops the padding at the front and nothing else. */
  function TrimStart(s: string, pad: char -> bool): (r: string)
    ensures |r| <= |s| && r == s[|s| - |r|..]
    ensures forall i :: 0 <= i < |s| - |r| ==> pad(s[i])
    ensures r == [] || !pad(r[0])
  {
    if s != [] && pad(s[0]) then
      var r := TrimStart(s[1..], pad);
      assert forall i :: 1 <= i < |s| ==> s[i] == s[1..][i - 1];
      r
    else s
  }

  /** String.TrimEnd: drops the padding at the back and nothing else. */
  function TrimEnd(s: string, pad: char -> bool): (r: string)
    ensures |r| <= |s| && r == s[..|r|]
    ensures forall i :: |r| <= i < |s| ==> pad(s[i])
    ensures r == [] || !pad(r[|r| - 1])
  {
    if s != [] && pad(s[|s| - 1]) then
      var r := TrimEnd(s[..|s| - 1], pad);
      assert forall i :: 0 <= i < |s| - 1 ==> s[i] == s[..|s| - 1][i];
      r
    else s
  }

  function Trim(s: string, pad: char -> bool): string
  {
    TrimEnd(TrimStart(s, pad), pad)
  }

  /** Boolean.Parse trims white space and NUL characters. */
  predicate IsBoolPad(c: char) { IsWhite(c) || c == '\0' }

  /** Boolean.Parse: "True" or "False" in any letter case, padding allowed;
      anything else is a format error (None). */
  function ParseBool(s: string): (r: Option<bool>)
    ensures r == Some(true) <==> ToUpper(Trim(s, IsBoolPad)) == "TRUE"
    ensures r == Some(false) <==> ToUpper(Trim(s, IsBoolPad)) == "FALSE"
  {
    var t := ToUpper(Trim(s, IsBoolPad));
    if t == "TRUE" then Some(true) else if t == "FALSE" then Some(false) else None
  }

  /** Boolean.ToString. */
  function BoolText(b: bool): string { if b then "True" else "False" }

  lemma ParseBoolText(b: bool)
    ensures ParseBool(BoolText(b)) == Some(b)
  {
    var s := BoolText(b);
    TrimUnpadded(s, IsBoolPad);
    if b {
      assert ToUpper(s) == "TRUE" by { UpperLetters(s, "TRUE"); }
    } else {
      assert ToUpper(s) == "FALSE" by { UpperLetters(s, "FALSE"); }
    }
  }

  /** Upper-casing, letter by letter. */
  lemma UpperLetters(s: string, u: string)
    requires |s| == |u| && forall i :: 0 <= i < |s| ==> UpperChar(s[i]) == u[i]
    ensures ToUpper(s) == u
  {
  }

  predicate IsDigit(c: char) { '0' <= c <= '9' }

  function DigitValue(c: char): nat requires IsDigit(c) { c as int - '0' as int }

  /** The value of a string of decimal digits, most significant first. */
  function DigitsValue(s: string): nat
    requires forall i :: 0 <= i < |s| ==> IsDigit(s[i])
    decreases |s|
  {
    if s == [] then 0 else DigitsValue(s[..|s| - 1]) * 10 + DigitValue(s[|s| - 1])
  }

  /** Decimal rendering of a natural number, without leading zeros. */
  function NatText(n: nat): (r: string)
    ensures |r| >= 1 && forall i :: 0 <= i < |r| ==> IsDigit(r[i])
  {
    var last := ['0' + (n % 10) as char];
    if n < 10 then last else NatText(n / 10) + last
  }

  lemma {:induction false} DigitsValueNatText(n: nat)
    ensures DigitsValue(NatText(n)) == n
  {
    var r := NatText(n);
    if n >= 10 {
      DigitsValueNatText(n / 10);
      assert r[..|r| - 1] == NatText(n / 10);
    }
  }

  const Int32Min: int := -0x8000_0000
  const Int32Max: int := 0x7fff_ffff

  predicate AllDigits(b: string) { forall i :: 0 <= i < |b| ==> IsDigit(b[i]) }

  /** A non-empty run of decimal digits and its value. */
  function ParseDigits(b: string): (r: Option<nat>)
    ensures r.Some? <==> |b| > 0 && AllDigits(b)
  {
    if |b| > 0 && AllDigits(b) then Some(DigitsValue(b)) else None
  }

  /** An optional sign followed by digits. */
  function ParseSigned(t: string): Option<int>
  {
    if |t| > 0 && t[0] == '-' then
      match ParseDigits(t[1..])
      case Some(v) => Some(-(v as int))
      case None => None
    else if |t| > 0 && t[0] == '+' then
      match ParseDigits(t[1..])
      case Some(v) => Some(v as int)
      case None => None
    else
      match ParseDigits(t)
      case Some(v) => Some(v as int)
      case None => None
  }

  predicate IsNul(c: char) { c == '\0' }

  /** Int32.Parse with NumberStyles.Integer (what Convert.ToInt32(string)
      uses): white space on either side, an optional sign and at least one
      digit, and then any number of NUL characters, which the parser skips
      at the very end; a value outside the 32-bit range is an overflow,
      reported like a format error (None). */
  function ParseInt32(s: string): (r: Option<int>)
    ensures r.Some? ==> Int32Min <= r.value <= Int32Max
  {
    match ParseSigned(Trim(TrimEnd(s, IsNul), IsWhite))
    case Some(v) => if Int32Min <= v <= Int32Max then Some(v) else None
    case None => None
  }

  /** Int32.ToString. */
  function Int32Text(n: int): string
  {
    if n < 0 then "-" + NatText(-n) else NatText(n)
  }

  lemma TrimUnpadded(s: string, pad: char -> bool)
    requires s != [] && !pad(s[0]) && !pad(s[|s| - 1])
    ensures Trim(s, pad) == s
  {
  }

  lemma Int32TextParses(n: int)
    requires Int32Min <= n <= Int32Max
    ensures ParseInt32(Int32Text(n)) == Some(n)
  {
    var t := Int32Text(n);
    Int32TextUnpadded(n);
    assert !IsNul(t[|t| - 1]) by {
      var digits := NatText(if n < 0 then -n else n);
      assert t[|t| - 1] == digits[|digits| - 1];
    }
    TrimEndPadding(t, [], IsNul);
    assert t + [] == t;
    SignedTextParses(n);
  }

  predicate AllWhite(w: string) { forall i :: 0 <= i < |w| ==> IsWhite(w[i]) }

  /** Int32.Parse reads an Int32 rendering back whatever white space
      surrounds it and whatever NULs follow. */
  lemma Int32TextPadded(n: int, w1: string, w2: string, z: string)
    requires Int32Min <= n <= Int32Max
    requires AllWhite(w1) && AllWhite(w2) && forall i :: 0 <= i < |z| ==> IsNul(z[i])
    ensures ParseInt32(w1 + Int32Text(n) + w2 + z) == Some(n)
  {
    var t := Int32Text(n);
    assert t != [] && !IsWhite(t[0]) && !IsWhite(t[|t| - 1]) && !IsNul(t[|t| - 1]) by {
      var digits := NatText(if n < 0 then -n else n);
      assert t[|t| - 1] == digits[|digits| - 1];
      if n >= 0 { assert t[0] == digits[0]; }
    }
    PaddingTrimmed(w1, t, w2, z);
    SignedTextParses(n);
  }

  /** What Int32.Parse trims off around a number: the white space on both
      sides and the NULs at the end. */
  lemma PaddingTrimmed(w1: string, t: string, w2: string, z: string)
    requires AllWhite(w1) && AllWhite(w2) && forall i :: 0 <= i < |z| ==> IsNul(z[i])
    requires t != [] && !IsWhite(t[0]) && !IsWhite(t[|t| - 1]) && !IsNul(t[|t| - 1])
    ensures Trim(TrimEnd(w1 + t + w2 + z, IsNul), IsWhite) == t
  {
    var x := w1 + t + w2;
    assert !IsNul(x[|x| - 1]) by {
      if w2 != [] { assert x[|x| - 1] == w2[|w2| - 1]; } else { assert x[|x| - 1] == t[|t| - 1]; }
    }
    TrimEndPadding(x, z, IsNul);
    WhiteTrimmed(w1, t, w2);
  }

  /** The white space on both sides of a string that neither starts nor
      ends with white space is exactly what Trim removes. */
  lemma WhiteTrimmed(w1: string, t: string, w2: string)
    requires AllWhite(w1) && AllWhite(w2)
    requires t != [] && !IsWhite(t[0]) && !IsWhite(t[|t| - 1])
    ensures Trim(w1 + t + w2, IsWhite) == t
  {
    assert w1 + t + w2 == w1 + (t + w2);
    assert (t + w2)[0] == t[0];
    TrimStartPadding(w1, t + w2, IsWhite);
    TrimEndPadding(t, w2, IsWhite);
  }

  /** Padding in front of a string that does not start with padding is
      exactly what TrimStart removes. */
  lemma {:induction false} TrimStartPadding(w: string, y: string, pad: char -> bool)
    requires forall i :: 0 <= i < |w| ==> pad(w[i])
    requires y == [] || !pad(y[0])
    ensures TrimStart(w + y, pad) == y
  {
    if w != [] {
      TrimStartPadding(w[1..], y, pad);
      assert (w + y)[1..] == w[1..] + y;
    } else {
      assert w + y == y;
    }
  }

  /** Padding after a string that does not end with padding is exactly
      what TrimEnd removes. */
  lemma {:induction false} TrimEndPadding(x: string, z: string, pad: char -> bool)
    requires forall i :: 0 <= i < |z| ==> pad(z[i])
    requires x == [] || !pad(x[|x| - 1])
    ensures TrimEnd(x + z, pad) == x
  {
    if z != [] {
      TrimEndPadding(x, z[..|z| - 1], pad);
      assert (x + z)[..|x + z| - 1] == x + z[..|z| - 1];
    } else {
      assert x + z == x;
    }
  }

  /** Int32.Parse accepts a leading '+'. */
  lemma PlusTextParses(n: nat)
    requires n <= Int32Max
    ensures ParseInt32("+" + NatText(n)) == Some(n)
  {
    var digits := NatText(n);
    var s := "+" + digits;
    assert s[|s| - 1] == digits[|digits| - 1];
    TrimEndPadding(s, [], IsNul);
    assert s + [] == s;
    TrimUnpadded(s, IsWhite);
    DigitsValueNatText(n);
    assert s[1..] == digits;
  }

  /** Int32.Parse rejects a string holding a character that is neither
      white space, a decimal digit, a sign nor NUL. */
  lemma ParseInt32Rejects(s: string, k: nat)
    requires k < |s| && !IsWhite(s[k]) && !IsDigit(s[k]) && s[k] != '+' && s[k] != '-' && !IsNul(s[k])
    ensures ParseInt32(s) == None
  {
    var u := TrimEnd(s, IsNul);
    assert k < |u| && u[k] == s[k];
    var v := TrimStart(u, IsWhite);
    var d := |u| - |v|;
    assert d <= k && v[k - d] == s[k];
    var t := TrimEnd(v, IsWhite);
    var j := k - d;
    assert j < |t| && t[j] == s[k];
    if |t| > 0 && (t[0] == '-' || t[0] == '+') {
      assert j >= 1 && t[1..][j - 1] == s[k];
      assert ParseDigits(t[1..]) == None;
    } else {
      assert ParseDigits(t) == None;
    }
  }

  /** Int32.ToString starts with a sign or a digit and ends with a digit. */
  lemma Int32TextUnpadded(n: int)
    ensures Trim(Int32Text(n), IsWhite) == Int32Text(n)
  {
    var s := Int32Text(n);
    var digits := NatText(if n < 0 then -n else n);
    assert s[|s| - 1] == digits[|digits| - 1];
    assert !IsWhite(s[0]) by {
      if n >= 0 { assert s[0] == digits[0]; }
    }
    TrimUnpadded(s, IsWhite);
  }

  /** The digits of Int32.ToString, after its sign, parse back. */
  lemma SignedTextParses(n: int)
    ensures ParseSigned(Int32Text(n)) == Some(n)
  {
    var m: nat := if n < 0 then -n else n;
    var digits := NatText(m);
    DigitsValueNatText(m);
    assert ParseDigits(digits) == Some(m);
    var s := Int32Text(n);
    if n < 0 {
      assert s[1..] == digits;
    } else {
      assert s == digits && s[0] != '-' && s[0] != '+';
    }
  }
}
