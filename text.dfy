/** The string operations of Python that the core relies on:
    str.split with a one-character separator, str.join, lower/upper,
    translate, strip, str(int) and the `{:06d}` format. */
module Text {

  // ---------------------------------------------------------------------------
  // split and join

  /** `s.split(sep)` for a one-character separator: never empty, and no part holds `sep`. */
  function Split(s: string, sep: char): (r: seq<string>)
    ensures |r| >= 1
    ensures forall i :: 0 <= i < |r| ==> sep !in r[i]
    ensures sep !in s ==> r == [s]
  {
    if |s| == 0 then [""]
    else
      var rest := Split(s[1..], sep);
      assert s == [s[0]] + s[1..];
      if s[0] == sep then [""] + rest
      else [[s[0]] + rest[0]] + rest[1..]
  }

  /** `sep.join(parts)`. */
  function Join(parts: seq<string>, sep: string): string
  {
    if |parts| == 0 then ""
    else if |parts| == 1 then parts[0]
    else parts[0] + sep + Join(parts[1..], sep)
  }

  /** Joining the parts of a split with the same separator gives the string back. */
  lemma {:induction false} JoinSplit(s: string, sep: char)
    ensures Join(Split(s, sep), [sep]) == s
  {
    if |s| > 0 {
      JoinSplit(s[1..], sep);
      var rest := Split(s[1..], sep);
      if s[0] == sep {
        assert Split(s, sep) == [""] + rest;
        assert s == [sep] + s[1..];
      } else {
        var r := Split(s, sep);
        assert r == [[s[0]] + rest[0]] + rest[1..];
        if |rest| == 1 {
          assert r == [[s[0]] + rest[0]];
        } else {
          assert r[1..] == rest[1..];
          assert Join(rest, [sep]) == rest[0] + [sep] + Join(rest[1..], [sep]);
        }
      }
    }
  }

  /** Splitting a join gives the parts back, provided no part holds the separator
      (a join of no parts is "", which splits into one empty part). */
  lemma {:induction false} SplitJoin(parts: seq<string>, sep: char)
    requires |parts| >= 1
    requires forall i :: 0 <= i < |parts| ==> sep !in parts[i]
    ensures Split(Join(parts, [sep]), sep) == parts
  {
    if |parts| > 1 {
      SplitJoin(parts[1..], sep);
      SplitPrefix(parts[0], Join(parts[1..], [sep]), sep);
      assert [parts[0]] + parts[1..] == parts;
    }
  }

  /** Splitting `p + [sep] + t` where `p` holds no separator puts `p` in front of the split of `t`. */
  lemma {:induction false} SplitPrefix(p: string, t: string, sep: char)
    requires sep !in p
    ensures Split(p + [sep] + t, sep) == [p] + Split(t, sep)
  {
    if |p| == 0 {
      assert p + [sep] + t == [sep] + t;
      assert ([sep] + t)[1..] == t;
    } else {
      SplitPrefix(p[1..], t, sep);
      var s := p + [sep] + t;
      assert s[0] == p[0];
      assert s[1..] == p[1..] + [sep] + t;
      assert [p[0]] + p[1..] == p;
    }
  }

  /** The number of parts of a join of parts without separators. */
  lemma SplitJoinLength(parts: seq<string>, sep: char)
    requires |parts| >= 1
    requires forall i :: 0 <= i < |parts| ==> sep !in parts[i]
    ensures |Split(Join(parts, [sep]), sep)| == |parts|
  {
    SplitJoin(parts, sep);
  }

  /** A separator character is in a join of two or more parts. */
  lemma {:induction false} JoinHasSep(parts: seq<string>, sep: char)
    requires |parts| >= 2
    ensures sep in Join(parts, [sep])
  {
    var j := Join(parts, [sep]);
    assert j == parts[0] + [sep] + Join(parts[1..], [sep]);
    assert j[|parts[0]|] == sep;
  }

  /** A character other than the separator is in a join only if it is in one of the parts. */
  lemma {:induction false} JoinChars(parts: seq<string>, sep: string, c: char)
    requires c !in sep
    requires forall i :: 0 <= i < |parts| ==> c !in parts[i]
    ensures c !in Join(parts, sep)
  {
    if |parts| > 1 {
      JoinChars(parts[1..], sep, c);
    }
  }

  // ---------------------------------------------------------------------------
  // replace, lower, upper, translate

  /** `s.replace(a, b)` for one-character arguments. */
  function ReplaceChar(s: string, a: char, b: char): (r: string)
    ensures |r| == |s|
    ensures forall i :: 0 <= i < |s| ==> r[i] == if s[i] == a then b else s[i]
  {
    seq(|s|, i requires 0 <= i < |s| => if s[i] == a then b else s[i])
  }

  /** Python's lower() restricted to A-Z and the German umlauts; any other character is
      returned unchanged, including cased letters that Python would map. */
  function LowerChar(c: char): char
  {
    if 'A' <= c <= 'Z' then (c as int + 32) as char
    else if c == 'Ä' then 'ä'
    else if c == 'Ö' then 'ö'
    else if c == 'Ü' then 'ü'
    else c
  }

  function Lower(s: string): (r: string)
    ensures |r| == |s|
    ensures forall i :: 0 <= i < |s| ==> r[i] == LowerChar(s[i])
  {
    seq(|s|, i requires 0 <= i < |s| => LowerChar(s[i]))
  }

  /** A lower-cased string holds no capital Latin letter. */
  lemma LowerNoCapitals(s: string)
    ensures forall i :: 0 <= i < |Lower(s)| ==> !('A' <= Lower(s)[i] <= 'Z')
  {
  }

  /** Python's upper() on one character; 'ß' becomes the two letters "SS". */
  function UpperChar(c: char): string
  {
    if 'a' <= c <= 'z' then [(c as int - 32) as char]
    else if c == 'ä' then "Ä"
    else if c == 'ö' then "Ö"
    else if c == 'ü' then "Ü"
    else if c == 'ß' then "SS"
    else [c]
  }

  function Upper(s: string): string
  {
    if |s| == 0 then "" else UpperChar(s[0]) + Upper(s[1..])
  }

  /** An upper-cased string holds no small Latin letter. */
  lemma {:induction false} UpperNoSmall(s: string)
    ensures forall i :: 0 <= i < |Upper(s)| ==> !('a' <= Upper(s)[i] <= 'z')
  {
    if |s| > 0 {
      UpperNoSmall(s[1..]);
      var u, rest := UpperChar(s[0]), Upper(s[1..]);
      assert Upper(s) == u + rest;
      forall i | 0 <= i < |u + rest| ensures !('a' <= (u + rest)[i] <= 'z') {
        if i >= |u| { assert (u + rest)[i] == rest[i - |u|]; }
      }
    }
  }

  /** The column-name table: "-()äöüÄÖÜß" is mapped onto "___aouAOUs". */
  const TranslateFrom: string := "-()äöüÄÖÜß"
  const TranslateTo: string := "___aouAOUs"

  function TranslateChar(c: char): char
  {
    if c == '-' || c == '(' || c == ')' then '_'
    else if c == 'ä' then 'a'
    else if c == 'ö' then 'o'
    else if c == 'ü' then 'u'
    else if c == 'Ä' then 'A'
    else if c == 'Ö' then 'O'
    else if c == 'Ü' then 'U'
    else if c == 'ß' then 's'
    else c
  }

  /** `str.translate` with the table above; the result holds none of the mapped characters. */
  function Translate(s: string): (r: string)
    ensures |r| == |s|
    ensures forall i :: 0 <= i < |s| ==> r[i] == TranslateChar(s[i])
  {
    seq(|s|, i requires 0 <= i < |s| => TranslateChar(s[i]))
  }

  /** The translation maps no character onto one of the characters it replaces. */
  lemma TranslateCharClean(c: char)
    ensures TranslateChar(c) !in TranslateFrom
  {
  }

  /** A translated string holds none of the mapped characters. */
  lemma TranslateClean(s: string)
    ensures forall i :: 0 <= i < |Translate(s)| ==> Translate(s)[i] !in TranslateFrom
  {
    forall i | 0 <= i < |Translate(s)| ensures Translate(s)[i] !in TranslateFrom {
      TranslateCharClean(s[i]);
    }
  }

  /** TranslateChar maps the k-th character of TranslateFrom to the k-th of TranslateTo. */
  lemma TranslateTable(k: nat)
    requires k < |TranslateFrom|
    ensures |TranslateTo| == |TranslateFrom| && TranslateChar(TranslateFrom[k]) == TranslateTo[k]
  {
  }

  // ---------------------------------------------------------------------------
  // strip

  /** The characters str.strip() removes, as far as cp1252-decoded text can contain them. */
  const Whitespace: set<char> :=
    {' ', '\t', '\n', '\r', '\U{0b}', '\U{0c}', '\U{1c}', '\U{1d}', '\U{1e}', '\U{1f}', '\U{a0}'}

  function StripLeft(s: string, cs: set<char>): (r: string)
    ensures |r| <= |s|
    ensures r == [] || r[0] !in cs
  {
    if |s| > 0 && s[0] in cs then StripLeft(s[1..], cs) else s
  }

  function StripRight(s: string, cs: set<char>): (r: string)
    ensures |r| <= |s| && (r == [] || r[0] == s[0])
    ensures r == [] || r[|r| - 1] !in cs
  {
    if |s| > 0 && s[|s| - 1] in cs then StripRight(s[..|s| - 1], cs) else s
  }

  /** `s.strip(chars)`: a slice of `s` that neither starts nor ends with one of `cs`. */
  function StripChars(s: string, cs: set<char>): (r: string)
    ensures |r| <= |s|
    ensures r == [] || (r[0] !in cs && r[|r| - 1] !in cs)
  {
    var l := StripLeft(s, cs);
    var r := StripRight(l, cs);
    assert r == [] || r[0] == l[0];
    r
  }

  /** `s.strip()`. */
  function Strip(s: string): string
  {
    StripChars(s, Whitespace)
  }

  /** Stripping leaves a string alone that neither starts nor ends with one of the characters. */
  lemma StripNoop(s: string, cs: set<char>)
    requires s != [] && s[0] !in cs && s[|s| - 1] !in cs
    ensures StripChars(s, cs) == s
  {
  }

  // ---------------------------------------------------------------------------
  // numbers as text

  function DigitChar(d: nat): char
    requires d < 10
  {
    "0123456789"[d]
  }

  predicate IsDigit(c: char)
  {
    '0' <= c <= '9'
  }

  /** `str(n)` for a natural number: decimal digits without leading zeros. */
  function NatToString(n: nat): (r: string)
    ensures |r| >= 1
    ensures forall i :: 0 <= i < |r| ==> IsDigit(r[i])
    ensures n > 0 ==> r[0] != '0'
  {
    if n < 10 then [DigitChar(n)] else NatToString(n / 10) + [DigitChar(n % 10)]
  }

  /** `str(i)` for an integer. */
  function IntToString(i: int): string
  {
    if i < 0 then "-" + NatToString(-i) else NatToString(i)
  }

  /** The value of a string of decimal digits. */
  function ParseNat(s: string): nat
    requires forall i :: 0 <= i < |s| ==> IsDigit(s[i])
  {
    if |s| == 0 then 0
    else
      assert IsDigit(s[|s| - 1]);
      ParseNat(s[..|s| - 1]) * 10 + (s[|s| - 1] as int - '0' as int)
  }

  lemma {:induction false} ParseNatToString(n: nat)
    ensures ParseNat(NatToString(n)) == n
  {
    if n >= 10 {
      var s := NatToString(n);
      assert s[..|s| - 1] == NatToString(n / 10);
      ParseNatToString(n / 10);
    }
  }

  function Zeros(k: nat): (r: string)
    ensures |r| == k && forall i :: 0 <= i < k ==> r[i] == '0'
  {
    seq(k, i => '0')
  }

  /** The digits `z + s` where `z` is all zeros have the value of `s`. */
  lemma {:induction false} ParseLeadingZeros(k: nat, s: string)
    requires forall i :: 0 <= i < |s| ==> IsDigit(s[i])
    ensures forall i :: 0 <= i < |Zeros(k) + s| ==> IsDigit((Zeros(k) + s)[i])
    ensures ParseNat(Zeros(k) + s) == ParseNat(s)
  {
    var t := Zeros(k) + s;
    assert forall i :: 0 <= i < |t| ==> IsDigit(t[i]) by {
      forall i | 0 <= i < |t| ensures IsDigit(t[i]) {
        if i < k { assert t[i] == '0'; } else { assert t[i] == s[i - k]; }
      }
    }
    if |s| == 0 {
      ParseZeros(k);
      assert t == Zeros(k);
    } else {
      assert t[..|t| - 1] == Zeros(k) + s[..|s| - 1];
      ParseLeadingZeros(k, s[..|s| - 1]);
    }
  }

  lemma {:induction false} ParseZeros(k: nat)
    ensures ParseNat(Zeros(k)) == 0
  {
    if k > 0 {
      assert Zeros(k)[..k - 1] == Zeros(k - 1);
      ParseZeros(k - 1);
    }
  }

  /** Left-pads a digit string with zeros up to `width` characters. */
  function PadZeros(s: string, width: nat): (r: string)
    ensures |r| == if |s| >= width then |s| else width
  {
    if |s| >= width then s else Zeros(width - |s|) + s
  }

  /** Python's `format(n, '06d')`: zero-padded to six characters, the sign counted in the width. */
  function Format06d(n: int): string
  {
    if n >= 0 then PadZeros(NatToString(n), 6) else "-" + PadZeros(NatToString(-n), 5)
  }

  /** Below a million the format is exactly six digits, and reading them gives the number back. */
  lemma Format06dRoundTrip(n: nat)
    requires n < 1000000
    ensures |Format06d(n)| == 6
    ensures forall i :: 0 <= i < 6 ==> IsDigit(Format06d(n)[i])
    ensures ParseNat(Format06d(n)) == n
  {
    var s := NatToString(n);
    NatToStringLength(n);
    ParseLeadingZeros(6 - |s|, s);
    ParseNatToString(n);
  }

  /** The number of digits of `str(n)` for n below a million is at most six. */
  lemma {:induction false} NatToStringLength(n: nat)
    ensures n < 1000000 ==> |NatToString(n)| <= 6
    ensures n < 100000 ==> |NatToString(n)| <= 5
    ensures n < 10000 ==> |NatToString(n)| <= 4
    ensures n < 1000 ==> |NatToString(n)| <= 3
    ensures n < 100 ==> |NatToString(n)| <= 2
    ensures n < 10 ==> |NatToString(n)| == 1
  {
    if n >= 10 {
      NatToStringLength(n / 10);
    }
  }

  // ---------------------------------------------------------------------------
  // substrings

  predicate IsPrefix(p: string, s: string)
  {
    |p| <= |s| && s[..|p|] == p
  }

  predicate IsSuffix(p: string, s: string)
  {
    |p| <= |s| && s[|s| - |p|..] == p
  }

  /** Python's `a in b` for two strings; the empty string is in every string. */
  predicate IsSubstring(a: string, b: string)
  {
    IsPrefix(a, b) || (|b| > 0 && IsSubstring(a, b[1..]))
  }
}
