/** The JavaScript built-ins that the client's logic relies on, stated over
    Dafny strings (`seq<char>`): `trim`, `startsWith`, `replace(/c/g, '')`,
    `split` on one character, `Number.prototype.toString`, `padStart`,
    `parseInt(_, 10)`, truthiness and `String(_)`. Numbers are restricted to
    integers and NaN. */
module Js {

  // ------------------------------------------------------------------ values

  /** A JavaScript number, restricted to the integers and NaN. */
  datatype Num = Int(i: int) | NaN

  /** The JavaScript values the client passes around untyped (`any`). */
  datatype JsValue = Undefined | Null | Bool(b: bool) | Number(n: Num) | Str(s: string)

  /** A `Blob`: its bytes and its `type` property. */
  datatype Blob = Blob(bytes: seq<bv8>, mimeType: string)

  /** ToBoolean: what `if (v)`, `v || w` and `v ? a : b` test. */
  predicate Truthy(v: JsValue) {
    match v
    case Undefined => false
    case Null => false
    case Bool(b) => b
    case Number(n) => n.Int? && n.i != 0
    case Str(s) => s != ""
  }

  /** `String(v)`, also what a template literal and `FormData.append` do to
      a value: a string is kept, an integer is written so that `parseInt`
      reads it back, and only the empty string gives the empty text. */
  function ToString(v: JsValue): (r: string)
    ensures v.Str? ==> r == v.s
    ensures v.Number? && v.n.Int? ==> ParseInt(r) == v.n
    ensures r == [] <==> v == Str([])
  {
    match v
    case Undefined => "undefined"
    case Null => "null"
    case Bool(b) => if b then "true" else "false"
    case Number(n) => if n.NaN? then "NaN" else ParseIntToString(n.i); IntToString(n.i)
    case Str(s) => s
  }

  // -------------------------------------------------------------- whitespace

  /** The WhiteSpace and LineTerminator code points of ECMA-262 (sections 12.2
      and 12.3): what `trim` removes and `parseInt` skips. */
  predicate IsWhitespace(c: char) {
    c in WhitespaceChars
  }

  /** No decimal digit is whitespace. */
  lemma DigitIsNotWhitespace(c: char)
    requires IsDigit(c)
    ensures !IsWhitespace(c)
  {
  }

  const WhitespaceChars: set<char> := {
    '\t', '\n', '\U{0B}', '\U{0C}', '\r', ' ', '\U{A0}', '\U{1680}',
    '\U{2000}', '\U{2001}', '\U{2002}', '\U{2003}', '\U{2004}', '\U{2005}',
    '\U{2006}', '\U{2007}', '\U{2008}', '\U{2009}', '\U{200A}',
    '\U{2028}', '\U{2029}', '\U{202F}', '\U{205F}', '\U{3000}', '\U{FEFF}'
  }

  /** `trimStart`: the suffix left once leading whitespace is dropped. */
  function TrimStart(s: string): (r: string)
    ensures |r| <= |s| && r == s[|s| - |r|..]
    ensures r == [] || !IsWhitespace(r[0])
    ensures forall k :: 0 <= k < |s| - |r| ==> IsWhitespace(s[k])
  {
    if s != [] && IsWhitespace(s[0]) then
      var r := TrimStart(s[1..]);
      assert s[1..][|s| - 1 - |r|..] == s[|s| - |r|..];
      r
    else s
  }

  /** `trimEnd`: the prefix left once trailing whitespace is dropped. */
  function TrimEnd(s: string): (r: string)
    ensures |r| <= |s| && r == s[..|r|]
    ensures r == [] || !IsWhitespace(r[|r| - 1])
    ensures forall k :: |r| <= k < |s| ==> IsWhitespace(s[k])
  {
    if s != [] && IsWhitespace(s[|s| - 1]) then
      var r := TrimEnd(s[..|s| - 1]);
      assert s[..|s| - 1][..|r|] == s[..|r|];
      r
    else s
  }

  /** `trim`: neither end of the result is whitespace, and a string with no
      whitespace at either end is left as it is; `TrimDropsOnlyWhitespace`
      adds that the result is the infix of `s` between whitespace ends. */
  function Trim(s: string): (r: string)
    ensures |r| <= |s|
    ensures r == [] || (!IsWhitespace(r[0]) && !IsWhitespace(r[|r| - 1]))
    ensures s == [] || (!IsWhitespace(s[0]) && !IsWhitespace(s[|s| - 1])) ==> r == s
  {
    TrimEnd(TrimStart(s))
  }

  /** Every character of `w` is whitespace. */
  predicate AllWhitespace(w: string) {
    forall k :: 0 <= k < |w| ==> IsWhitespace(w[k])
  }

  /** What `trim` drops from either end is whitespace and nothing else; with
      the ends of `Trim(s)` not being whitespace, this determines it. */
  lemma TrimDropsOnlyWhitespace(s: string)
    ensures exists i, j :: 0 <= i <= j <= |s| && Trim(s) == s[i..j]
              && AllWhitespace(s[..i]) && AllWhitespace(s[j..])
  {
    var t := TrimStart(s);
    var i := |s| - |t|;
    var j := i + |TrimEnd(t)|;
    TrimStartDrops(s);
    TrimEndDrops(t);
    assert s[j..] == t[|TrimEnd(t)|..];
    assert Trim(s) == s[i..j];
  }

  lemma TrimStartDrops(s: string)
    ensures AllWhitespace(s[..|s| - |TrimStart(s)|])
  {
    var i := |s| - |TrimStart(s)|;
    assert forall k :: 0 <= k < i ==> s[..i][k] == s[k];
  }

  lemma TrimEndDrops(t: string)
    ensures AllWhitespace(t[|TrimEnd(t)|..])
  {
    var j := |TrimEnd(t)|;
    assert forall k :: 0 <= k < |t| - j ==> t[j..][k] == t[j + k];
  }

  // ------------------------------------------------------- searching, editing

  predicate StartsWith(s: string, prefix: string) {
    |prefix| <= |s| && s[..|prefix|] == prefix
  }

  /** Number of occurrences of `c` in `s`. */
  function Count(c: char, s: string): nat {
    if s == [] then 0 else (if s[0] == c then 1 else 0) + Count(c, s[1..])
  }

  /** `s.replace(/c/g, '')`: every occurrence of `c` removed, nothing else;
      `RemoveAllKeeps` and `RemoveAllAppend` add that every other character
      is kept as often as it occurs and in its order. */
  function RemoveAll(s: string, c: char): (r: string)
    ensures c !in r
    ensures |r| + Count(c, s) == |s|
    ensures c !in s ==> r == s
  {
    if s == [] then [] else (if s[0] == c then [] else [s[0]]) + RemoveAll(s[1..], c)
  }

  /** The characters other than `c` are all kept, each as often as it occurs. */
  lemma {:induction false} RemoveAllKeeps(s: string, c: char)
    ensures multiset(RemoveAll(s, c)) == multiset(s)[c := 0]
  {
    if s != [] {
      var head := if s[0] == c then [] else [s[0]];
      assert RemoveAll(s, c) == head + RemoveAll(s[1..], c);
      assert s == [s[0]] + s[1..];
      assert multiset(s) == multiset([s[0]]) + multiset(s[1..]);
      RemoveAllKeeps(s[1..], c);
    }
  }

  /** Removal works piece by piece, so the characters kept are those of `s`
      in their order. */
  lemma {:induction false} RemoveAllAppend(a: string, b: string, c: char)
    ensures RemoveAll(a + b, c) == RemoveAll(a, c) + RemoveAll(b, c)
  {
    if a != [] {
      var head := if a[0] == c then [] else [a[0]];
      assert (a + b)[0] == a[0] && (a + b)[1..] == a[1..] + b;
      assert RemoveAll(a + b, c) == head + RemoveAll(a[1..] + b, c);
      assert RemoveAll(a, c) == head + RemoveAll(a[1..], c);
      RemoveAllAppend(a[1..], b, c);
    } else {
      assert a + b == b;
    }
  }

  /** `s.split(sep)` for a one-character separator: one part more than there
      are separators, no part holds a separator, and the first part is the
      prefix of `s` up to the first separator. */
  function Split(s: string, sep: char): (parts: seq<string>)
    ensures |parts| == Count(sep, s) + 1
    ensures forall k :: 0 <= k < |parts| ==> sep !in parts[k]
    ensures |parts[0]| <= |s| && parts[0] == s[..|parts[0]|]
    ensures |parts[0]| < |s| ==> s[|parts[0]|] == sep
  {
    if s == [] then [[]]
    else
      var rest := Split(s[1..], sep);
      if s[0] == sep then [[]] + rest else [[s[0]] + rest[0]] + rest[1..]
  }

  /** `parts.join(sep)`. */
  function Join(parts: seq<string>, sep: char): string {
    if |parts| == 0 then []
    else if |parts| == 1 then parts[0]
    else parts[0] + [sep] + Join(parts[1..], sep)
  }

  /** Splitting loses nothing: joining the parts gives back the string. */
  lemma {:induction false} JoinSplit(s: string, sep: char)
    ensures Join(Split(s, sep), sep) == s
  {
    if s != [] {
      var rest := Split(s[1..], sep);
      JoinSplit(s[1..], sep);
      if s[0] == sep {
        assert Split(s, sep) == [[]] + rest;
      } else {
        var parts := Split(s, sep);
        assert parts == [[s[0]] + rest[0]] + rest[1..];
        if |rest| == 1 {
          assert Join(parts, sep) == [s[0]] + rest[0];
        } else {
          assert parts[1..] == rest[1..];
          assert Join(rest, sep) == rest[0] + [sep] + Join(rest[1..], sep);
        }
      }
    }
  }

  /** A string without the separator splits into itself alone. */
  lemma {:induction false} SplitWithoutSeparator(s: string, sep: char)
    requires sep !in s
    ensures Split(s, sep) == [s]
  {
    if s != [] {
      SplitWithoutSeparator(s[1..], sep);
      assert [s[0]] + s[1..] == s;
    }
  }

  // ------------------------------------------------------------------ digits

  predicate IsDigit(c: char) {
    '0' <= c <= '9'
  }

  predicate AllDigits(s: string) {
    forall k :: 0 <= k < |s| ==> IsDigit(s[k])
  }

  function DigitChar(d: nat): char
    requires d < 10
  {
    ('0' as int + d) as char
  }

  function DigitValue(c: char): nat
    requires IsDigit(c)
  {
    c as int - '0' as int
  }

  /** The number a string of decimal digits denotes. */
  function DecimalValue(s: string): nat
    requires AllDigits(s)
  {
    if s == [] then 0 else 10 * DecimalValue(s[..|s| - 1]) + DigitValue(s[|s| - 1])
  }

  /** `n.toString()` for a non-negative integer: decimal digits without a
      leading zero that denote `n`. */
  function NatToString(n: nat): (r: string)
    ensures |r| >= 1 && AllDigits(r)
    ensures |r| > 1 ==> r[0] != '0'
    ensures DecimalValue(r) == n
  {
    if n < 10 then [DigitChar(n)]
    else
      var r := NatToString(n / 10) + [DigitChar(n % 10)];
      assert r[..|r| - 1] == NatToString(n / 10);
      r
  }

  /** `i.toString()` for any integer. */
  function IntToString(i: int): string {
    if i < 0 then "-" + NatToString(-i) else NatToString(i)
  }

  /** `s.padStart(width, fill)` with a one-character fill. */
  function PadStart(s: string, width: nat, fill: char): (r: string)
    ensures |r| == if |s| >= width then |s| else width
    ensures r[|r| - |s|..] == s
    ensures forall k :: 0 <= k < |r| - |s| ==> r[k] == fill
  {
    if |s| >= width then s else seq(width - |s|, _ => fill) + s
  }

  /** Zeros put in front of a digit string do not change its value. */
  lemma {:induction false} LeadingZeros(z: string, s: string)
    requires forall k :: 0 <= k < |z| ==> z[k] == '0'
    requires AllDigits(s)
    ensures AllDigits(z + s) && DecimalValue(z + s) == DecimalValue(s)
  {
    if s == [] {
      assert z + s == z;
      AllZeros(z);
    } else {
      assert (z + s)[..|z + s| - 1] == z + s[..|s| - 1];
      LeadingZeros(z, s[..|s| - 1]);
    }
  }

  lemma {:induction false} AllZeros(z: string)
    requires forall k :: 0 <= k < |z| ==> z[k] == '0'
    ensures AllDigits(z) && DecimalValue(z) == 0
  {
    if z != [] {
      AllZeros(z[..|z| - 1]);
    }
  }

  // ---------------------------------------------------------------- parseInt

  /** The longest prefix of `s` made of decimal digits. */
  function LeadingDigits(s: string): (r: string)
    ensures |r| <= |s| && r == s[..|r|] && AllDigits(r)
    ensures |r| < |s| ==> !IsDigit(s[|r|])
  {
    if s != [] && IsDigit(s[0]) then [s[0]] + LeadingDigits(s[1..]) else []
  }

  /** `parseInt(s, 10)`: a string not starting with whitespace is read as a
      signed number, and one made only of whitespace is NaN;
      `ParseIntSkipsWhitespace` adds that leading whitespace is ignored. */
  function ParseInt(s: string): (n: Num)
    ensures s == [] || !IsWhitespace(s[0]) ==> n == ParseSigned(s)
    ensures AllWhitespace(s) ==> n == NaN
  {
    ParseSigned(TrimStart(s))
  }

  /** Whitespace in front of a number does not change what `parseInt` reads. */
  lemma {:induction false} ParseIntSkipsWhitespace(w: string, s: string)
    requires AllWhitespace(w)
    ensures ParseInt(w + s) == ParseInt(s)
  {
    if w != [] {
      assert (w + s)[1..] == w[1..] + s;
      ParseIntSkipsWhitespace(w[1..], s);
    } else {
      assert w + s == s;
    }
  }

  /** An optional sign, then the longest run of decimal digits; NaN when
      no digit follows the sign. */
  function ParseSigned(t: string): (r: Num)
    ensures t == [] || !(IsDigit(t[0]) || t[0] == '-' || t[0] == '+') ==> r == NaN
    ensures t != [] && IsDigit(t[0]) ==> r == Int(DecimalValue(LeadingDigits(t)))
    ensures |t| >= 2 && t[0] == '+' && IsDigit(t[1]) ==> r == Int(DecimalValue(LeadingDigits(t[1..])))
    ensures |t| >= 2 && t[0] == '-' && IsDigit(t[1]) ==> r == Int(0 - DecimalValue(LeadingDigits(t[1..])))
    ensures t != [] && (t[0] == '-' || t[0] == '+') && (|t| == 1 || !IsDigit(t[1])) ==> r == NaN
  {
    var negative := t != [] && t[0] == '-';
    var body := if t != [] && (t[0] == '-' || t[0] == '+') then t[1..] else t;
    var digits := LeadingDigits(body);
    if digits == [] then NaN
    else if negative then Int(0 - DecimalValue(digits) as int)
    else Int(DecimalValue(digits))
  }

  /** A string that does not start with whitespace is not changed by `trimStart`. */
  lemma TrimStartKeeps(s: string)
    requires s != [] && !IsWhitespace(s[0])
    ensures TrimStart(s) == s
  {
  }

  /** `parseInt` reads back what `toString` writes. */
  lemma ParseIntToString(i: int)
    ensures ParseInt(IntToString(i)) == Int(i)
  {
    if i < 0 {
      var t := IntToString(i);
      assert t[1..] == NatToString(-i);
      ParseNegativeDigits(t);
    } else {
      ParseDigits(NatToString(i));
    }
  }

  /** A digit string is read in full. */
  lemma ParseDigits(d: string)
    requires d != [] && AllDigits(d)
    ensures ParseInt(d) == Int(DecimalValue(d))
  {
    assert IsDigit(d[0]);
    TrimStartKeeps(d);
    AllDigitsAreLeading(d);
  }

  /** A single digit is read as its value. */
  lemma ParseOneDigit(c: char)
    requires IsDigit(c)
    ensures ParseInt([c]) == Int(DigitValue(c))
  {
    DigitIsNotWhitespace(c);
    var d := [c];
    ParseDigits(d);
    assert d[..0] == [];
  }

  /** A digit string behind a minus sign is read in full, negated. */
  lemma ParseNegativeDigits(t: string)
    requires |t| > 1 && t[0] == '-' && AllDigits(t[1..])
    ensures ParseInt(t) == Int(0 - DecimalValue(t[1..]))
  {
    TrimStartKeeps(t);
    AllDigitsAreLeading(t[1..]);
  }

  lemma {:induction false} AllDigitsAreLeading(s: string)
    requires AllDigits(s)
    ensures LeadingDigits(s) == s
  {
    if s != [] {
      AllDigitsAreLeading(s[1..]);
    }
  }
}
