/**
 * String primitives used by the catalogue code: ASCII lower-casing, the
 * whitespace class of `trim()` and `\s`, substring search (`includes`),
 * `split(' ')` / `join(' ')`, the `\s+` -> `-` rewrite used to build fallback
 * ids, and decimal rendering / `parseInt` of integers.
 */
module Text {

  import opened Options

  // ---------------------------------------------------------------------------
  // Case

  predicate IsUpper(c: char) {
    'A' <= c <= 'Z'
  }

  /** ASCII lower-casing of one character; every other character is kept. */
  function LowerChar(c: char): char {
    if IsUpper(c) then (c as int + 32) as char else c
  }

  /** `toLowerCase()`, restricted to the ASCII letters. */
  function ToLower(s: string): (r: string)
    ensures |r| == |s|
    ensures forall i :: 0 <= i < |s| ==> r[i] == LowerChar(s[i])
  {
    seq(|s|, i requires 0 <= i < |s| => LowerChar(s[i]))
  }

  lemma ToLowerIdempotent(s: string)
    ensures ToLower(ToLower(s)) == ToLower(s)
  {
  }

  // ---------------------------------------------------------------------------
  // Whitespace

  /**
   * JavaScript's whitespace class (`\s`, `trim()`): tab, line feed, vertical
   * tab, form feed, carriage return, the byte-order mark, the line and
   * paragraph separators, and the space separators of Unicode (space,
   * no-break space, ogham space mark, U+2000 to U+200A, narrow no-break
   * space, medium mathematical space, ideographic space).
   */
  predicate IsSpace(c: char) {
    var n := c as int;
    || (9 <= n <= 13) || n == 0x20 || n == 0xA0 || n == 0x1680
    || (0x2000 <= n <= 0x200A) || n == 0x2028 || n == 0x2029 || n == 0x202F
    || n == 0x205F || n == 0x3000 || n == 0xFEFF
  }

  /** `!s.trim()`: the string is empty or consists of whitespace only. */
  predicate IsBlank(s: string) {
    forall i :: 0 <= i < |s| ==> IsSpace(s[i])
  }

  predicate HasNoSpace(s: string) {
    forall i :: 0 <= i < |s| ==> !IsSpace(s[i])
  }

  /** The suffix left after dropping leading whitespace. */
  function DropSpaces(s: string): (r: string)
    ensures |r| <= |s|
    ensures r == s[|s| - |r|..]
    ensures r == [] || !IsSpace(r[0])
  {
    if s != [] && IsSpace(s[0]) then DropSpaces(s[1..]) else s
  }

  /** `s.replace(/\s+/g, '-')`: every maximal run of whitespace becomes one dash. */
  function DashSpaces(s: string): (r: string)
    ensures |r| <= |s|
    ensures HasNoSpace(r)
    decreases |s|
  {
    if s == [] then []
    else if IsSpace(s[0]) then
      var rest := DashSpaces(DropSpaces(s[1..]));
      NoSpaceCons('-', rest);
      ['-'] + rest
    else
      var rest := DashSpaces(s[1..]);
      NoSpaceCons(s[0], rest);
      [s[0]] + rest
  }

  lemma NoSpaceCons(c: char, rest: string)
    requires !IsSpace(c) && HasNoSpace(rest)
    ensures HasNoSpace([c] + rest)
  {
    forall i | 0 <= i < |[c] + rest| ensures !IsSpace(([c] + rest)[i]) {
      if i > 0 {
        assert ([c] + rest)[i] == rest[i - 1];
      }
    }
  }

  lemma NoSpaceAppend(a: string, b: string)
    requires HasNoSpace(a) && HasNoSpace(b)
    ensures HasNoSpace(a + b)
  {
    forall i | 0 <= i < |a + b| ensures !IsSpace((a + b)[i]) {
      if i >= |a| {
        assert (a + b)[i] == b[i - |a|];
      }
    }
  }

  /** A string without whitespace has nothing to replace. */
  lemma {:induction false} DashSpacesKeepsWords(s: string)
    requires HasNoSpace(s)
    ensures DashSpaces(s) == s
    decreases |s|
  {
    if s != [] {
      assert !IsSpace(s[0]);
      assert HasNoSpace(s[1..]) by {
        forall i | 0 <= i < |s[1..]| ensures !IsSpace(s[1..][i]) {
          assert s[1..][i] == s[i + 1];
        }
      }
      DashSpacesKeepsWords(s[1..]);
      assert s == [s[0]] + s[1..];
    }
  }

  /** Leading whitespace followed by a non-space (or nothing) is dropped entirely. */
  lemma {:induction false} DropBlankPrefix(sp: string, t: string)
    requires IsBlank(sp) && (t == [] || !IsSpace(t[0]))
    ensures DropSpaces(sp + t) == t
    decreases |sp|
  {
    if sp == [] {
      assert sp + t == t;
    } else {
      assert (sp + t)[1..] == sp[1..] + t;
      assert IsBlank(sp[1..]) by {
        forall i | 0 <= i < |sp[1..]| ensures IsSpace(sp[1..][i]) {
          assert sp[1..][i] == sp[i + 1];
        }
      }
      DropBlankPrefix(sp[1..], t);
    }
  }

  /** A run of whitespace at the start becomes one dash. */
  lemma DashSpacesRunStart(sp: string, t: string)
    requires sp != [] && IsBlank(sp) && (t == [] || !IsSpace(t[0]))
    ensures DashSpaces(sp + t) == "-" + DashSpaces(t)
  {
    assert (sp + t)[0] == sp[0];
    assert (sp + t)[1..] == sp[1..] + t;
    assert IsBlank(sp[1..]) by {
      forall i | 0 <= i < |sp[1..]| ensures IsSpace(sp[1..][i]) {
        assert sp[1..][i] == sp[i + 1];
      }
    }
    DropBlankPrefix(sp[1..], t);
  }

  /**
   * One maximal run of whitespace becomes exactly one dash: the word before it
   * is kept as it is, and the rewrite goes on after the run.
   */
  lemma {:induction false} DashSpacesRun(w: string, sp: string, t: string)
    requires HasNoSpace(w) && sp != [] && IsBlank(sp) && (t == [] || !IsSpace(t[0]))
    ensures DashSpaces(w + sp + t) == w + "-" + DashSpaces(t)
    decreases |w|
  {
    if w == [] {
      assert w + sp + t == sp + t;
      DashSpacesRunStart(sp, t);
    } else {
      var rest := w[1..] + sp + t;
      NoSpaceTail(w);
      calc {
        DashSpaces(w + sp + t);
        { assert w + sp + t == [w[0]] + rest; }
        DashSpaces([w[0]] + rest);
        { DashSpacesKeepsChar(w[0], rest); }
        [w[0]] + DashSpaces(rest);
        { DashSpacesRun(w[1..], sp, t); }
        [w[0]] + (w[1..] + "-" + DashSpaces(t));
        { assert [w[0]] + w[1..] == w; }
        w + "-" + DashSpaces(t);
      }
    }
  }

  lemma NoSpaceTail(w: string)
    requires w != [] && HasNoSpace(w)
    ensures !IsSpace(w[0]) && HasNoSpace(w[1..])
  {
    forall i | 0 <= i < |w[1..]| ensures !IsSpace(w[1..][i]) {
      assert w[1..][i] == w[i + 1];
    }
  }

  /** A character other than whitespace is copied, and the rewrite goes on after it. */
  lemma DashSpacesKeepsChar(c: char, s: string)
    requires !IsSpace(c)
    ensures DashSpaces([c] + s) == [c] + DashSpaces(s)
  {
    assert ([c] + s)[0] == c;
    assert ([c] + s)[1..] == s;
  }

  /** The fallback-id rewrite: whitespace runs to `-`, then lower case. */
  function Slug(s: string): (r: string)
    ensures |r| <= |s|
    ensures HasNoSpace(r)
    ensures forall i :: 0 <= i < |r| ==> !IsUpper(r[i])
  {
    ToLower(DashSpaces(s))
  }

  // ---------------------------------------------------------------------------
  // Substrings

  predicate StartsWith(s: string, prefix: string) {
    |prefix| <= |s| && s[..|prefix|] == prefix
  }

  /** Three pieces joined start with the first and end with the last. */
  lemma PrefixAndSuffix(a: string, b: string, c: string)
    ensures StartsWith(a + b + c, a)
    ensures |c| <= |a + b + c| && (a + b + c)[|a + b + c| - |c|..] == c
  {
    assert (a + b + c)[..|a|] == a;
  }

  /** `s.includes(sub)`. */
  predicate Contains(s: string, sub: string)
    decreases |s|
  {
    StartsWith(s, sub) || (s != [] && Contains(s[1..], sub))
  }

  /** `sub` occurs in `s` starting at index `i`. */
  predicate OccursAt(s: string, sub: string, i: int) {
    0 <= i && i + |sub| <= |s| && s[i..i + |sub|] == sub
  }

  /** `Contains` finds exactly the positions where `sub` occurs. */
  lemma {:induction false} ContainsIff(s: string, sub: string)
    ensures Contains(s, sub) <==> exists i :: OccursAt(s, sub, i)
    decreases |s|
  {
    if StartsWith(s, sub) {
      assert OccursAt(s, sub, 0);
    } else if s == [] {
    } else {
      ContainsIff(s[1..], sub);
      if exists i :: OccursAt(s, sub, i) {
        var i :| OccursAt(s, sub, i);
        assert i != 0;
        assert s[1..][i - 1..i - 1 + |sub|] == s[i..i + |sub|];
        assert OccursAt(s[1..], sub, i - 1);
      }
      if Contains(s[1..], sub) {
        var i :| OccursAt(s[1..], sub, i);
        assert s[1..][i..i + |sub|] == s[i + 1..i + 1 + |sub|];
        assert OccursAt(s, sub, i + 1);
      }
    }
  }

  lemma ContainsEmpty(s: string)
    ensures Contains(s, "")
  {
  }

  lemma {:induction false} ContainsSelf(s: string)
    ensures Contains(s, s)
  {
    assert s[..|s|] == s;
  }

  // ---------------------------------------------------------------------------
  // Splitting and joining on one separator character

  /** The first index of `c` in `s`, or `|s|` when there is none. */
  function IndexOf(s: string, c: char): (i: nat)
    ensures i <= |s|
    ensures i < |s| ==> s[i] == c
    ensures forall j :: 0 <= j < i ==> s[j] != c
  {
    if s == [] then 0
    else if s[0] == c then 0
    else 1 + IndexOf(s[1..], c)
  }

  /** `s.split(sep)` for a one-character separator; empty pieces are kept, as in JavaScript. */
  function Split(s: string, sep: char): (parts: seq<string>)
    ensures |parts| >= 1
    ensures forall k :: 0 <= k < |parts| ==> sep !in parts[k]
    decreases |s|
  {
    var i := IndexOf(s, sep);
    if i == |s| then [s] else [s[..i]] + Split(s[i + 1..], sep)
  }

  /** `parts.join(sep)`. */
  function Join(parts: seq<string>, sep: char): string
  {
    if parts == [] then ""
    else if |parts| == 1 then parts[0]
    else parts[0] + [sep] + Join(parts[1..], sep)
  }

  /** Every part occurs in the joined text. */
  lemma {:induction false} JoinContainsPart(parts: seq<string>, sep: char, k: nat)
    requires k < |parts|
    ensures Contains(Join(parts, sep), parts[k])
    decreases k
  {
    var j := Join(parts, sep);
    if |parts| == 1 {
      ContainsSelf(parts[0]);
    } else {
      var tail := Join(parts[1..], sep);
      assert j == parts[0] + [sep] + tail;
      if k == 0 {
        assert OccursAt(j, parts[0], 0);
      } else {
        JoinContainsPart(parts[1..], sep, k - 1);
        ContainsIff(tail, parts[k]);
        var i :| OccursAt(tail, parts[k], i);
        assert j[|parts[0]| + 1 + i..|parts[0]| + 1 + i + |parts[k]|] == tail[i..i + |parts[k]|];
        assert OccursAt(j, parts[k], |parts[0]| + 1 + i);
      }
      ContainsIff(j, parts[k]);
    }
  }

  /** Lower-casing keeps an occurrence, lower-cased. */
  lemma LowerKeepsContains(s: string, sub: string)
    requires Contains(s, sub)
    ensures Contains(ToLower(s), ToLower(sub))
  {
    ContainsIff(s, sub);
    var i :| OccursAt(s, sub, i);
    assert ToLower(s)[i..i + |sub|] == ToLower(sub);
    assert OccursAt(ToLower(s), ToLower(sub), i);
    ContainsIff(ToLower(s), ToLower(sub));
  }

  /** Joining the pieces of a split gives back the original string. */
  lemma {:induction false} JoinSplit(s: string, sep: char)
    ensures Join(Split(s, sep), sep) == s
    decreases |s|
  {
    var i := IndexOf(s, sep);
    if i < |s| {
      var rest := Split(s[i + 1..], sep);
      JoinSplit(s[i + 1..], sep);
      assert Split(s, sep) == [s[..i]] + rest;
      JoinCons(s[..i], rest, sep);
      assert s == s[..i] + [sep] + s[i + 1..];
    }
  }

  /** Joining a first piece onto at least one more puts the separator between them. */
  lemma JoinCons(first: string, rest: seq<string>, sep: char)
    requires |rest| >= 1
    ensures Join([first] + rest, sep) == first + [sep] + Join(rest, sep)
  {
    assert ([first] + rest)[1..] == rest;
  }

  /** Two separators in a row leave an empty piece between them. */
  lemma {:induction false} SplitDoubleSeparator(s: string, sep: char, i: nat)
    requires i + 1 < |s| && s[i] == sep && s[i + 1] == sep
    ensures "" in Split(s, sep)
    decreases |s|
  {
    var j := IndexOf(s, sep);
    assert j <= i;
    var rest := s[j + 1..];
    var parts := Split(rest, sep);
    assert Split(s, sep) == [s[..j]] + parts;
    if j == i {
      assert rest[0] == sep;
      assert IndexOf(rest, sep) == 0;
      assert parts[0] == rest[..0] == "";
      assert Split(s, sep)[1] == "";
    } else {
      SplitDoubleSeparator(rest, sep, i - j - 1);
      assert "" in parts;
    }
  }

  /** A character other than the separator ends up in a non-empty piece. */
  lemma {:induction false} SplitKeepsNonSeparator(s: string, sep: char, i: nat)
    requires i < |s| && s[i] != sep
    ensures exists k :: 0 <= k < |Split(s, sep)| && Split(s, sep)[k] != ""
    decreases |s|
  {
    var j := IndexOf(s, sep);
    if j == |s| {
      assert Split(s, sep)[0] == s;
    } else if i < j {
      var first := s[..j];
      assert Split(s, sep)[0] == first;
      assert first[i] == s[i];
    } else {
      assert i > j;
      var rest := s[j + 1..];
      var parts := Split(rest, sep);
      assert Split(s, sep) == [s[..j]] + parts;
      assert rest[i - j - 1] == s[i];
      SplitKeepsNonSeparator(rest, sep, i - j - 1);
      var k :| 0 <= k < |parts| && parts[k] != "";
      assert Split(s, sep)[k + 1] == parts[k];
    }
  }

  /** An empty part that is neither first nor last is joined between two adjacent separators. */
  lemma {:induction false} JoinEmptyPart(parts: seq<string>, sep: char, k: nat)
    requires 0 < k < |parts| - 1 && parts[k] == ""
    ensures exists i :: 0 <= i && i + 1 < |Join(parts, sep)| && Join(parts, sep)[i] == sep && Join(parts, sep)[i + 1] == sep
    decreases k
  {
    var tail := Join(parts[1..], sep);
    assert Join(parts, sep) == parts[0] + [sep] + tail;
    if k == 1 {
      assert parts[1..][1..] == parts[2..];
      assert tail == [sep] + Join(parts[2..], sep);
      var j := Join(parts, sep);
      assert j[|parts[0]|] == sep && j[|parts[0]| + 1] == tail[0];
    } else {
      JoinEmptyPart(parts[1..], sep, k - 1);
      var i :| 0 <= i && i + 1 < |tail| && tail[i] == sep && tail[i + 1] == sep;
      assert Join(parts, sep)[|parts[0]| + 1 + i] == tail[i];
      assert Join(parts, sep)[|parts[0]| + 2 + i] == tail[i + 1];
    }
  }

  // ---------------------------------------------------------------------------
  // Integers as decimal text

  predicate IsDigit(c: char) {
    48 <= c as int <= 57
  }

  function DigitChar(d: nat): char
    requires d < 10
  {
    (48 + d) as char
  }

  function NatToString(n: nat): (r: string)
    ensures |r| >= 1
    ensures forall i :: 0 <= i < |r| ==> IsDigit(r[i])
  {
    if n < 10 then [DigitChar(n)] else NatToString(n / 10) + [DigitChar(n % 10)]
  }

  /** `String(n)` for an integer. */
  function IntToString(n: int): string
  {
    if n < 0 then "-" + NatToString(-n) else NatToString(n)
  }

  /** The decimal text of an integer holds digits and possibly a minus sign, never whitespace. */
  lemma IntToStringNoSpace(n: int)
    ensures HasNoSpace(IntToString(n))
  {
    var r := IntToString(n);
    forall i | 0 <= i < |r| ensures !IsSpace(r[i]) {
      if n < 0 {
        if i > 0 {
          assert r[i] == NatToString(-n)[i - 1];
        }
      }
    }
  }

  /** The value of a string of decimal digits. */
  function DigitsValue(s: string): nat
    requires forall i :: 0 <= i < |s| ==> IsDigit(s[i])
  {
    if s == [] then 0
    else
      assert IsDigit(s[|s| - 1]);
      10 * DigitsValue(s[..|s| - 1]) + (s[|s| - 1] as int - 48)
  }

  /** The length of the longest all-digit prefix. */
  function DigitPrefix(s: string): (n: nat)
    ensures n <= |s|
    ensures forall i :: 0 <= i < n ==> IsDigit(s[i])
    ensures n < |s| ==> !IsDigit(s[n])
  {
    if s != [] && IsDigit(s[0]) then 1 + DigitPrefix(s[1..]) else 0
  }

  /** The value of the longest all-digit prefix of `u`, or `None` when it is empty. */
  function ParseDigits(u: string): Option<nat>
  {
    var n := DigitPrefix(u);
    if n == 0 then None else Some(DigitsValue(u[..n]))
  }

  /** `0x` or `0X`: the prefix that makes `parseInt` without a radix read base 16. */
  predicate HasHexPrefix(u: string) {
    |u| >= 2 && u[0] == '0' && (u[1] == 'x' || u[1] == 'X')
  }

  predicate IsHexDigit(c: char) {
    IsDigit(c) || 'a' <= c <= 'f' || 'A' <= c <= 'F'
  }

  function HexDigitValue(c: char): (v: nat)
    requires IsHexDigit(c)
    ensures v < 16
  {
    if IsDigit(c) then c as int - 48 else if 'a' <= c <= 'f' then c as int - 87 else c as int - 55
  }

  /** The value of a string of hexadecimal digits. */
  function HexValue(s: string): nat
    requires forall i :: 0 <= i < |s| ==> IsHexDigit(s[i])
  {
    if s == [] then 0
    else
      assert IsHexDigit(s[|s| - 1]);
      16 * HexValue(s[..|s| - 1]) + HexDigitValue(s[|s| - 1])
  }

  /** The length of the longest all-hexadecimal-digit prefix. */
  function HexPrefix(s: string): (n: nat)
    ensures n <= |s|
    ensures forall i :: 0 <= i < n ==> IsHexDigit(s[i])
    ensures n < |s| ==> !IsHexDigit(s[n])
  {
    if s != [] && IsHexDigit(s[0]) then 1 + HexPrefix(s[1..]) else 0
  }

  /** The value of the longest hexadecimal prefix of `u`, or `None` when it is empty. */
  function ParseHexDigits(u: string): Option<nat>
  {
    var n := HexPrefix(u);
    if n == 0 then None else Some(HexValue(u[..n]))
  }

  /**
   * `parseInt(s)` without a radix: leading whitespace and one sign are
   * skipped; after `0x` or `0X` the longest run of hexadecimal digits is
   * read, otherwise the longest run of decimal digits; `None` stands for NaN
   * (no digits). A result needs a digit of `s`, and a string of decimal
   * digits reads as its decimal value.
   */
  function ParseInt(s: string): (r: Option<int>)
    ensures r.Some? ==> exists i :: 0 <= i < |s| && IsDigit(s[i])
    ensures s != [] && (forall i :: 0 <= i < |s| ==> IsDigit(s[i])) ==> r == Some(DigitsValue(s) as int)
  {
    ParseNeedsDigit(DropSpaces(s));
    DecimalParses(s);
    ParseSignedDigits(DropSpaces(s))
  }

  lemma DecimalParses(s: string)
    ensures s != [] && (forall i :: 0 <= i < |s| ==> IsDigit(s[i])) ==>
      ParseSignedDigits(DropSpaces(s)) == Some(DigitsValue(s) as int)
  {
    if s != [] && forall i :: 0 <= i < |s| ==> IsDigit(s[i]) {
      assert IsDigit(s[0]) && !IsSpace(s[0]);
      DropSpacesNoSpace(s);
      ParseUnsigned(s);
    }
  }

  /** `parseInt` once leading whitespace is gone. */
  function ParseSignedDigits(t: string): Option<int>
  {
    var signed := t != [] && (t[0] == '-' || t[0] == '+');
    var u := if signed then t[1..] else t;
    match (if HasHexPrefix(u) then ParseHexDigits(u[2..]) else ParseDigits(u))
    case None => None
    case Some(v) => if signed && t[0] == '-' then Some(-(v as int)) else Some(v as int)
  }

  /** Whatever is read, the unsigned part starts with a digit: a decimal digit or the `0` of `0x`. */
  lemma ParseNeedsDigit(t: string)
    ensures ParseSignedDigits(t).Some? ==> exists i :: 0 <= i < |t| && IsDigit(t[i])
  {
    var signed := t != [] && (t[0] == '-' || t[0] == '+');
    var u := if signed then t[1..] else t;
    if ParseSignedDigits(t).Some? {
      assert u != [] && IsDigit(u[0]);
      assert u[0] == t[if signed then 1 else 0];
    }
  }

  /** `parseInt` reads `0x10` as 16. */
  lemma ParseIntHex()
    ensures ParseInt("0x10") == Some(16)
  {
    DropSpacesNoSpace("0x10");
    ParseHexUnsigned("0x10");
    assert "0x10"[2..] == "10";
    HexTen();
  }

  /** After `0x` with no sign, the hexadecimal digits are read. */
  lemma ParseHexUnsigned(t: string)
    requires HasHexPrefix(t)
    ensures ParseSignedDigits(t) == if ParseHexDigits(t[2..]).Some? then Some(ParseHexDigits(t[2..]).value as int) else None
  {
  }

  lemma HexTen()
    ensures ParseHexDigits("10") == Some(16)
  {
    assert "0"[1..] == [] && "10"[1..] == "0";
    assert HexPrefix("10") == 2;
    assert "10"[..2] == "10" && "10"[..1] == "1" && "1"[..0] == [];
  }

  /** `parseInt` reads `010` as 10: there is no octal prefix. */
  lemma ParseIntLeadingZero()
    ensures ParseInt("010") == Some(10)
  {
    assert forall i :: 0 <= i < 3 ==> IsDigit("010"[i]);
    assert "010"[..2] == "01" && "01"[..1] == "0" && "0"[..0] == [];
    assert DigitsValue("0") == 0;
    assert DigitsValue("01") == 1;
    assert DigitsValue("010") == 10;
  }

  /** `parseInt` reads a bare `0x` as NaN. */
  lemma ParseIntBarePrefix()
    ensures ParseInt("0x") == None
  {
    DropSpacesNoSpace("0x");
    assert "0x"[2..] == [];
  }

  lemma {:induction false} NatToStringValue(n: nat)
    ensures DigitsValue(NatToString(n)) == n
  {
    if n >= 10 {
      NatToStringValue(n / 10);
      var r := NatToString(n);
      assert r[..|r| - 1] == NatToString(n / 10);
    }
  }

  /** `parseInt(String(n)) == n`: decimal rendering and parsing are inverse. */
  lemma ParseIntToString(n: int)
    ensures ParseInt(IntToString(n)) == Some(n)
  {
    var m: nat := if n < 0 then -n else n;
    var digits := NatToString(m);
    NatToStringValue(m);
    var t := IntToString(n);
    assert t[0] == '-' || IsDigit(t[0]);
    ParseIntNoSpace(t);
    if n < 0 {
      ParseNegative(digits);
    } else {
      ParseUnsigned(digits);
    }
  }

  lemma ParseIntNoSpace(t: string)
    requires t != [] && !IsSpace(t[0])
    ensures ParseInt(t) == ParseSignedDigits(t)
  {
    DropSpacesNoSpace(t);
  }

  lemma ParseNegative(digits: string)
    requires digits != [] && forall i :: 0 <= i < |digits| ==> IsDigit(digits[i])
    ensures ParseSignedDigits("-" + digits) == Some(-(DigitsValue(digits) as int))
  {
    var t := "-" + digits;
    assert t[1..] == digits;
    DigitsNotHex(digits);
    ParseAllDigits(digits);
    assert t != [] && t[0] == '-' && !HasHexPrefix(t[1..]);
    assert ParseDigits(t[1..]) == Some(DigitsValue(digits));
  }

  lemma ParseUnsigned(digits: string)
    requires digits != [] && forall i :: 0 <= i < |digits| ==> IsDigit(digits[i])
    ensures ParseSignedDigits(digits) == Some(DigitsValue(digits) as int)
  {
    assert IsDigit(digits[0]);
    DigitsNotHex(digits);
    ParseAllDigits(digits);
  }

  /** A string of decimal digits has no `0x` prefix: `x` is not a digit. */
  lemma DigitsNotHex(digits: string)
    requires forall i :: 0 <= i < |digits| ==> IsDigit(digits[i])
    ensures !HasHexPrefix(digits)
  {
    if |digits| >= 2 {
      assert IsDigit(digits[1]);
    }
  }

  lemma ParseAllDigits(digits: string)
    requires digits != [] && forall i :: 0 <= i < |digits| ==> IsDigit(digits[i])
    ensures ParseDigits(digits) == Some(DigitsValue(digits))
  {
    DigitPrefixAll(digits);
    assert digits[..|digits|] == digits;
  }

  lemma DropSpacesNoSpace(t: string)
    requires t != [] && !IsSpace(t[0])
    ensures DropSpaces(t) == t
  {
  }

  lemma {:induction false} DigitPrefixAll(s: string)
    requires forall i :: 0 <= i < |s| ==> IsDigit(s[i])
    ensures DigitPrefix(s) == |s|
  {
    if s != [] {
      DigitPrefixAll(s[1..]);
    }
  }
}
