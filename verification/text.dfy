/** The JavaScript string primitives the components rely on, on `seq<char>`:
    `toLowerCase`, `trim`, `split`, `join`, `includes` and `parseInt`. */
module Text {
  import opened Wrappers

  /** `c.toLowerCase()` for the ASCII letters; every other character is left
      as it is. */
  function LowerChar(c: char): char
  {
    if 'A' <= c <= 'Z' then (c as int - 'A' as int + 'a' as int) as char else c
  }

  /** `s.toLowerCase()`, character by character. */
  function Lower(s: string): (r: string)
    ensures |r| == |s|
    ensures forall i :: 0 <= i < |s| ==> r[i] == LowerChar(s[i])
  {
    if s == [] then [] else [LowerChar(s[0])] + Lower(s[1..])
  }

  predicate IsAsciiLetter(c: char)
  {
    'a' <= c <= 'z'
  }

  /** Lower-casing never yields an upper-case ASCII letter, so it is idempotent. */
  lemma {:induction false} LowerIdempotent(s: string)
    ensures Lower(Lower(s)) == Lower(s)
  {
    if s != [] {
      LowerIdempotent(s[1..]);
    }
  }

  /** ECMAScript WhiteSpace and LineTerminator code points: what `trim` removes. */
  predicate IsWhitespace(c: char)
  {
    || c == '\t' || c == '\U{000B}' || c == '\U{000C}' || c == ' ' || c == '\U{00A0}' || c == '\U{FEFF}'
    || c == '\n' || c == '\r' || c == '\U{2028}' || c == '\U{2029}'
    || c == '\U{1680}' || ('\U{2000}' <= c <= '\U{200A}') || c == '\U{202F}' || c == '\U{205F}'
    || c == '\U{3000}'
  }

  /** `needle` occurs in `hay` starting at position `i`. */
  predicate OccursAt(hay: string, needle: string, i: int)
  {
    0 <= i && i + |needle| <= |hay| && hay[i..i + |needle|] == needle
  }

  /** `s` has no whitespace at either end: `s.trim() === s`. */
  predicate IsTrimmed(s: string)
  {
    s == [] || (!IsWhitespace(s[0]) && !IsWhitespace(s[|s| - 1]))
  }

  function TrimStart(s: string): (r: string)
    ensures |r| <= |s| && r == s[|s| - |r|..]
    ensures r == [] || !IsWhitespace(r[0])
    ensures forall i :: 0 <= i < |s| - |r| ==> IsWhitespace(s[i])
  {
    if s != [] && IsWhitespace(s[0]) then TrimStart(s[1..]) else s
  }

  function TrimEnd(s: string): (r: string)
    ensures |r| <= |s| && r == s[..|r|]
    ensures r == [] || !IsWhitespace(r[|r| - 1])
    ensures forall i :: |r| <= i < |s| ==> IsWhitespace(s[i])
  {
    if s != [] && IsWhitespace(s[|s| - 1]) then TrimEnd(s[..|s| - 1]) else s
  }

  /** `s.trim()`: the slice of `s` left after removing whitespace at both ends. */
  function Trim(s: string): (r: string)
    ensures IsTrimmed(r)
    ensures exists i :: OccursAt(s, r, i)
  {
    var t := TrimStart(s);
    var r := TrimEnd(t);
    assert OccursAt(s, r, |s| - |t|);
    r
  }

  /** Trimming an already trimmed string changes nothing. */
  lemma {:induction false} TrimOfTrimmed(s: string)
    requires IsTrimmed(s)
    ensures Trim(s) == s
  {
  }

  /** A leading space is dropped by `trim`. */
  lemma {:induction false} TrimLeadingSpace(s: string)
    ensures Trim([' '] + s) == Trim(s)
  {
    assert ([' '] + s)[1..] == s;
  }

  /** `s.split(sep)` for a one-character separator: the pieces between
      separators, so `k` separators give `k + 1` pieces (and `""` gives `[""]`). */
  function Split(s: string, sep: char): (r: seq<string>)
    ensures |r| == CountChar(s, sep) + 1
    ensures forall i :: 0 <= i < |r| ==> sep !in r[i]
  {
    if s == [] then [""]
    else
      var rest := Split(s[1..], sep);
      if s[0] == sep then [""] + rest else [[s[0]] + rest[0]] + rest[1..]
  }

  function CountChar(s: string, c: char): nat
  {
    if s == [] then 0 else (if s[0] == c then 1 else 0) + CountChar(s[1..], c)
  }

  /** `xs.join(d)`. */
  function Join(xs: seq<string>, d: string): string
  {
    if |xs| == 0 then ""
    else if |xs| == 1 then xs[0]
    else xs[0] + d + Join(xs[1..], d)
  }

  /** Joining the pieces of a split with its separator restores the string. */
  lemma {:induction false} JoinSplit(s: string, sep: char)
    ensures Join(Split(s, sep), [sep]) == s
  {
    if s != [] {
      JoinSplit(s[1..], sep);
      var rest := Split(s[1..], sep);
      if s[0] == sep {
        assert Join([""] + rest, [sep]) == "" + [sep] + Join(rest, [sep]);
        assert s == [s[0]] + s[1..];
      } else if |rest| == 1 {
        assert s == [s[0]] + s[1..];
      } else {
        assert ([[s[0]] + rest[0]] + rest[1..])[1..] == rest[1..];
        assert Join(rest, [sep]) == rest[0] + [sep] + Join(rest[1..], [sep]);
        assert s == [s[0]] + s[1..];
      }
    }
  }

  /** A string without the separator is one piece. */
  lemma {:induction false} SplitWithoutSep(s: string, sep: char)
    requires sep !in s
    ensures Split(s, sep) == [s]
  {
    if s != [] {
      SplitWithoutSep(s[1..], sep);
      assert s == [s[0]] + s[1..];
    }
  }

  /** Splitting at a separator that follows a separator-free prefix. */
  lemma {:induction false} SplitAfterPiece(a: string, sep: char, t: string)
    requires sep !in a
    ensures Split(a + [sep] + t, sep) == [a] + Split(t, sep)
  {
    if a == [] {
      assert ([] + [sep] + t)[1..] == t;
    } else {
      var s := a + [sep] + t;
      assert s[1..] == a[1..] + [sep] + t;
      SplitAfterPiece(a[1..], sep, t);
      assert [s[0]] + a[1..] == a;
    }
  }

  /** The decoding the project editor applies to a comma-separated text field:
      `s.split(',').map(t => t.trim())`. */
  function SplitTrim(s: string): (r: seq<string>)
    ensures |r| == CountChar(s, ',') + 1
    ensures forall i :: 0 <= i < |r| ==> IsTrimmed(r[i]) && ',' !in r[i]
  {
    TrimAll(Split(s, ','))
  }

  /** `.map(t => t.trim())` over comma-free pieces. */
  function TrimAll(ps: seq<string>): (r: seq<string>)
    requires forall i :: 0 <= i < |ps| ==> ',' !in ps[i]
    ensures |r| == |ps|
    ensures forall i :: 0 <= i < |r| ==> r[i] == Trim(ps[i]) && IsTrimmed(r[i]) && ',' !in r[i]
  {
    if ps == [] then [] else [TrimComma(ps[0])] + TrimAll(ps[1..])
  }

  /** `Trim` of a piece that holds no comma, which therefore holds none either. */
  function TrimComma(p: string): (r: string)
    requires ',' !in p
    ensures r == Trim(p) && IsTrimmed(r) && ',' !in r
  {
    var r := Trim(p);
    assert forall k :: 0 <= k < |r| ==> r[k] in p by {
      var i :| OccursAt(p, r, i);
      forall k | 0 <= k < |r| ensures r[k] in p {
        assert r[k] == p[i + k];
      }
    }
    r
  }

  /** Splitting an item followed by `", "` and the rest: the item, then the
      pieces of the rest with a space in front of the first. */
  lemma {:induction false} SplitCommaSpace(a: string, t: string)
    requires ',' !in a
    ensures var inner := Split(t, ',');
      Split(a + ", " + t, ',') == [a] + ([[' '] + inner[0]] + inner[1..])
  {
    var inner := Split(t, ',');
    var spaced := [' '] + t;
    assert a + ", " + t == a + [','] + spaced;
    SplitAfterPiece(a, ',', spaced);
    assert spaced[1..] == t;
  }

  /** A space in front of the first piece is trimmed away. */
  lemma {:induction false} TrimSpacedHead(ps: seq<string>)
    requires ps != [] && forall i :: 0 <= i < |ps| ==> ',' !in ps[i]
    ensures TrimAll([[' '] + ps[0]] + ps[1..]) == TrimAll(ps)
  {
    var first := [' '] + ps[0];
    assert ',' !in first;
    TrimAllCons(first, ps[1..]);
    TrimAllCons(ps[0], ps[1..]);
    TrimLeadingSpace(ps[0]);
    assert ps == [ps[0]] + ps[1..];
  }

  /** One item followed by `", "` and the rest decodes as that item and the
      decoding of the rest. */
  lemma {:induction false} SplitTrimCons(a: string, t: string)
    requires ',' !in a && IsTrimmed(a)
    ensures SplitTrim(a + ", " + t) == [a] + SplitTrim(t)
  {
    var inner := Split(t, ',');
    var spacedPieces := [[' '] + inner[0]] + inner[1..];
    SplitCommaSpace(a, t);
    assert forall i :: 0 <= i < |spacedPieces| ==> ',' !in spacedPieces[i] by {
      assert Split(a + ", " + t, ',')[1..] == spacedPieces;
    }
    TrimAllCons(a, spacedPieces);
    TrimSpacedHead(inner);
    TrimOfTrimmed(a);
  }

  lemma {:induction false} TrimAllCons(p: string, ps: seq<string>)
    requires ',' !in p && forall i :: 0 <= i < |ps| ==> ',' !in ps[i]
    ensures TrimAll([p] + ps) == [Trim(p)] + TrimAll(ps)
  {
    assert ([p] + ps)[1..] == ps;
  }

  /** The comma list shown by the editor (`xs.join(', ')`) decodes back to `xs`
      when `xs` is non-empty and no item holds a comma or surrounding
      whitespace. */
  lemma {:induction false} SplitTrimOfJoin(xs: seq<string>)
    requires |xs| > 0
    requires forall i :: 0 <= i < |xs| ==> ',' !in xs[i] && IsTrimmed(xs[i])
    ensures SplitTrim(Join(xs, ", ")) == xs
  {
    if |xs| == 1 {
      SplitWithoutSep(xs[0], ',');
      TrimOfTrimmed(xs[0]);
    } else {
      assert xs == [xs[0]] + xs[1..];
      SplitTrimOfJoin(xs[1..]);
      SplitTrimCons(xs[0], Join(xs[1..], ", "));
    }
  }

  /** Clearing a list field in the editor gives one empty item, not an empty list. */
  lemma {:induction false} SplitTrimOfEmpty()
    ensures SplitTrim("") == [""]
  {
  }

  /** An occurrence past the first position is an occurrence in the tail. */
  lemma {:induction false} OccursInTail(hay: string, needle: string, i: int)
    requires hay != [] && i > 0
    ensures OccursAt(hay, needle, i) <==> OccursAt(hay[1..], needle, i - 1)
  {
    if i + |needle| <= |hay| {
      assert hay[i..i + |needle|] == hay[1..][i - 1..i - 1 + |needle|];
    }
  }

  /** `hay.includes(needle)`, computed by trying each start position. */
  function Includes(hay: string, needle: string): (r: bool)
    ensures r <==> exists i :: OccursAt(hay, needle, i)
  {
    if |needle| <= |hay| && hay[..|needle|] == needle then
      assert OccursAt(hay, needle, 0);
      true
    else if hay == [] then
      false
    else
      var r := Includes(hay[1..], needle);
      if r then
        var i :| OccursAt(hay[1..], needle, i);
        OccursInTail(hay, needle, i + 1);
        true
      else
        assert forall i :: !OccursAt(hay, needle, i) by {
          forall i ensures !OccursAt(hay, needle, i) {
            if i > 0 {
              OccursInTail(hay, needle, i);
            }
          }
        }
        false
  }

  predicate IsDigit(c: char)
  {
    '0' <= c <= '9'
  }

  /** The longest prefix of `s` made of decimal digits. */
  function DigitPrefix(s: string): (r: string)
    ensures |r| <= |s| && r == s[..|r|]
    ensures forall i :: 0 <= i < |r| ==> IsDigit(r[i])
    ensures |r| == |s| || !IsDigit(s[|r|])
  {
    if s != [] && IsDigit(s[0]) then [s[0]] + DigitPrefix(s[1..]) else []
  }

  /** The value of a string of decimal digits, most significant first. */
  function DigitsValue(ds: string): nat
    requires forall i :: 0 <= i < |ds| ==> IsDigit(ds[i])
  {
    if ds == [] then 0
    else
      assert IsDigit(ds[|ds| - 1]);
      DigitsValue(ds[..|ds| - 1]) * 10 + (ds[|ds| - 1] as int - '0' as int)
  }

  /** `parseInt(s)` on the values a number input can hold: leading whitespace,
      an optional sign and the longest run of digits; `None` stands for `NaN`. */
  function ParseInt(s: string): (r: Option<int>)
    ensures r.None? <==> DigitPrefix(UnsignedPart(TrimStart(s))) == []
  {
    var t := TrimStart(s);
    var ds := DigitPrefix(UnsignedPart(t));
    if ds == [] then None else Some(SignOf(t) * DigitsValue(ds))
  }

  /** -1 when `t` starts with a minus sign, 1 otherwise. */
  function SignOf(t: string): int
  {
    if t != [] && t[0] == '-' then -1 else 1
  }

  /** `t` without one leading sign character. */
  function UnsignedPart(t: string): string
  {
    if t != [] && (t[0] == '-' || t[0] == '+') then t[1..] else t
  }

  /** The decimal rendering of a natural number. */
  function DecimalString(n: nat): (r: string)
    ensures |r| > 0
    ensures forall i :: 0 <= i < |r| ==> IsDigit(r[i])
  {
    if n < 10 then [('0' as int + n) as char]
    else DecimalString(n / 10) + [('0' as int + n % 10) as char]
  }

  /** Reading the digits of `n` back gives `n`. */
  lemma {:induction false} DigitsValueOfDecimal(n: nat)
    ensures DigitsValue(DecimalString(n)) == n
  {
    if n >= 10 {
      DigitsValueOfDecimal(n / 10);
      var r := DecimalString(n);
      assert r[..|r| - 1] == DecimalString(n / 10);
    }
  }

  lemma {:induction false} DigitPrefixOfDigits(s: string)
    requires forall i :: 0 <= i < |s| ==> IsDigit(s[i])
    ensures DigitPrefix(s) == s
  {
    if s != [] {
      DigitPrefixOfDigits(s[1..]);
    }
  }

  /** A string starting with a digit has no leading whitespace or sign. */
  lemma {:induction false} StartsWithDigit(s: string)
    requires s != [] && IsDigit(s[0])
    ensures TrimStart(s) == s && UnsignedPart(s) == s && SignOf(s) == 1
  {
  }

  /** `parseInt` of a non-empty digit string is its decimal value. */
  lemma {:induction false} ParseIntOfDigits(s: string)
    requires s != [] && forall i :: 0 <= i < |s| ==> IsDigit(s[i])
    ensures ParseInt(s) == Some(DigitsValue(s))
  {
    assert IsDigit(s[0]);
    StartsWithDigit(s);
    DigitPrefixOfDigits(s);
  }

  /** `parseInt` reads back the decimal rendering of any natural number. */
  lemma {:induction false} ParseIntOfDecimal(n: nat)
    ensures ParseInt(DecimalString(n)) == Some(n)
  {
    ParseIntOfDigits(DecimalString(n));
    DigitsValueOfDecimal(n);
  }
}
