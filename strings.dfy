// String operations of the Java and TypeScript standard libraries that the
// application relies on, with the semantics of those libraries written out:
// Java's String.split drops trailing empty pieces, Long.parseLong rejects the
// empty string, String.replace replaces every occurrence from left to right.
module Strings {
  import opened Wrappers

  predicate StartsWith(s: string, prefix: string)
  {
    |prefix| <= |s| && s[..|prefix|] == prefix
  }

  predicate EndsWith(s: string, suffix: string)
  {
    |suffix| <= |s| && s[|s| - |suffix|..] == suffix
  }

  /** `p` occurs in `s` starting at index `i`. */
  predicate OccursAt(s: string, p: string, i: int)
  {
    0 <= i && i + |p| <= |s| && s[i..i + |p|] == p
  }

  /** indexOf(p, from): the first occurrence of `p` at or after `from`, or -1. */
  function IndexOfFrom(s: string, p: string, from: nat): (r: int)
    ensures r == -1 || (from <= r && OccursAt(s, p, r))
    ensures r == -1 ==> forall i :: from <= i ==> !OccursAt(s, p, i)
    ensures r != -1 ==> forall i :: from <= i < r ==> !OccursAt(s, p, i)
    decreases |s| - from
  {
    if from + |p| > |s| then -1
    else if s[from..from + |p|] == p then from
    else IndexOfFrom(s, p, from + 1)
  }

  function IndexOf(s: string, p: string): (r: int)
    ensures r == -1 || OccursAt(s, p, r)
    ensures r == -1 <==> forall i :: !OccursAt(s, p, i)
    ensures forall i :: 0 <= i < r ==> !OccursAt(s, p, i)
  {
    IndexOfFrom(s, p, 0)
  }

  /** Java String.contains and JavaScript String.prototype.includes. */
  predicate Contains(s: string, p: string)
  {
    IndexOf(s, p) != -1
  }

  lemma {:induction false} ContainsAt(s: string, p: string, i: int)
    requires OccursAt(s, p, i)
    ensures Contains(s, p)
  {
  }

  lemma {:induction false} PrefixContained(s: string, p: string)
    requires StartsWith(s, p)
    ensures Contains(s, p)
  {
    assert OccursAt(s, p, 0);
  }

  /** A text that contains `q` contains every prefix of `q`. */
  lemma {:induction false} ContainsPrefixOf(s: string, q: string, p: string)
    requires Contains(s, q) && StartsWith(q, p)
    ensures Contains(s, p)
  {
    var k := IndexOf(s, q);
    assert s[k..k + |p|] == q[..|p|];
    assert OccursAt(s, p, k);
  }

  /** Searching for a one-character text is searching for the character. */
  lemma {:induction false} ContainsChar(s: string, c: char)
    ensures Contains(s, [c]) <==> c in s
  {
    if c in s {
      var k :| 0 <= k < |s| && s[k] == c;
      assert OccursAt(s, [c], k);
    }
    if Contains(s, [c]) {
      var k := IndexOf(s, [c]);
      assert s[k..k + 1] == [c];
      assert s[k] == c;
    }
  }

  /** lastIndexOf(c): the last position holding `c`, or -1. */
  function LastIndexOf(s: string, c: char): (r: int)
    ensures -1 <= r < |s|
    ensures r == -1 <==> c !in s
    ensures r >= 0 ==> s[r] == c && c !in s[r + 1..]
  {
    if |s| == 0 then -1
    else if s[|s| - 1] == c then |s| - 1
    else
      assert s == s[..|s| - 1] + [s[|s| - 1]];
      LastIndexOf(s[..|s| - 1], c)
  }

  /**
   * `name.substring(name.lastIndexOf("."))` for a name that contains '.', the
   * empty text for one that does not: the last '.' and what follows it.
   */
  function DotSuffix(name: string): (r: string)
    ensures '.' !in name <==> r == ""
    ensures '.' in name ==> r[0] == '.' && '.' !in r[1..] && EndsWith(name, r)
  {
    if '.' in name then name[LastIndexOf(name, '.')..] else ""
  }

  /** The code units a character takes in UTF-16: two beyond the Basic Multilingual Plane. */
  function Utf16Units(c: char): (n: nat)
    ensures n == 1 || n == 2
  {
    if c as int >= 0x10000 then 2 else 1
  }

  /** JavaScript's `length`: a string's UTF-16 code units. */
  function Utf16Length(s: string): (n: nat)
    ensures |s| <= n <= 2 * |s|
    ensures n == 0 <==> |s| == 0
  {
    if |s| == 0 then 0 else Utf16Units(s[0]) + Utf16Length(s[1..])
  }

  /** On the Basic Multilingual Plane the JavaScript length is the number of characters. */
  lemma {:induction false} Utf16LengthBmp(s: string)
    requires forall i :: 0 <= i < |s| ==> s[i] as int < 0x10000
    ensures Utf16Length(s) == |s|
  {
    if |s| > 0 {
      Utf16LengthBmp(s[1..]);
    }
  }

  /** Each character beyond the Basic Multilingual Plane adds one unit to the length. */
  lemma {:induction false} Utf16LengthAppend(s: string, t: string)
    ensures Utf16Length(s + t) == Utf16Length(s) + Utf16Length(t)
  {
    if |s| > 0 {
      assert (s + t)[1..] == s[1..] + t;
      Utf16LengthAppend(s[1..], t);
    } else {
      assert s + t == t;
    }
  }

  function LowerChar(c: char): char
  {
    if 'A' <= c <= 'Z' then (c as int - 'A' as int + 'a' as int) as char else c
  }

  /** toLowerCase on the ASCII letters. */
  function ToLower(s: string): (r: string)
    ensures |r| == |s|
    ensures forall i :: 0 <= i < |s| ==> r[i] == LowerChar(s[i])
  {
    if |s| == 0 then "" else [LowerChar(s[0])] + ToLower(s[1..])
  }

  lemma {:induction false} ToLowerIdempotent(s: string)
    ensures ToLower(ToLower(s)) == ToLower(s)
  {
  }

  function UpperChar(c: char): char
  {
    if 'a' <= c <= 'z' then (c as int - 'a' as int + 'A' as int) as char else c
  }

  /** toUpperCase on the ASCII letters: no lower-case ASCII letter is left. */
  function ToUpper(s: string): (r: string)
    ensures |r| == |s|
    ensures forall i :: 0 <= i < |s| ==> r[i] == UpperChar(s[i])
    ensures forall i :: 0 <= i < |r| ==> !('a' <= r[i] <= 'z')
  {
    if |s| == 0 then "" else [UpperChar(s[0])] + ToUpper(s[1..])
  }

  // ---------------------------------------------------------------------
  // Splitting and joining on a one-character separator

  /** Every piece between separators, empty ones included. */
  function Pieces(s: string, sep: char): (r: seq<string>)
    ensures |r| >= 1
    ensures forall k :: 0 <= k < |r| ==> sep !in r[k]
    decreases |s|
  {
    if |s| == 0 then [""]
    else
      var rest := Pieces(s[1..], sep);
      if s[0] == sep then [""] + rest else [[s[0]] + rest[0]] + rest[1..]
  }

  function Join(parts: seq<string>, sep: char): string
  {
    if |parts| == 0 then ""
    else if |parts| == 1 then parts[0]
    else parts[0] + [sep] + Join(parts[1..], sep)
  }

  lemma {:induction false} JoinPieces(s: string, sep: char)
    ensures Join(Pieces(s, sep), sep) == s
    decreases |s|
  {
    if |s| > 0 {
      var rest := Pieces(s[1..], sep);
      JoinPieces(s[1..], sep);
      if s[0] == sep {
        assert Pieces(s, sep)[1..] == rest;
      } else {
        var r := Pieces(s, sep);
        if |rest| == 1 {
          assert r == [[s[0]] + rest[0]];
        } else {
          assert r[1..] == rest[1..];
          assert Join(rest, sep) == rest[0] + [sep] + Join(rest[1..], sep);
        }
      }
    }
  }

  /** A piece free of the separator, then the separator, splits off as one piece. */
  lemma {:induction false} PiecesPrefix(a: string, b: string, sep: char)
    requires sep !in a
    ensures Pieces(a + [sep] + b, sep) == [a] + Pieces(b, sep)
    decreases |a|
  {
    var s := a + [sep] + b;
    if |a| == 0 {
      assert s[1..] == b;
    } else {
      assert s[1..] == a[1..] + [sep] + b;
      PiecesPrefix(a[1..], b, sep);
      assert [a[0]] + a[1..] == a;
    }
  }

  /** Splitting a join of separator-free parts gives the parts back. */
  lemma {:induction false} PiecesJoin(parts: seq<string>, sep: char)
    requires |parts| >= 1
    requires forall k :: 0 <= k < |parts| ==> sep !in parts[k]
    ensures Pieces(Join(parts, sep), sep) == parts
  {
    if |parts| == 1 {
      PiecesNoSeparator(parts[0], sep);
    } else {
      PiecesJoin(parts[1..], sep);
      PiecesPrefix(parts[0], Join(parts[1..], sep), sep);
      assert [parts[0]] + parts[1..] == parts;
    }
  }

  /** A character that is neither the separator nor in any part is not in the join. */
  lemma {:induction false} JoinAvoids(parts: seq<string>, sep: char, c: char)
    requires c != sep
    requires forall k :: 0 <= k < |parts| ==> c !in parts[k]
    ensures c !in Join(parts, sep)
  {
    if |parts| > 1 {
      JoinAvoids(parts[1..], sep, c);
    }
  }

  function DropTrailingEmpty(parts: seq<string>): (r: seq<string>)
    ensures |r| <= |parts| && r == parts[..|r|]
    ensures |r| == 0 || r[|r| - 1] != ""
    ensures forall k :: |r| <= k < |parts| ==> parts[k] == ""
  {
    if |parts| == 0 then []
    else if parts[|parts| - 1] == "" then DropTrailingEmpty(parts[..|parts| - 1])
    else parts
  }

  /**
   * Java's `s.split(sep)` (limit 0) for a separator that is one plain
   * character: the pieces with trailing empty strings removed; the empty
   * input gives one empty piece.
   */
  function JavaSplit(s: string, sep: char): (r: seq<string>)
  {
    if |s| == 0 then [""] else DropTrailingEmpty(Pieces(s, sep))
  }

  lemma {:induction false} PiecesNoSeparator(s: string, sep: char)
    requires sep !in s
    ensures Pieces(s, sep) == [s]
    decreases |s|
  {
    if |s| > 0 {
      PiecesNoSeparator(s[1..], sep);
      assert [s[0]] + s[1..] == s;
    }
  }

  lemma {:induction false} JavaSplitNoSeparator(s: string, sep: char)
    requires sep !in s
    ensures JavaSplit(s, sep) == [s]
  {
    if |s| > 0 {
      PiecesNoSeparator(s, sep);
    }
  }

  /**
   * Java's `s.split(sep, limit)` with limit > 0: at most `limit` pieces, the
   * last holding the rest of the input; empty pieces are kept.
   */
  function SplitLimit(s: string, sep: char, limit: nat): (r: seq<string>)
    requires limit >= 1
    ensures 1 <= |r| <= limit
    ensures forall k :: 0 <= k < |r| - 1 ==> sep !in r[k]
    decreases limit
  {
    var j := FirstIndexOf(s, sep);
    if limit == 1 || j == -1 then [s]
    else [s[..j]] + SplitLimit(s[j + 1..], sep, limit - 1)
  }

  /** Joining the pieces with the separator gives the input back. */
  lemma {:induction false} JoinSplitLimit(s: string, sep: char, limit: nat)
    requires limit >= 1
    ensures Join(SplitLimit(s, sep, limit), sep) == s
    decreases limit
  {
    var j := FirstIndexOf(s, sep);
    if limit > 1 && j != -1 {
      var rest := SplitLimit(s[j + 1..], sep, limit - 1);
      JoinSplitLimit(s[j + 1..], sep, limit - 1);
      assert SplitLimit(s, sep, limit) == [s[..j]] + rest;
      assert s == s[..j] + [sep] + s[j + 1..];
    }
  }

  function FirstIndexOf(s: string, c: char): (r: int)
    ensures -1 <= r < |s|
    ensures r == -1 <==> c !in s
    ensures r >= 0 ==> s[r] == c && c !in s[..r]
  {
    if |s| == 0 then -1
    else if s[0] == c then 0
    else
      var k := FirstIndexOf(s[1..], c);
      if k == -1 then -1 else k + 1
  }

  /** Java `s.replace(target, "")`: every occurrence removed, scanning left to right. */
  function RemoveAll(s: string, target: string): (r: string)
    requires |target| > 0
    ensures |r| <= |s|
    decreases |s|
  {
    if |s| < |target| then s
    else if s[..|target|] == target then RemoveAll(s[|target|..], target)
    else [s[0]] + RemoveAll(s[1..], target)
  }

  lemma {:induction false} RemoveAbsent(s: string, target: string)
    requires |target| > 0
    requires !Contains(s, target)
    ensures RemoveAll(s, target) == s
    decreases |s|
  {
    if |s| >= |target| {
      assert !OccursAt(s, target, 0);
      forall i | true ensures !OccursAt(s[1..], target, i) {
        if OccursAt(s[1..], target, i) {
          assert s[1..][i..i + |target|] == s[i + 1..i + 1 + |target|];
          assert OccursAt(s, target, i + 1);
        }
      }
      RemoveAbsent(s[1..], target);
      assert s == [s[0]] + s[1..];
    }
  }

  /** Removal passes over a prefix in which no occurrence of the target starts. */
  lemma {:induction false} RemoveAllKeepsPrefix(p: string, q: string, target: string)
    requires |target| > 0
    requires forall i :: 0 <= i < |p| ==> !OccursAt(p + q, target, i)
    ensures RemoveAll(p + q, target) == p + RemoveAll(q, target)
    decreases |p|
  {
    if |p| > 0 && |p + q| >= |target| {
      var s := p + q;
      assert !OccursAt(s, target, 0);
      assert s[1..] == p[1..] + q;
      forall i | 0 <= i < |p[1..]| ensures !OccursAt(p[1..] + q, target, i) {
        if i + |target| <= |s[1..]| {
          assert s[i + 1..i + 1 + |target|] == (p[1..] + q)[i..i + |target|];
        }
        assert !OccursAt(s, target, i + 1);
      }
      RemoveAllKeepsPrefix(p[1..], q, target);
      assert RemoveAll(s, target) == [s[0]] + RemoveAll(s[1..], target);
    } else if |p| > 0 {
      assert RemoveAll(q, target) == q;
    } else {
      assert p + q == q;
    }
  }

  /** A string lacking one of the target's characters does not contain the target. */
  lemma {:induction false} MissingCharNotContained(s: string, target: string, k: int)
    requires 0 <= k < |target| && target[k] !in s
    ensures !Contains(s, target)
  {
    forall i ensures !OccursAt(s, target, i) {
      if 0 <= i && i + |target| <= |s| {
        assert s[i..i + |target|][k] == s[i + k];
      }
    }
  }

  // ---------------------------------------------------------------------
  // Decimal numbers

  function DigitChar(d: nat): char
    requires d < 10
  {
    "0123456789"[d]
  }

  predicate IsDigit(c: char) { '0' <= c <= '9' }

  function DigitValue(c: char): nat
    requires IsDigit(c)
  {
    c as int - '0' as int
  }

  /** The decimal text of a natural number, without leading zeros. */
  function NatToString(n: nat): (r: string)
    ensures |r| >= 1
    ensures forall k :: 0 <= k < |r| ==> IsDigit(r[k])
    ensures |r| > 1 ==> r[0] != '0'
  {
    if n < 10 then [DigitChar(n)] else NatToString(n / 10) + [DigitChar(n % 10)]
  }

  /** Java's `%d` / `Long.toString`, and JavaScript's number-to-string for integers. */
  function IntToString(n: int): (r: string)
    ensures |r| >= 1
  {
    if n < 0 then "-" + NatToString(-n) else NatToString(n)
  }

  predicate AllDigits(s: string)
  {
    forall k :: 0 <= k < |s| ==> IsDigit(s[k])
  }

  function DigitsValue(s: string): nat
    requires AllDigits(s)
  {
    if |s| == 0 then 0 else DigitsValue(s[..|s| - 1]) * 10 + DigitValue(s[|s| - 1])
  }

  lemma {:induction false} DigitsOfNat(n: nat)
    ensures DigitsValue(NatToString(n)) == n
  {
    if n >= 10 {
      var s := NatToString(n);
      assert s[..|s| - 1] == NatToString(n / 10);
      DigitsOfNat(n / 10);
    } else {
      assert DigitValue(DigitChar(n)) == n by {
        assert "0123456789"[n] as int == '0' as int + n;
      }
    }
  }

  /** The number of leading decimal digits of `s`. */
  function DigitRun(s: string): (r: nat)
    ensures r <= |s| && AllDigits(s[..r])
    ensures r < |s| ==> !IsDigit(s[r])
  {
    if |s| == 0 || !IsDigit(s[0]) then 0
    else
      var k := DigitRun(s[1..]);
      assert s[..k + 1] == [s[0]] + s[1..][..k];
      k + 1
  }

  const LongMin: int := -0x8000_0000_0000_0000
  const LongMax: int := 0x7FFF_FFFF_FFFF_FFFF

  /**
   * Long.parseLong on ASCII text: an optional sign followed by at least one
   * digit, within the range of a 64-bit long; anything else throws
   * NumberFormatException, modelled as None.
   */
  function ParseLong(s: string): (r: Option<int>)
    ensures r.Some? ==> LongMin <= r.value <= LongMax
    ensures |s| == 0 ==> r.None?
  {
    if |s| == 0 then None
    else
      var negative := s[0] == '-';
      var digits := if s[0] == '-' || s[0] == '+' then s[1..] else s;
      if |digits| == 0 || !AllDigits(digits) then None
      else
        var v: int := if negative then -(DigitsValue(digits) as int) else DigitsValue(digits);
        if LongMin <= v <= LongMax then Some(v) else None
  }

  lemma {:induction false} ParseLongOfIntToString(n: int)
    requires LongMin <= n <= LongMax
    ensures ParseLong(IntToString(n)) == Some(n)
  {
    var s := IntToString(n);
    if n < 0 {
      var m: nat := -n;
      DigitsOfNat(m);
      assert s == "-" + NatToString(m);
      assert s[0] == '-' && s[1..] == NatToString(m);
    } else {
      DigitsOfNat(n);
      assert s == NatToString(n);
      assert IsDigit(s[0]);
    }
  }

  function Pow10(k: nat): nat
  {
    if k == 0 then 1 else 10 * Pow10(k - 1)
  }

  /** A number below 10^k has at most k decimal digits. */
  lemma {:induction false} NatToStringLength(n: nat, k: nat)
    ensures 1 <= k && n < Pow10(k) ==> |NatToString(n)| <= k
  {
    if n >= 10 && 1 <= k && n < Pow10(k) {
      assert Pow10(1) == 10;
      NatToStringLength(n / 10, k - 1);
    }
  }

  /** The decimal text of `n` left-padded with zeros to `width` characters. */
  function ZeroPad(n: nat, width: nat): (r: string)
    ensures |r| == if |NatToString(n)| >= width then |NatToString(n)| else width
    ensures AllDigits(r)
  {
    var d := NatToString(n);
    if |d| >= width then d else Zeros(width - |d|) + d
  }

  function Zeros(k: nat): (r: string)
    ensures |r| == k && AllDigits(r)
  {
    if k == 0 then "" else "0" + Zeros(k - 1)
  }

  /** JavaScript `s.padStart(2, '0')`. */
  function PadStart2(s: string): (r: string)
    ensures |r| == if |s| >= 2 then |s| else 2
    ensures r[|r| - |s|..] == s
  {
    if |s| >= 2 then s else if |s| == 1 then "0" + s else "00"
  }
}
