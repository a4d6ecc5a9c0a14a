/** String operations of the .NET base library that the controller relies on:
    ordinal and case-insensitive substring search, white-space tests,
    splitting on a separator, and decimal formatting of integers. */
module Text {
  import opened Wrappers

  /** `sub` occurs in `s` starting at index `i`. */
  predicate OccursAt(s: string, sub: string, i: int) {
    0 <= i && i + |sub| <= |s| && s[i..i + |sub|] == sub
  }

  /** Ordinal substring search (`string.Contains(string)`), scanning left to right. */
  function Contains(s: string, sub: string): (r: bool)
    ensures r <==> exists i :: OccursAt(s, sub, i)
    decreases |s|
  {
    if |sub| <= |s| && s[..|sub|] == sub then
      assert OccursAt(s, sub, 0);
      true
    else if |s| == 0 then
      false
    else
      var r := Contains(s[1..], sub);
      ShiftOccurrence(s, sub);
      r
  }

  /** An occurrence in `s[1..]` is an occurrence in `s` one position further on. */
  lemma ShiftOccurrence(s: string, sub: string)
    requires |s| > 0
    ensures (exists i :: OccursAt(s[1..], sub, i)) <==> (exists j :: 1 <= j && OccursAt(s, sub, j))
  {
    forall i | OccursAt(s[1..], sub, i)
      ensures OccursAt(s, sub, i + 1)
    {
      assert s[1..][i..i + |sub|] == s[i + 1..i + 1 + |sub|];
    }
    forall j | 1 <= j && OccursAt(s, sub, j)
      ensures OccursAt(s[1..], sub, j - 1)
    {
      assert s[1..][j - 1..j - 1 + |sub|] == s[j..j + |sub|];
    }
  }

  /** Containment is transitive: an occurrence of `b` inside an occurrence of `a` is one in `s`. */
  lemma ContainsTransitive(s: string, a: string, b: string)
    requires Contains(s, a) && Contains(a, b)
    ensures Contains(s, b)
  {
    var i :| OccursAt(s, a, i);
    var j :| OccursAt(a, b, j);
    var w := s[i..i + |a|];
    assert w == a;
    forall k | 0 <= k < |b|
      ensures s[i + j..i + j + |b|][k] == b[k]
    {
      assert b[k] == a[j..j + |b|][k] == a[j + k] == w[j + k] == s[i + j + k];
    }
    assert OccursAt(s, b, i + j);
  }

  /** `char.IsWhiteSpace`: the Unicode white-space characters recognised by .NET. */
  predicate IsWhiteSpace(c: char) {
    var n := c as int;
    || (0x09 <= n <= 0x0D) || n == 0x20 || n == 0x85 || n == 0xA0 || n == 0x1680
    || (0x2000 <= n <= 0x200A) || n == 0x2028 || n == 0x2029 || n == 0x202F
    || n == 0x205F || n == 0x3000
  }

  /** Every character of `s` is white space (vacuously true of the empty string). */
  predicate IsBlank(s: string) {
    forall i :: 0 <= i < |s| ==> IsWhiteSpace(s[i])
  }

  /** `string.IsNullOrWhiteSpace`: null is modelled as `None`. */
  predicate IsNullOrWhiteSpace(s: Option<string>) {
    s.None? || IsBlank(s.value)
  }

  /** A blank string cannot contain a pattern that has a character outside white space. */
  lemma BlankContainsNoMark(s: string, mark: string, k: int)
    requires IsBlank(s)
    requires 0 <= k < |mark| && !IsWhiteSpace(mark[k])
    ensures !Contains(s, mark)
  {
    forall i | OccursAt(s, mark, i)
      ensures s[i + k] == mark[k]
    {
      assert s[i..i + |mark|][k] == s[i + k];
    }
  }

  /** Simple case folding of ASCII letters; every other character is left as it is. */
  function FoldChar(c: char): char {
    if 'A' <= c <= 'Z' then (c as int + 32) as char else c
  }

  /** `s` with every ASCII upper-case letter replaced by its lower-case form. */
  function Fold(s: string): (r: string)
    ensures |r| == |s|
    ensures forall i :: 0 <= i < |s| ==> r[i] == FoldChar(s[i])
  {
    seq(|s|, i requires 0 <= i < |s| => FoldChar(s[i]))
  }

  /** `s.Contains(sub, StringComparison.OrdinalIgnoreCase)` over ASCII letters. */
  predicate ContainsIgnoreCase(s: string, sub: string) {
    Contains(Fold(s), Fold(sub))
  }

  /** Concatenates `parts`, putting `sep` between neighbours (`string.Join`). */
  function Join(parts: seq<string>, sep: char): string
  {
    if |parts| == 0 then ""
    else if |parts| == 1 then parts[0]
    else parts[0] + [sep] + Join(parts[1..], sep)
  }

  /** Joining three pieces puts one separator between each neighbouring pair. */
  lemma Join3(a: string, b: string, c: string, sep: char)
    ensures Join([a, b, c], sep) == a + [sep] + b + [sep] + c
  {
    assert [b, c][1..] == [c];
    assert Join([b, c], sep) == b + [sep] + c;
    assert [a, b, c][1..] == [b, c];
  }

  /** `s.Split(sep)`: pieces between separators, empty pieces kept, nothing trimmed. */
  function Split(s: string, sep: char): (parts: seq<string>)
    ensures |parts| >= 1
    ensures forall i :: 0 <= i < |parts| ==> sep !in parts[i]
    ensures Join(parts, sep) == s
    decreases |s|
  {
    if |s| == 0 then [""]
    else
      var rest := Split(s[1..], sep);
      if s[0] == sep then
        assert Join([""] + rest, sep) == [sep] + Join(rest, sep);
        [""] + rest
      else
        JoinConsChar(s[0], rest, sep);
        [[s[0]] + rest[0]] + rest[1..]
  }

  /** Prefixing the first piece with a character prefixes the joined string with it. */
  lemma JoinConsChar(c: char, parts: seq<string>, sep: char)
    requires |parts| >= 1
    ensures Join([[c] + parts[0]] + parts[1..], sep) == [c] + Join(parts, sep)
  {
    var q := [[c] + parts[0]] + parts[1..];
    if |parts| > 1 {
      assert q[1..] == parts[1..];
    }
  }

  /** Splitting a joined list recovers the list, provided no piece holds the separator. */
  lemma {:induction false} SplitJoin(parts: seq<string>, sep: char)
    requires |parts| >= 1
    requires forall i :: 0 <= i < |parts| ==> sep !in parts[i]
    ensures Split(Join(parts, sep), sep) == parts
    decreases |Join(parts, sep)|
  {
    var s := Join(parts, sep);
    if |parts[0]| == 0 {
      if |parts| > 1 {
        var tail := parts[1..];
        assert s == [sep] + Join(tail, sep);
        assert s[1..] == Join(tail, sep);
        SplitJoin(tail, sep);
        assert parts == [""] + tail;
      }
    } else {
      var c := parts[0][0];
      var q := [parts[0][1..]] + parts[1..];
      assert parts[0] == [c] + q[0];
      assert q[1..] == parts[1..];
      JoinConsChar(c, q, sep);
      assert [[c] + q[0]] + q[1..] == parts;
      assert s == [c] + Join(q, sep);
      assert s[1..] == Join(q, sep);
      forall i | 0 <= i < |q|
        ensures sep !in q[i]
      {
        if i == 0 {
          assert forall x :: x in q[0] ==> x in parts[0];
        } else {
          assert q[i] == parts[i];
        }
      }
      SplitJoin(q, sep);
      assert c != sep by { assert c in parts[0]; }
    }
  }

  /** The number of occurrences of `c` in `s`. */
  function CountChar(s: string, c: char): nat
  {
    if |s| == 0 then 0 else (if s[0] == c then 1 else 0) + CountChar(s[1..], c)
  }

  /** Splitting yields one more piece than there are separators. */
  lemma {:induction false} SplitCount(s: string, sep: char)
    ensures |Split(s, sep)| == CountChar(s, sep) + 1
    decreases |s|
  {
    if |s| > 0 {
      SplitCount(s[1..], sep);
    }
  }

  // ---- decimal formatting of integers (`int.ToString()` with the invariant culture) ----

  predicate IsDigit(c: char) {
    '0' <= c <= '9'
  }

  predicate AllDigits(s: string) {
    forall i :: 0 <= i < |s| ==> IsDigit(s[i])
  }

  function DigitChar(d: nat): (c: char)
    requires d < 10
    ensures IsDigit(c) && c as int - '0' as int == d
  {
    ('0' as int + d) as char
  }

  /** Shortest decimal numeral of `n` (no sign, no leading zero). */
  function NatToString(n: nat): (r: string)
    ensures |r| >= 1 && AllDigits(r)
    decreases n
  {
    if n < 10 then [DigitChar(n)] else NatToString(n / 10) + [DigitChar(n % 10)]
  }

  /** The value of a numeral read most significant digit first. */
  function ParseNat(s: string): nat
    requires AllDigits(s)
    decreases |s|
  {
    if |s| == 0 then 0
    else ParseNat(s[..|s| - 1]) * 10 + (s[|s| - 1] as int - '0' as int)
  }

  lemma {:induction false} ParseNatToString(n: nat)
    ensures ParseNat(NatToString(n)) == n
    decreases n
  {
    if n >= 10 {
      var r := NatToString(n);
      assert r[..|r| - 1] == NatToString(n / 10);
      ParseNatToString(n / 10);
    }
  }

  /** Decimal numeral of `i`, with a leading '-' when negative. */
  function IntToString(i: int): (r: string)
  {
    if i < 0 then "-" + NatToString(-i) else NatToString(i)
  }

  /** Reads back what `IntToString` writes; anything else is `None`. */
  function ParseInt(s: string): Option<int>
  {
    if |s| > 1 && s[0] == '-' && AllDigits(s[1..]) then Some(0 - ParseNat(s[1..]) as int)
    else if |s| > 0 && AllDigits(s) then Some(ParseNat(s))
    else None
  }

  /** Formatting then parsing an integer gives the integer back. */
  lemma ParseIntToString(i: int)
    ensures ParseInt(IntToString(i)) == Some(i)
  {
    var r := IntToString(i);
    if i < 0 {
      assert r[1..] == NatToString(-i);
      ParseNatToString(-i);
    } else {
      ParseNatToString(i);
    }
  }

  /** A numeral holds neither a comma nor any other character outside '-' and digits. */
  lemma IntToStringChars(i: int, c: char)
    requires c != '-' && !IsDigit(c)
    ensures c !in IntToString(i)
  {
    var r := IntToString(i);
    if i < 0 {
      assert forall k :: 1 <= k < |r| ==> r[k] == NatToString(-i)[k - 1];
    }
  }
}
