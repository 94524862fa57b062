/** The handful of Python string operations the scripts rely on: `str(n)` and
    `int(s)` for non-negative integers, `sep.join(pieces)`, `s.split(sep)`,
    `str.isdigit()`, `str.endswith()`, `str.startswith()` and `str.lower()`. */
module Text {
  import opened Results

  predicate IsDigit(c: char) {
    '0' <= c <= '9'
  }

  predicate AllDigits(s: string) {
    forall i :: 0 <= i < |s| ==> IsDigit(s[i])
  }

  /** `s.isdigit()`: true of a non-empty string of digits only. */
  predicate IsNumeral(s: string) {
    |s| > 0 && AllDigits(s)
  }

  function DigitChar(d: nat): (c: char)
    requires d < 10
    ensures IsDigit(c)
    ensures c as int - '0' as int == d
  {
    ('0' as int + d) as char
  }

  /** `str(n)` for a non-negative Python int. */
  function Decimal(n: nat): (s: string)
    ensures IsNumeral(s)
    ensures s[0] == '0' ==> n == 0
    decreases n
  {
    if n < 10 then [DigitChar(n)] else Decimal(n / 10) + [DigitChar(n % 10)]
  }

  /** The value of a string of decimal digits. */
  function NumeralValue(s: string): nat
    requires AllDigits(s)
    decreases |s|
  {
    if |s| == 0 then 0
    else 10 * NumeralValue(s[..|s| - 1]) + (s[|s| - 1] as int - '0' as int)
  }

  /** `int(s)` on the strings the scripts feed it: a numeral has a value;
      any other string is where Python raises ValueError. */
  function ParseNat(s: string): (r: Option<nat>)
    ensures r.Some? <==> IsNumeral(s)
  {
    if IsNumeral(s) then Some(NumeralValue(s)) else None
  }

  /** `int(str(n)) == n`. */
  lemma {:induction false} DecimalRoundTrip(n: nat)
    ensures ParseNat(Decimal(n)) == Some(n)
    decreases n
  {
    var s := Decimal(n);
    if n < 10 {
      assert s[..|s| - 1] == [];
    } else {
      DecimalRoundTrip(n / 10);
      assert s[..|s| - 1] == Decimal(n / 10);
      assert NumeralValue(s) == 10 * (n / 10) + n % 10;
    }
  }

  /** `sep.join(pieces)`; the join of no pieces is the empty string. */
  function Join(sep: char, pieces: seq<string>): string
    decreases |pieces|
  {
    if |pieces| == 0 then []
    else if |pieces| == 1 then pieces[0]
    else pieces[0] + [sep] + Join(sep, pieces[1..])
  }

  /** `s.split(sep)`: the maximal separator-free runs, always at least one. */
  function Split(s: string, sep: char): (pieces: seq<string>)
    ensures |pieces| > 0
    ensures forall i :: 0 <= i < |pieces| ==> sep !in pieces[i]
    decreases |s|
  {
    if |s| == 0 then [[]]
    else
      var rest := Split(s[1..], sep);
      if s[0] == sep then [[]] + rest
      else
        assert sep !in [s[0]] + rest[0];
        [[s[0]] + rest[0]] + rest[1..]
  }

  /** Joining the pieces of a split gives back the string: `split` loses
      nothing but the separators it cuts at. */
  lemma {:induction false} JoinSplit(s: string, sep: char)
    ensures Join(sep, Split(s, sep)) == s
    decreases |s|
  {
    if |s| > 0 {
      var rest := Split(s[1..], sep);
      JoinSplit(s[1..], sep);
      assert [s[0]] + s[1..] == s;
      if s[0] != sep && |rest| > 1 {
        AppendAssoc([s[0]], rest[0], [sep] + Join(sep, rest[1..]));
        AppendAssoc(rest[0], [sep], Join(sep, rest[1..]));
        AppendAssoc([s[0]] + rest[0], [sep], Join(sep, rest[1..]));
      }
    }
  }

  lemma {:induction false} SplitWithoutSeparator(s: string, sep: char)
    requires sep !in s
    ensures Split(s, sep) == [s]
    decreases |s|
  {
    if |s| > 0 {
      SplitWithoutSeparator(s[1..], sep);
      assert [s[0]] + s[1..] == s;
    }
  }

  lemma {:induction false} SplitAtFirstSeparator(x: string, sep: char, y: string)
    requires sep !in x
    ensures Split(x + [sep] + y, sep) == [x] + Split(y, sep)
    decreases |x|
  {
    var s := x + [sep] + y;
    if |x| == 0 {
      assert s[1..] == y;
    } else {
      assert s[1..] == x[1..] + [sep] + y;
      SplitAtFirstSeparator(x[1..], sep, y);
      assert [x[0]] + x[1..] == x;
    }
  }

  /** Splitting undoes joining when no piece contains the separator and there
      is at least one piece (`"".split(sep)` is `[""]`, not `[]`). */
  lemma {:induction false} SplitJoin(sep: char, pieces: seq<string>)
    requires |pieces| > 0
    requires forall i :: 0 <= i < |pieces| ==> sep !in pieces[i]
    ensures Split(Join(sep, pieces), sep) == pieces
    decreases |pieces|
  {
    if |pieces| == 1 {
      SplitWithoutSeparator(pieces[0], sep);
    } else {
      SplitJoin(sep, pieces[1..]);
      SplitAtFirstSeparator(pieces[0], sep, Join(sep, pieces[1..]));
      assert [pieces[0]] + pieces[1..] == pieces;
    }
  }

  /** Every character of a join is the separator or a character of a piece. */
  lemma {:induction false} JoinCharacters(sep: char, pieces: seq<string>, c: char)
    requires c in Join(sep, pieces)
    ensures c == sep || exists i :: 0 <= i < |pieces| && c in pieces[i]
    decreases |pieces|
  {
    if |pieces| > 1 {
      var rest := Join(sep, pieces[1..]);
      if c !in pieces[0] && c != sep {
        assert c in rest;
        JoinCharacters(sep, pieces[1..], c);
        var i :| 0 <= i < |pieces[1..]| && c in pieces[1..][i];
        assert c in pieces[i + 1];
      }
    }
  }

  /** Concatenation regroups freely. */
  lemma AppendAssoc<T>(x: seq<T>, y: seq<T>, z: seq<T>)
    ensures (x + y) + z == x + (y + z)
  {
    var l, r := (x + y) + z, x + (y + z);
    forall i | 0 <= i < |l|
      ensures l[i] == r[i]
    {
      if i >= |x| + |y| {
        assert l[i] == z[i - |x| - |y|] == r[i];
      }
    }
  }

  predicate StartsWith(s: string, prefix: string) {
    |prefix| <= |s| && s[..|prefix|] == prefix
  }

  predicate EndsWith(s: string, suffix: string) {
    |suffix| <= |s| && s[|s| - |suffix|..] == suffix
  }

  function LowerChar(c: char): char {
    if 'A' <= c <= 'Z' then (c as int + 32) as char else c
  }

  /** `s.lower()` for ASCII letters. */
  function Lower(s: string): (r: string)
    ensures |r| == |s|
    ensures forall i :: 0 <= i < |s| ==> !('A' <= r[i] <= 'Z')
    ensures forall i :: 0 <= i < |s| && !('A' <= s[i] <= 'Z') ==> r[i] == s[i]
    ensures forall i :: 0 <= i < |s| && 'A' <= s[i] <= 'Z' ==> r[i] == (s[i] as int + 32) as char
  {
    seq(|s|, i requires 0 <= i < |s| => LowerChar(s[i]))
  }
}
