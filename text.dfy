/** Text and number helpers that the Go standard library supplies to the
    program: strings.Split and strings.Join, fmt's %d, strconv.Atoi and
    strings.ReplaceAll(s, "\n", "\\n"). Go strings are byte strings; the
    model works on characters, which is the same for every separator and
    digit used here because they are all ASCII. */
module Text {

  /** One byte of a file. */
  type byte = b: int | 0 <= b < 256

  datatype Option<+T> = None | Some(value: T)

  /** Bounds of Go's 64-bit `int`. */
  const MinInt64: int := -0x8000_0000_0000_0000
  const MaxInt64: int := 0x7FFF_FFFF_FFFF_FFFF

  /** Number of occurrences of `x` in `s`. */
  function Count<T(==)>(s: seq<T>, x: T): (n: nat)
    ensures n <= |s|
    ensures n == 0 <==> x !in s
  {
    if s == [] then 0 else (if s[0] == x then 1 else 0) + Count(s[1..], x)
  }

  /** strings.Split(s, sep) for a one-character separator: the pieces between
      the occurrences of `sep`; the empty string splits into one empty piece. */
  function Split(s: string, sep: char): (parts: seq<string>)
    ensures |parts| == Count(s, sep) + 1
    ensures forall i :: 0 <= i < |parts| ==> sep !in parts[i]
    ensures Join(parts, [sep]) == s
  {
    if s == [] then [""]
    else
      var rest := Split(s[1..], sep);
      if s[0] == sep then
        JoinCons("", rest, [sep]);
        assert [sep] + s[1..] == s;
        [""] + rest
      else
        JoinFirst(s[0], rest, [sep]);
        assert [s[0]] + s[1..] == s;
        [[s[0]] + rest[0]] + rest[1..]
  }

  /** Joining a piece in front of a non-empty list puts the separator
      between them. */
  lemma JoinCons(p: string, rest: seq<string>, sep: string)
    requires |rest| >= 1
    ensures Join([p] + rest, sep) == p + sep + Join(rest, sep)
  {
    assert ([p] + rest)[1..] == rest;
  }

  /** Growing the first piece by one character grows the join by the same
      character. */
  lemma JoinFirst(c: char, parts: seq<string>, sep: string)
    requires |parts| >= 1
    ensures Join([[c] + parts[0]] + parts[1..], sep) == [c] + Join(parts, sep)
  {
    var q := [[c] + parts[0]] + parts[1..];
    if |parts| > 1 {
      assert q[1..] == parts[1..];
      assert [c] + parts[0] + sep + Join(parts[1..], sep) == [c] + (parts[0] + sep + Join(parts[1..], sep));
    }
  }

  /** Total length of the pieces. */
  function Lengths(parts: seq<string>): nat
  {
    if parts == [] then 0 else |parts[0]| + Lengths(parts[1..])
  }

  /** strings.Join(parts, sep): the pieces in order with one separator
      between neighbours. */
  function Join(parts: seq<string>, sep: string): (r: string)
    ensures |r| == Lengths(parts) + (if parts == [] then 0 else (|parts| - 1) * |sep|)
    ensures |parts| >= 1 ==> r[..|parts[0]|] == parts[0]
  {
    if parts == [] then ""
    else if |parts| == 1 then parts[0]
    else parts[0] + sep + Join(parts[1..], sep)
  }

  /** The texts f(x) for each x of xs, concatenated in order. */
  function ConcatMap<T>(f: T -> string, xs: seq<T>): string
  {
    if xs == [] then "" else ConcatMap(f, xs[..|xs| - 1]) + f(xs[|xs| - 1])
  }

  /** ConcatMap distributes over concatenation: the texts come out in the
      order of the elements. */
  lemma {:induction false} ConcatMapAppend<T>(f: T -> string, a: seq<T>, b: seq<T>)
    ensures ConcatMap(f, a + b) == ConcatMap(f, a) + ConcatMap(f, b)
    decreases |b|
  {
    if b == [] {
      assert a + b == a;
    } else {
      var init := b[..|b| - 1];
      ConcatMapAppend(f, a, init);
      assert (a + b)[..|a + b| - 1] == a + init;
      assert (a + b)[|a + b| - 1] == b[|b| - 1];
    }
  }

  /** Helper: the text of a single element. */
  lemma ConcatMapOne<T>(f: T -> string, x: T)
    ensures ConcatMap(f, [x]) == f(x)
  {
    assert [x][..0] == [];
  }

  /** Text without the separator splits into itself alone. */
  lemma {:induction false} SplitWithoutSeparator(p: string, sep: char)
    requires sep !in p
    ensures Split(p, sep) == [p]
  {
    if p != [] {
      SplitWithoutSeparator(p[1..], sep);
      assert [p[0]] + p[1..] == p;
    }
  }

  /** A separator-free first piece comes off as the first part. */
  lemma {:induction false} SplitFirstPiece(p: string, sep: char, rest: string)
    requires sep !in p
    ensures Split(p + [sep] + rest, sep) == [p] + Split(rest, sep)
  {
    var s := p + [sep] + rest;
    if p == [] {
      assert s[0] == sep && s[1..] == rest;
    } else {
      assert s[0] == p[0] && s[1..] == p[1..] + [sep] + rest;
      SplitFirstPiece(p[1..], sep, rest);
      assert [p[0]] + p[1..] == p;
    }
  }

  /** Splitting undoes joining when no piece contains the separator. */
  lemma {:induction false} SplitJoin(parts: seq<string>, sep: char)
    requires |parts| >= 1
    requires forall i :: 0 <= i < |parts| ==> sep !in parts[i]
    ensures Split(Join(parts, [sep]), sep) == parts
  {
    if |parts| == 1 {
      SplitWithoutSeparator(parts[0], sep);
    } else {
      SplitJoin(parts[1..], sep);
      SplitFirstPiece(parts[0], sep, Join(parts[1..], [sep]));
      assert [parts[0]] + parts[1..] == parts;
    }
  }

  predicate IsDigit(c: char) { '0' <= c <= '9' }

  /** Every character is a digit or a minus sign: the output of %d. */
  predicate IsNumeral(s: string)
  {
    forall i :: 0 <= i < |s| ==> IsDigit(s[i]) || s[i] == '-'
  }

  /** A character that is neither a digit nor '-' never occurs in a numeral. */
  lemma NumeralLacks(s: string, c: char)
    requires IsNumeral(s) && !IsDigit(c) && c != '-'
    ensures c !in s
  {
  }

  /** The character of one decimal digit. */
  function DigitChar(d: int): (c: char)
    requires 0 <= d < 10
    ensures IsDigit(c) && c as int - '0' as int == d
  {
    (d + '0' as int) as char
  }

  /** The decimal digits of `n`, most significant first, without leading zeros. */
  function Digits(n: nat): (s: string)
    ensures |s| >= 1
    ensures forall i :: 0 <= i < |s| ==> IsDigit(s[i])
  {
    if n < 10 then [DigitChar(n)] else Digits(n / 10) + [DigitChar(n % 10)]
  }

  /** fmt.Sprintf("%d", n). */
  function Dec(n: int): (s: string)
    ensures IsNumeral(s) && s != []
    ensures s[0] == '-' <==> n < 0
    ensures n >= 0 ==> AllDigits(s)
    ensures n < 0 ==> AllDigits(s[1..])
  {
    if n < 0 then "-" + Digits(-n) else Digits(n)
  }

  predicate AllDigits(s: string)
  {
    forall i :: 0 <= i < |s| ==> IsDigit(s[i])
  }

  /** The value of a string of decimal digits. */
  function DigitsValue(s: string): nat
    requires AllDigits(s)
  {
    if s == [] then 0
    else DigitsValue(s[..|s| - 1]) * 10 + (s[|s| - 1] as int - '0' as int)
  }

  /** The digits of `n` read back as `n`. */
  lemma {:induction false} DigitsValueOfDigits(n: nat)
    ensures DigitsValue(Digits(n)) == n
  {
    if n >= 10 {
      var s := Digits(n);
      assert s[..|s| - 1] == Digits(n / 10);
      DigitsValueOfDigits(n / 10);
    }
  }

  predicate IsInt64(x: int) { MinInt64 <= x <= MaxInt64 }

  /** The text after one optional leading '+' or '-'. */
  function Unsigned(s: string): (u: string)
    ensures |u| <= |s| && u == s[|s| - |u|..]
  {
    if |s| > 0 && (s[0] == '-' || s[0] == '+') then s[1..] else s
  }

  /** The value of a sign and digits. */
  function SignedValue(s: string): int
    requires AllDigits(Unsigned(s))
  {
    if |s| > 0 && s[0] == '-' then 0 - DigitsValue(Unsigned(s)) else DigitsValue(Unsigned(s))
  }

  /** strconv.Atoi on a 64-bit platform: an optional '+' or '-' followed by
      one or more decimal digits, whose value fits in an int64; anything
      else (empty text, a lone sign, any other character, an out-of-range
      value) is an error. Leading zeros and a '+' are accepted. */
  function Atoi(s: string): (r: Option<int>)
    ensures r.Some? <==> Unsigned(s) != [] && AllDigits(Unsigned(s)) && IsInt64(SignedValue(s))
    ensures r.Some? ==> r.value == SignedValue(s)
  {
    var body := Unsigned(s);
    if body == [] || !AllDigits(body) then None
    else
      var v := SignedValue(s);
      if IsInt64(v) then Some(v) else None
  }

  /** Text that strconv.Atoi rejects: nothing, a lone sign, a second sign,
      a character that is not a digit. */
  lemma AtoiRejects()
    ensures Atoi("") == None && Atoi("+") == None && Atoi("-") == None
    ensures Atoi("1a") == None && Atoi("--1") == None
  {
    assert !IsDigit('a') && !IsDigit('-');
    assert Unsigned("1a")[1] == 'a' && Unsigned("--1")[0] == '-';
  }

  /** strconv.Atoi accepts text that %d never prints: a '+' sign, leading
      zeros, a negative zero. */
  lemma AtoiPlusSign()
    ensures Atoi("+7") == Some(7)
  {
    DigitsValueOne('7');
    assert Unsigned("+7") == "7";
  }

  lemma AtoiLeadingZeros()
    ensures Atoi("007") == Some(7)
  {
    var z := "007";
    assert Unsigned(z) == z && z[..2] == "00" && "00"[..1] == "0" && "0"[..0] == "";
    assert AllDigits(z) by { assert IsDigit(z[0]) && IsDigit(z[1]) && IsDigit(z[2]); }
  }

  lemma AtoiNegativeZero()
    ensures Atoi("-0") == Some(0)
  {
    DigitsValueOne('0');
    assert Unsigned("-0") == "0";
  }

  /** Helper: the value of a single digit. */
  lemma DigitsValueOne(c: char)
    requires IsDigit(c)
    ensures AllDigits([c]) && DigitsValue([c]) == c as int - '0' as int
  {
    assert [c][..0] == [];
  }

  /** Converting back what %d printed gives the original int64. */
  lemma AtoiDec(n: int)
    requires MinInt64 <= n <= MaxInt64
    ensures Atoi(Dec(n)) == Some(n)
  {
    var s := Dec(n);
    if n < 0 {
      DigitsValueOfDigits(-n);
      assert s[0] == '-' && s[1..] == Digits(-n);
      assert AllDigits(s[1..]);
    } else {
      DigitsValueOfDigits(n);
      assert IsDigit(s[0]) && AllDigits(s);
    }
  }

  /** %d never prints the same text for two different numbers. */
  lemma DecInjective(m: int, n: int)
    requires Dec(m) == Dec(n)
    ensures m == n
  {
    if m < 0 {
      assert n < 0;
      assert Digits(-m) == Digits(-n) by {
        assert Dec(m)[1..] == Digits(-m) && Dec(n)[1..] == Digits(-n);
      }
      DigitsValueOfDigits(-m);
      DigitsValueOfDigits(-n);
    } else {
      assert n >= 0;
      assert Digits(m) == Digits(n);
      DigitsValueOfDigits(m);
      DigitsValueOfDigits(n);
    }
  }

  /** strings.ReplaceAll(s, "\n", "\\n"): every newline becomes the two
      characters backslash and 'n'. */
  function EscapeNewlines(s: string): (r: string)
    ensures '\n' !in r
    ensures |r| == |s| + Count(s, '\n')
  {
    if s == [] then ""
    else (if s[0] == '\n' then "\\n" else [s[0]]) + EscapeNewlines(s[1..])
  }

  /** Reads the two characters backslash and 'n' back as a newline. */
  function UnescapeNewlines(s: string): string
  {
    if s == [] then ""
    else if |s| >= 2 && s[0] == '\\' && s[1] == 'n' then "\n" + UnescapeNewlines(s[2..])
    else [s[0]] + UnescapeNewlines(s[1..])
  }

  /** The escaping loses nothing for text without backslashes. */
  lemma {:induction false} UnescapeEscape(s: string)
    requires '\\' !in s
    ensures UnescapeNewlines(EscapeNewlines(s)) == s
  {
    if s != [] {
      var rest := EscapeNewlines(s[1..]);
      UnescapeEscape(s[1..]);
      if s[0] == '\n' {
        assert ("\\n" + rest)[2..] == rest;
      } else {
        assert ([s[0]] + rest)[1..] == rest;
      }
      assert [s[0]] + s[1..] == s;
    }
  }
}
