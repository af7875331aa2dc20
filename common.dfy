/** Small shared vocabulary: optional values, results with an error, and the two
    string operations the scene code leans on, JavaScript's `String.prototype.split`
    with a string separator and `parseInt(text, 10)`. */
module Common {

  datatype Option<T> = None | Some(value: T)

  datatype Result<T, E> = Success(value: T) | Failure(error: E)

  /** `s.split(sep)` for a non-empty separator: occurrences of `sep` are found left
      to right without overlap, and the pieces between them are returned in order. */
  function Split(s: string, sep: string): (parts: seq<string>)
    requires |sep| > 0
    ensures |parts| >= 1
    decreases |s|
  {
    if |s| < |sep| then [s]
    else if s[..|sep|] == sep then [[]] + Split(s[|sep|..], sep)
    else
      var rest := Split(s[1..], sep);
      [[s[0]] + rest[0]] + rest[1..]
  }

  /** `parts.join(sep)`. */
  function Join(parts: seq<string>, sep: string): string
  {
    if |parts| == 0 then []
    else if |parts| == 1 then parts[0]
    else parts[0] + sep + Join(parts[1..], sep)
  }

  /** Joining the pieces of a split with the same separator gives back the text. */
  lemma {:induction false} JoinSplit(s: string, sep: string)
    requires |sep| > 0
    ensures Join(Split(s, sep), sep) == s
    decreases |s|
  {
    if |s| < |sep| {
    } else if s[..|sep|] == sep {
      var rest := Split(s[|sep|..], sep);
      JoinSplit(s[|sep|..], sep);
      assert Split(s, sep) == [[]] + rest;
      assert ([[]] + rest)[1..] == rest;
      calc {
        Join([[]] + rest, sep);
        [] + sep + Join(rest, sep);
        sep + s[|sep|..];
        s;
      }
    } else {
      var rest := Split(s[1..], sep);
      JoinSplit(s[1..], sep);
      var parts := [[s[0]] + rest[0]] + rest[1..];
      assert Split(s, sep) == parts;
      if |rest| == 1 {
        assert Join(parts, sep) == [s[0]] + rest[0] == [s[0]] + s[1..];
      } else {
        assert parts[1..] == rest[1..];
        calc {
          Join(parts, sep);
          [s[0]] + rest[0] + sep + Join(rest[1..], sep);
          [s[0]] + (rest[0] + sep + Join(rest[1..], sep));
          [s[0]] + Join(rest, sep);
          [s[0]] + s[1..];
        }
      }
      assert [s[0]] + s[1..] == s;
    }
  }

  /** Splitting on a one-character separator leaves no separator inside a piece. */
  lemma {:induction false} SplitPiecesFree(s: string, sep: char)
    ensures forall k, i :: 0 <= k < |Split(s, [sep])| && 0 <= i < |Split(s, [sep])[k]| ==>
      Split(s, [sep])[k][i] != sep
    decreases |s|
  {
    if |s| < 1 {
    } else if s[..1] == [sep] {
      SplitPiecesFree(s[1..], sep);
      assert Split(s, [sep]) == [[]] + Split(s[1..], [sep]);
    } else {
      SplitPiecesFree(s[1..], sep);
      assert s[0] != sep by { assert s[..1] == [s[0]]; }
    }
  }

  /** Number of occurrences of `c` in `s`. */
  function Count(s: string, c: char): nat
  {
    if |s| == 0 then 0 else (if s[0] == c then 1 else 0) + Count(s[1..], c)
  }

  /** A one-character split yields one more piece than there are separators. */
  lemma {:induction false} SplitPieceCount(s: string, sep: char)
    ensures |Split(s, [sep])| == Count(s, sep) + 1
    decreases |s|
  {
    if |s| < 1 {
    } else if s[..1] == [sep] {
      SplitPieceCount(s[1..], sep);
      assert s[0] == sep;
    } else {
      SplitPieceCount(s[1..], sep);
      assert s[0] != sep by { assert s[..1] == [s[0]]; }
    }
  }

  predicate IsDigit(c: char)
  {
    '0' <= c <= '9'
  }

  /** The longest prefix of `s` made of decimal digits. */
  function DigitPrefix(s: string): (d: string)
    ensures |d| <= |s| && d == s[..|d|]
    ensures forall i :: 0 <= i < |d| ==> IsDigit(d[i])
    ensures |d| < |s| ==> !IsDigit(s[|d|])
  {
    if |s| == 0 || !IsDigit(s[0]) then [] else [s[0]] + DigitPrefix(s[1..])
  }

  /** The value of a string of decimal digits, read most significant first. */
  function DigitsValue(d: string): nat
    requires forall i :: 0 <= i < |d| ==> IsDigit(d[i])
  {
    if |d| == 0 then 0
    else
      var last := d[|d| - 1];
      assert IsDigit(last);
      DigitsValue(d[..|d| - 1]) * 10 + (last as int - '0' as int)
  }

  /** `parseInt(s, 10)` on a token without surrounding white space: an optional sign
      followed by the longest run of digits; `None` stands for NaN (no digits). */
  function ParseInt(s: string): Option<int>
  {
    if |s| > 0 && (s[0] == '-' || s[0] == '+') then
      var d := DigitPrefix(s[1..]);
      if |d| == 0 then None
      else
        var v: int := DigitsValue(d);
        Some(if s[0] == '-' then -v else v)
    else
      var d := DigitPrefix(s);
      if |d| == 0 then None else Some(DigitsValue(d))
  }

  /** The decimal rendering of a natural number, used to state what `ParseInt` reads. */
  function Decimal(n: nat): (d: string)
    ensures |d| >= 1
    ensures forall i :: 0 <= i < |d| ==> IsDigit(d[i])
  {
    if n < 10 then [('0' as int + n) as char]
    else Decimal(n / 10) + [('0' as int + n % 10) as char]
  }

  lemma {:induction false} DigitsValueDecimal(n: nat)
    ensures DigitsValue(Decimal(n)) == n
  {
    var d := Decimal(n);
    if n >= 10 {
      DigitsValueDecimal(n / 10);
      assert d[..|d| - 1] == Decimal(n / 10);
    } else {
      assert d[..0] == [];
    }
  }

  lemma {:induction false} DigitPrefixAll(d: string, rest: string)
    requires forall i :: 0 <= i < |d| ==> IsDigit(d[i])
    requires |rest| == 0 || !IsDigit(rest[0])
    ensures DigitPrefix(d + rest) == d
  {
    if |d| > 0 {
      DigitPrefixAll(d[1..], rest);
      assert (d + rest)[1..] == d[1..] + rest;
      assert [d[0]] + d[1..] == d;
    } else {
      assert d + rest == rest;
    }
  }

  /** `parseInt` reads back the decimal rendering of a number, whatever follows it
      as long as it does not start with a digit (`"12/3"` reads as 12). */
  lemma ParseIntDecimal(n: nat, rest: string)
    requires |rest| == 0 || !IsDigit(rest[0])
    ensures ParseInt(Decimal(n) + rest) == Some(n)
  {
    DigitPrefixAll(Decimal(n), rest);
    DigitsValueDecimal(n);
    var s := Decimal(n) + rest;
    assert s[0] == Decimal(n)[0];
  }

  /** Position `dz * w + dx` of a sequence laid out in rows of `w`. */
  function Offset(w: nat, dz: nat, dx: nat): nat
  {
    dz * w + dx
  }

  lemma OffsetBound(w: nat, dz: nat, dx: nat, h: nat)
    requires dz < h && dx < w
    ensures Offset(w, dz, dx) < w * h
    ensures dz < h - 1 ==> Offset(w, dz, dx) < w * (h - 1)
    ensures dz == h - 1 ==> Offset(w, dz, dx) == w * (h - 1) + dx
  {
    assert (dz + 1) * w == dz * w + w;
    MulMonotone(dz + 1, h, w);
    if dz < h - 1 {
      MulMonotone(dz + 1, h - 1, w);
    }
  }

  lemma {:induction false} MulMonotone(a: nat, b: nat, w: nat)
    requires a <= b
    ensures a * w <= b * w
    decreases b - a
  {
    if a < b {
      MulMonotone(a, b - 1, w);
      assert (b - 1) * w + w == b * w;
    }
  }

  /** `n` copies of `c`, one after the other. */
  function Repeat<T>(n: nat, c: seq<T>): seq<T>
  {
    if n == 0 then [] else Repeat(n - 1, c) + c
  }

  /** `n` copies of `c` have `n * |c|` elements, and element `q * |c| + j` is `c[j]`. */
  lemma {:induction false} RepeatShape<T>(n: nat, c: seq<T>)
    ensures |Repeat(n, c)| == n * |c|
    ensures forall q, j :: 0 <= q < n && 0 <= j < |c| ==>
      Offset(|c|, q, j) < n * |c| && Repeat(n, c)[Offset(|c|, q, j)] == c[j]
  {
    if n > 0 {
      RepeatShape(n - 1, c);
      var front := Repeat(n - 1, c);
      assert |front| == |c| * (n - 1);
      assert |c| * (n - 1) + |c| == n * |c|;
      forall q, j | 0 <= q < n && 0 <= j < |c|
        ensures Offset(|c|, q, j) < n * |c| && (front + c)[Offset(|c|, q, j)] == c[j]
      {
        OffsetBound(|c|, q, j, n);
      }
    }
  }
}
