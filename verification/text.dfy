/** String helpers the program takes from the C++ and Python standard
    libraries: `std::getline`-based splitting (`split` in src/utils.h),
    Python's `str.split`/`str.partition`, `find`/`find_first_of`, and
    `std::stoi`. Strings are sequences of characters; no encoding is modelled. */
module Text {
  import opened Wrappers
  import opened Seqs

  /** Position of the first `c` in `s`, or |s| when there is none (`npos`). */
  function IndexOf(s: string, c: char): (k: nat)
    ensures k <= |s|
    ensures forall i :: 0 <= i < k ==> s[i] != c
    ensures k < |s| ==> s[k] == c

  {
    if |s| == 0 then 0 else if s[0] == c then 0 else 1 + IndexOf(s[1..], c)
  }

  /** Position of the first character of `s` that is in `cs`, or |s|. */
  function IndexOfAny(s: string, cs: set<char>): (k: nat)
    ensures k <= |s|
    ensures forall i :: 0 <= i < k ==> s[i] !in cs
    ensures k < |s| ==> s[k] in cs
  {
    if |s| == 0 then 0 else if s[0] in cs then 0 else 1 + IndexOfAny(s[1..], cs)
  }

  /** `split(s, delim)` of src/utils.h: pieces read by repeated
      `std::getline(ss, item, delim)`. A read that starts at end of input
      fails, so the empty string gives no pieces and a trailing delimiter
      does not produce a trailing empty piece. */
  function Split(s: string, delim: char): (pieces: seq<string>)
    ensures |pieces| == 0 <==> |s| == 0
    ensures forall i :: 0 <= i < |pieces| ==> delim !in pieces[i]
    decreases |s|
  {
    if |s| == 0 then []
    else
      var k := IndexOf(s, delim);
      [s[..k]] + (if k < |s| then Split(s[k + 1..], delim) else [])
  }

  /** A character absent from the input is absent from every piece. */
  lemma {:induction false} SplitPiecesAvoid(s: string, delim: char, i: nat, c: char)
    requires c !in s
    requires i < |Split(s, delim)|
    ensures c !in Split(s, delim)[i]
    decreases |s|
  {
    var k := IndexOf(s, delim);
    if i > 0 {
      SplitPiecesAvoid(s[k + 1..], delim, i - 1, c);
    }
  }

  /** Python's `s.split(sep)` for a one-character separator: always at
      least one piece, and a trailing separator yields a trailing "". */
  function PySplit(s: string, sep: char): (pieces: seq<string>)
    ensures |pieces| >= 1
    ensures forall i :: 0 <= i < |pieces| ==> sep !in pieces[i]
    decreases |s|
  {
    var k := IndexOf(s, sep);
    if k == |s| then [s] else [s[..k]] + PySplit(s[k + 1..], sep)
  }

  /** The pieces put back together with `delim` between neighbours. */
  function Join(pieces: seq<string>, delim: char): string
  {
    if |pieces| == 0 then []
    else if |pieces| == 1 then pieces[0]
    else pieces[0] + [delim] + Join(pieces[1..], delim)
  }

  /** Rejoining the pieces of a non-empty string gives it back, except for a
      trailing delimiter, which `Split` drops. */
  lemma {:induction false} JoinSplit(s: string, delim: char)
    requires |s| > 0
    ensures s[|s| - 1] != delim ==> Join(Split(s, delim), delim) == s
    ensures s[|s| - 1] == delim ==> Join(Split(s, delim), delim) + [delim] == s
    decreases |s|
  {
    var k := IndexOf(s, delim);
    if k == |s| {
      assert s[..k] == s;
      assert Split(s, delim) == [s];
    } else {
      var rest := s[k + 1..];
      SplitAt(s, k);
      if |rest| == 0 {
        assert Split(s, delim) == [s[..k]];
      } else {
        JoinSplit(rest, delim);
        var tail := Split(rest, delim);
        assert Split(s, delim) == [s[..k]] + tail;
        JoinCons(s[..k], tail, delim);
        assert rest[|rest| - 1] == s[|s| - 1];
        if s[|s| - 1] == delim {
          AppendAssoc(s[..k] + [delim], Join(tail, delim), [delim]);
        }
      }
    }
  }


  /** A string cut around its character at `k`. */
  lemma {:induction false} SplitAt(s: string, k: nat)
    requires k < |s|
    ensures s == s[..k] + [s[k]] + s[k + 1..]
  {
    assert s[k..] == [s[k]] + s[k + 1..];
    assert s == s[..k] + s[k..];
  }

  lemma {:induction false} JoinCons(a: string, tail: seq<string>, delim: char)
    requires |tail| >= 1
    ensures Join([a] + tail, delim) == a + [delim] + Join(tail, delim)
  {
    assert ([a] + tail)[1..] == tail;
  }

  /** The converse: pieces without the delimiter whose last piece is not
      empty are recovered by splitting their join. */
  lemma {:induction false} SplitJoin(pieces: seq<string>, delim: char)
    requires |pieces| >= 1 && |pieces[|pieces| - 1]| > 0
    requires forall i :: 0 <= i < |pieces| ==> delim !in pieces[i]
    ensures Split(Join(pieces, delim), delim) == pieces
    decreases |pieces|
  {
    var s := Join(pieces, delim);
    if |pieces| == 1 {
      var k := IndexOf(s, delim);
      assert s[..k] == s;
    } else {
      var rest := Join(pieces[1..], delim);
      assert s == pieces[0] + [delim] + rest;
      IndexOfPrefix(pieces[0], delim, rest);
      assert s[..|pieces[0]|] == pieces[0];
      assert s[|pieces[0]| + 1..] == rest;
      SplitJoin(pieces[1..], delim);
      JoinNonEmpty(pieces[1..], delim);
    }
  }

  lemma {:induction false} IndexOfPrefix(a: string, c: char, rest: string)
    requires c !in a
    ensures IndexOf(a + [c] + rest, c) == |a|
    decreases |a|
  {
    if |a| > 0 {
      assert (a + [c] + rest)[1..] == a[1..] + [c] + rest;
      IndexOfPrefix(a[1..], c, rest);
    }
  }

  lemma {:induction false} JoinNonEmpty(pieces: seq<string>, delim: char)
    requires |pieces| >= 1 && |pieces[|pieces| - 1]| > 0
    ensures |Join(pieces, delim)| > 0
    decreases |pieces|
  {
    if |pieces| > 1 {
      JoinNonEmpty(pieces[1..], delim);
    }
  }

  /** Python's split never loses a character: joining always gives back the input. */
  lemma {:induction false} JoinPySplit(s: string, sep: char)
    ensures Join(PySplit(s, sep), sep) == s
    decreases |s|
  {
    var k := IndexOf(s, sep);
    if k == |s| {
      assert PySplit(s, sep) == [s];
    } else {
      var rest := s[k + 1..];
      var tail := PySplit(rest, sep);
      JoinPySplit(rest, sep);
      assert PySplit(s, sep) == [s[..k]] + tail;
      JoinCons(s[..k], tail, sep);
      SplitAt(s, k);
    }
  }

  /** How the two splitters differ: Python's adds a trailing empty piece
      exactly when the input is empty or ends with the separator. */
  lemma {:induction false} PySplitVersusSplit(s: string, sep: char)
    ensures (|s| == 0 || s[|s| - 1] == sep) ==> PySplit(s, sep) == Split(s, sep) + [""]
    ensures (|s| > 0 && s[|s| - 1] != sep) ==> PySplit(s, sep) == Split(s, sep)
    decreases |s|
  {
    if |s| > 0 {
      var k := IndexOf(s, sep);
      if k == |s| {
        assert s[..k] == s;
      } else {
        var rest := s[k + 1..];
        PySplitVersusSplit(rest, sep);
        if |rest| == 0 {
          assert PySplit(rest, sep) == [""];
        } else {
          assert rest[|rest| - 1] == s[|s| - 1];
        }
      }
    }
  }

  // ---------------------------------------------------------------- stoi

  predicate IsSpace(c: char) {
    c == ' ' || c == '\t' || c == '\n' || c == '\r' || c == '\U{B}' || c == '\U{C}'
  }

  predicate IsDigit(c: char) { '0' <= c <= '9' }

  function DigitValue(c: char): nat
    requires IsDigit(c)
  {
    (c as int - '0' as int) as nat
  }

  /** Length of the longest prefix of `s` made of digits. */
  function DigitPrefix(s: string): (k: nat)
    ensures k <= |s|
    ensures forall i :: 0 <= i < k ==> IsDigit(s[i])
    ensures k < |s| ==> !IsDigit(s[k])
  {
    if |s| == 0 || !IsDigit(s[0]) then 0 else 1 + DigitPrefix(s[1..])
  }

  /** Decimal value of a string of digits. */
  function DigitsValue(ds: string): nat
    requires forall i :: 0 <= i < |ds| ==> IsDigit(ds[i])
  {
    if |ds| == 0 then 0 else 10 * DigitsValue(ds[..|ds| - 1]) + DigitValue(ds[|ds| - 1])
  }

  const IntMin: int := -0x8000_0000
  const IntMax: int := 0x7FFF_FFFF

  predicate InIntRange(v: int) { IntMin <= v <= IntMax }

  /** `std::stoi`: skips leading white space, reads an optional sign and the
      longest run of decimal digits, and ignores the rest. No digits throws
      `invalid_argument`; a value outside `int` throws `out_of_range`. */
  function Stoi(s: string): (r: Result<int>)
    ensures r.Ok? ==> InIntRange(r.value)
    ensures r.Err? ==> r.error == InvalidArgument || r.error == OutOfRange
  {
    var body := s[LeadingSpace(s)..];
    var negative := |body| > 0 && body[0] == '-';
    var unsigned := if |body| > 0 && (body[0] == '-' || body[0] == '+') then body[1..] else body;
    var n := DigitPrefix(unsigned);
    if n == 0 then Err(InvalidArgument)
    else
      var magnitude: int := DigitsValue(unsigned[..n]);
      var v := if negative then -magnitude else magnitude;
      if InIntRange(v) then Ok(v) else Err(OutOfRange)
  }

  function LeadingSpace(s: string): (k: nat)
    ensures k <= |s|
    ensures k < |s| ==> !IsSpace(s[k])
  {
    if |s| == 0 || !IsSpace(s[0]) then 0 else 1 + LeadingSpace(s[1..])
  }

  /** Decimal rendering of a natural number (no sign, no leading zeros). */
  function NatToString(n: nat): (s: string)
    ensures |s| > 0
    ensures forall i :: 0 <= i < |s| ==> IsDigit(s[i])
  {
    var d := ['0', '1', '2', '3', '4', '5', '6', '7', '8', '9'][n % 10];
    if n < 10 then [d] else NatToString(n / 10) + [d]
  }

  /** Decimal rendering of an integer, with '-' for negative values. */
  function IntToString(v: int): string
  {
    if v < 0 then "-" + NatToString(-v) else NatToString(v)
  }

  lemma {:induction false} NatToStringValue(n: nat)
    ensures DigitsValue(NatToString(n)) == n
  {
    var s := NatToString(n);
    if n >= 10 {
      NatToStringValue(n / 10);
      assert s[..|s| - 1] == NatToString(n / 10);
    }
  }

  /** `std::stoi` reads back every `int` written in decimal. */
  lemma {:induction false} StoiRoundTrip(v: int)
    requires InIntRange(v)
    ensures Stoi(IntToString(v)) == Ok(v)
  {
    var s := IntToString(v);
    var digits := NatToString(if v < 0 then -v else v);
    NatToStringValue(if v < 0 then -v else v);
    assert LeadingSpace(s) == 0;
    assert s[LeadingSpace(s)..] == s;
    AllDigitsPrefix(digits);
    assert digits[..|digits|] == digits;
    if v < 0 {
      assert s[0] == '-';
      assert s[1..] == digits;
    }
  }

  lemma {:induction false} AllDigitsPrefix(s: string)
    requires forall i :: 0 <= i < |s| ==> IsDigit(s[i])
    ensures DigitPrefix(s) == |s|
  {
    if |s| > 0 {
      AllDigitsPrefix(s[1..]);
    }
  }
}
