/**
 * The string operations of .NET and JavaScript that the core applies to GTFS
 * rows: splitting on a separator, trimming, removing a character, prefix
 * tests, ordinal case-insensitive comparison and integer parsing.
 */
module Text {
  import opened Wrappers
  import opened Int32

  /** Number of occurrences of `c` in `s`. */
  function CountChar(s: string, c: char): (n: nat)
    ensures n <= |s|
    ensures n == 0 <==> c !in s
  {
    if s == [] then 0
    else (if s[0] == c then 1 else 0) + CountChar(s[1..], c)
  }

  lemma {:induction false} CountCharAppend(s: string, t: string, c: char)
    ensures CountChar(s + t, c) == CountChar(s, c) + CountChar(t, c)
  {
    if s != [] {
      assert (s + t)[1..] == s[1..] + t;
      CountCharAppend(s[1..], t, c);
    } else {
      assert s + t == t;
    }
  }

  // ---------------------------------------------------------------------------
  // String.Split(char) of .NET: splits at EVERY occurrence of the separator.
  // ---------------------------------------------------------------------------

  /** `s.Split(sep)`: the pieces between separators; never empty, `""` gives `[""]`. */
  function Split(s: string, sep: char): (parts: seq<string>)
    ensures |parts| >= 1
    decreases |s|
  {
    if s == [] then [""]
    else if s[0] == sep then [""] + Split(s[1..], sep)
    else
      var rest := Split(s[1..], sep);
      [[s[0]] + rest[0]] + rest[1..]
  }

  /** `string.Join(sep, parts)`. */
  function Join(parts: seq<string>, sep: char): string
  {
    if parts == [] then ""
    else if |parts| == 1 then parts[0]
    else parts[0] + [sep] + Join(parts[1..], sep)
  }

  /** Splitting yields one more piece than there are separators. */
  lemma {:induction false} SplitCount(s: string, sep: char)
    ensures |Split(s, sep)| == CountChar(s, sep) + 1
  {
    if s != [] {
      SplitCount(s[1..], sep);
    }
  }

  /** No piece contains the separator. */
  lemma {:induction false} SplitPiecesAreSeparatorFree(s: string, sep: char)
    ensures forall i :: 0 <= i < |Split(s, sep)| ==> sep !in Split(s, sep)[i]
  {
    if s != [] {
      SplitPiecesAreSeparatorFree(s[1..], sep);
    }
  }

  /** Joining the pieces with the separator gives back the input. */
  lemma {:induction false} JoinSplit(s: string, sep: char)
    ensures Join(Split(s, sep), sep) == s
  {
    if s != [] {
      var rest := Split(s[1..], sep);
      JoinSplit(s[1..], sep);
      if s[0] == sep {
        assert Split(s, sep) == [""] + rest;
        assert ([""] + rest)[1..] == rest;
      } else {
        var parts := Split(s, sep);
        assert parts[0] == [s[0]] + rest[0];
        if |rest| == 1 {
          assert parts == [[s[0]] + rest[0]];
          assert Join(rest, sep) == rest[0];
        } else {
          assert parts[1..] == rest[1..];
          assert Join(rest, sep) == rest[0] + [sep] + Join(rest[1..], sep);
        }
      }
    }
  }

  /** Splitting `x + y` when `x` holds no separator glues `x` to the first piece of `y`. */
  lemma {:induction false} SplitSeparatorFreePrefix(x: string, y: string, sep: char)
    requires sep !in x
    ensures Split(x + y, sep) == [x + Split(y, sep)[0]] + Split(y, sep)[1..]
    decreases |x|
  {
    if x != [] {
      assert (x + y)[0] == x[0];
      assert (x + y)[1..] == x[1..] + y;
      SplitSeparatorFreePrefix(x[1..], y, sep);
      assert [x[0]] + (x[1..] + Split(y, sep)[0]) == x + Split(y, sep)[0];
    } else {
      assert x + y == y;
      assert Split(y, sep) == [Split(y, sep)[0]] + Split(y, sep)[1..];
      assert x + Split(y, sep)[0] == Split(y, sep)[0];
    }
  }

  /** Splitting a join of separator-free pieces gives back the pieces. */
  lemma {:induction false} SplitJoin(parts: seq<string>, sep: char)
    requires |parts| >= 1
    requires forall i :: 0 <= i < |parts| ==> sep !in parts[i]
    ensures Split(Join(parts, sep), sep) == parts
  {
    if |parts| == 1 {
      SplitSeparatorFreePrefix(parts[0], "", sep);
      assert parts[0] + "" == parts[0];
    } else {
      var tail := Join(parts[1..], sep);
      SplitJoin(parts[1..], sep);
      assert Split([sep] + tail, sep) == [""] + parts[1..];
      assert Join(parts, sep) == parts[0] + ([sep] + tail);
      SplitSeparatorFreePrefix(parts[0], [sep] + tail, sep);
      assert parts[0] + "" == parts[0];
    }
  }

  // ---------------------------------------------------------------------------
  // Trimming: String.Trim(char) of .NET and String.prototype.trim of JavaScript.
  // ---------------------------------------------------------------------------

  function TrimStart(s: string, drop: char -> bool): (r: string)
    ensures |r| <= |s| && r == s[|s| - |r|..]
    ensures r == [] || !drop(r[0])
    ensures forall i :: 0 <= i < |s| - |r| ==> drop(s[i])
  {
    if s != [] && drop(s[0]) then TrimStart(s[1..], drop) else s
  }

  function TrimEnd(s: string, drop: char -> bool): (r: string)
    ensures |r| <= |s| && r == s[..|r|]
    ensures r == [] || !drop(r[|r| - 1])
    ensures forall i :: |r| <= i < |s| ==> drop(s[i])
  {
    if s != [] && drop(s[|s| - 1]) then TrimEnd(s[..|s| - 1], drop) else s
  }

  /** Removes every leading and trailing character that `drop` selects. */
  function Trim(s: string, drop: char -> bool): (r: string)
  {
    TrimEnd(TrimStart(s, drop), drop)
  }

  /** How many characters trimming cuts from the front of `s`. */
  function TrimOffset(s: string, drop: char -> bool): nat
  {
    |s| - |TrimStart(s, drop)|
  }

  /**
   * What trimming keeps: a contiguous slice of `s` that neither starts nor ends
   * with a dropped character, with only dropped characters cut on either side.
   */
  lemma TrimIsSlice(s: string, drop: char -> bool)
    ensures var r, i := Trim(s, drop), TrimOffset(s, drop);
      && i + |r| <= |s| && r == s[i..i + |r|]
      && (forall k :: 0 <= k < i ==> drop(s[k]))
      && (forall k :: i + |r| <= k < |s| ==> drop(s[k]))
      && (r == [] || (!drop(r[0]) && !drop(r[|r| - 1])))
  {
    var t := TrimStart(s, drop);
    var r := TrimEnd(t, drop);
    var i := |s| - |t|;
    SliceOfSlice(s, i, |r|);
    if r != [] {
      assert r[0] == t[0];
    }
    SuffixTailDropped(s, t, |r|, drop);
  }

  lemma SliceOfSlice(s: string, i: nat, n: nat)
    requires i + n <= |s|
    ensures s[i..][..n] == s[i..i + n]
  {
  }

  /** When the tail of a suffix `t` of `s` is all dropped, so is the same tail of `s`. */
  lemma SuffixTailDropped(s: string, t: string, n: nat, drop: char -> bool)
    requires |t| <= |s| && t == s[|s| - |t|..] && n <= |t|
    requires forall j :: n <= j < |t| ==> drop(t[j])
    ensures forall k :: |s| - |t| + n <= k < |s| ==> drop(s[k])
  {
    forall k | |s| - |t| + n <= k < |s| ensures drop(s[k]) {
      assert s[k] == t[k - (|s| - |t|)];
    }
  }

  /** A string that neither starts nor ends with a dropped character is already trimmed. */
  lemma TrimmedAlready(s: string, drop: char -> bool)
    requires s == [] || (!drop(s[0]) && !drop(s[|s| - 1]))
    ensures Trim(s, drop) == s
  {
  }

  /** Trimming keeps nothing that was not in the input. */
  lemma TrimKeepsOnlyInputCharacters(s: string, drop: char -> bool, c: char)
    requires c !in s
    ensures c !in Trim(s, drop)
  {
    TrimIsSlice(s, drop);
  }

  /** Trimming an already trimmed string changes nothing. */
  lemma TrimIdempotent(s: string, drop: char -> bool)
    ensures Trim(Trim(s, drop), drop) == Trim(s, drop)
  {
    TrimIsSlice(s, drop);
  }

  // ---------------------------------------------------------------------------
  // Replace(c, "") of .NET and replace(/c/g, '') of JavaScript.
  // ---------------------------------------------------------------------------

  /** Removes every occurrence of `c`. */
  function RemoveChar(s: string, c: char): (r: string)
    ensures c !in r
    ensures |r| == |s| - CountChar(s, c)
  {
    if s == [] then []
    else if s[0] == c then RemoveChar(s[1..], c)
    else [s[0]] + RemoveChar(s[1..], c)
  }

  /** Removing a character that does not occur is the identity. */
  lemma {:induction false} RemoveAbsentChar(s: string, c: char)
    requires c !in s
    ensures RemoveChar(s, c) == s
  {
    if s != [] {
      RemoveAbsentChar(s[1..], c);
    }
  }

  lemma {:induction false} RemoveCharAppend(s: string, t: string, c: char)
    ensures RemoveChar(s + t, c) == RemoveChar(s, c) + RemoveChar(t, c)
  {
    if s == [] {
      assert s + t == t;
    } else {
      assert (s + t)[1..] == s[1..] + t;
      RemoveCharAppend(s[1..], t, c);
    }
  }

  // ---------------------------------------------------------------------------
  // Prefix tests and searching.
  // ---------------------------------------------------------------------------

  /** A field quoted once, as a CSV writer quotes it. */
  function Quoted(field: string): string
  {
    "\"" + field + "\""
  }

  /** Ordinal `s.StartsWith(prefix)`. */
  predicate StartsWith(s: string, prefix: string)
  {
    |prefix| <= |s| && s[..|prefix|] == prefix
  }

  /** `s.IndexOf(c)`: the first index of `c`, or -1. */
  function IndexOfChar(s: string, c: char): (i: int)
    ensures -1 <= i < |s|
    ensures i == -1 <==> c !in s
    ensures 0 <= i ==> s[i] == c && c !in s[..i]
  {
    if s == [] then -1
    else if s[0] == c then 0
    else
      var j := IndexOfChar(s[1..], c);
      if j < 0 then -1
      else
        assert s[..j + 1] == [s[0]] + s[1..][..j];
        j + 1
  }

  // ---------------------------------------------------------------------------
  // StringComparer.OrdinalIgnoreCase: both sides upper-cased, then compared.
  // ---------------------------------------------------------------------------

  function UpperChar(c: char): char
  {
    if 'a' <= c <= 'z' then (c as int - 32) as char else c
  }

  function Upper(s: string): (r: string)
    ensures |r| == |s|
    ensures forall i :: 0 <= i < |s| ==> r[i] == UpperChar(s[i])
  {
    seq(|s|, i requires 0 <= i < |s| => UpperChar(s[i]))
  }

  predicate EqualsIgnoreCase(a: string, b: string)
  {
    Upper(a) == Upper(b)
  }

  /** Ordinal equality implies case-insensitive equality, not conversely. */
  lemma IgnoreCaseIsCoarser()
    ensures forall a :: EqualsIgnoreCase(a, a)
    ensures EqualsIgnoreCase("a", "A") && "a" != "A"
  {
    assert Upper("a") == ['A'];
    assert Upper("A") == ['A'];
  }

  // ---------------------------------------------------------------------------
  // Decimal digits.
  // ---------------------------------------------------------------------------

  predicate IsDigit(c: char)
  {
    '0' <= c <= '9'
  }

  function DigitChar(d: nat): char
    requires d < 10
  {
    ('0' as int + d) as char
  }

  /** The value of a run of decimal digits, most significant first. */
  function DigitsValue(s: string): nat
    requires forall i :: 0 <= i < |s| ==> IsDigit(s[i])
  {
    if s == [] then 0
    else
      assert IsDigit(s[|s| - 1]);
      DigitsValue(s[..|s| - 1]) * 10 + (s[|s| - 1] as int - '0' as int)
  }

  /** The shortest decimal representation of `n`, as `ToString()` writes it. */
  function Decimal(n: nat): (s: string)
    ensures 1 <= |s|
    ensures forall i :: 0 <= i < |s| ==> IsDigit(s[i])
  {
    if n < 10 then [DigitChar(n)] else Decimal(n / 10) + [DigitChar(n % 10)]
  }

  /** Reading back a decimal representation gives the number. */
  lemma {:induction false} DecimalRoundTrip(n: nat)
    ensures DigitsValue(Decimal(n)) == n
  {
    if n >= 10 {
      var s := Decimal(n);
      assert s[..|s| - 1] == Decimal(n / 10);
      DecimalRoundTrip(n / 10);
    }
  }

  /** Distinct numbers have distinct decimal representations. */
  lemma DecimalInjective(a: nat, b: nat)
    requires Decimal(a) == Decimal(b)
    ensures a == b
  {
    DecimalRoundTrip(a);
    DecimalRoundTrip(b);
  }

  // ---------------------------------------------------------------------------
  // int.TryParse(string, out int) with NumberStyles.Integer.
  // ---------------------------------------------------------------------------

  /** The white space NumberStyles.AllowLeadingWhite/AllowTrailingWhite accept. */
  predicate IsDotNetNumberWhite(c: char)
  {
    c == ' ' || c == '\t' || c == '\n' || c == '\r' || c == '\U{B}' || c == '\U{C}'
  }

  function IsDotNetNumberWhiteFn(): char -> bool
  {
    c => IsDotNetNumberWhite(c)
  }

  predicate AllDigits(s: string)
  {
    forall i :: 0 <= i < |s| ==> IsDigit(s[i])
  }

  /**
   * `int.TryParse(s, out v)`: optional white space around an optional sign and
   * at least one decimal digit; `None` when the text does not have that shape
   * or the value lies outside the 32-bit range.
   */
  function TryParseInt32(s: string): (r: Option<Int32>)
    ensures r.Some? ==> exists i :: 0 <= i < |s| && IsDigit(s[i])
  {
    var t := Trim(s, IsDotNetNumberWhiteFn());
    TrimIsSlice(s, IsDotNetNumberWhiteFn());
    var r := ParseSignedInt32(t);
    if r.Some? then
      var i :| 0 <= i < |t| && IsDigit(t[i]);
      assert t[i] == s[TrimOffset(s, IsDotNetNumberWhiteFn()) + i];
      r
    else r
  }

  /** The trimmed text: an optional sign and decimal digits, within the 32-bit range. */
  function ParseSignedInt32(t: string): (r: Option<Int32>)
    ensures r.Some? ==> exists i :: 0 <= i < |t| && IsDigit(t[i])
  {
    var negative := |t| > 0 && t[0] == '-';
    var body := if |t| > 0 && (t[0] == '-' || t[0] == '+') then t[1..] else t;
    if body == [] || !AllDigits(body) then None
    else
      var magnitude := DigitsValue(body);
      var v: int := if negative then 0 - magnitude else magnitude;
      if MinInt32 <= v <= MaxInt32 then
        assert IsDigit(t[|t| - |body|]);
        Some(v)
      else None
  }

  /** `n.ToString()` for a 32-bit integer. */
  function Int32ToString(n: Int32): string
  {
    if n < 0 then "-" + Decimal(0 - n) else Decimal(n)
  }

  /** int.TryParse reads back what ToString writes. */
  lemma TryParseInt32RoundTrip(n: Int32)
    ensures TryParseInt32(Int32ToString(n)) == Some(n)
  {
    var s := Int32ToString(n);
    var m: nat := if n < 0 then 0 - n else n;
    assert s == (if n < 0 then "-" else "") + Decimal(m);
    assert IsDigit(s[|s| - 1]);
    TrimmedAlready(s, IsDotNetNumberWhiteFn());
    SignedInt32RoundTrip(n);
  }

  /** The sign and digits `ToString` writes read back as the number. */
  lemma SignedInt32RoundTrip(n: Int32)
    ensures ParseSignedInt32(Int32ToString(n)) == Some(n)
  {
    var s := Int32ToString(n);
    var m: nat := if n < 0 then 0 - n else n;
    DecimalRoundTrip(m);
    if n < 0 {
      assert s[1..] == Decimal(m);
    }
  }

  /** Text without a digit never parses. */
  lemma TryParseInt32NeedsDigit(s: string)
    requires forall i :: 0 <= i < |s| ==> !IsDigit(s[i])
    ensures TryParseInt32(s) == None
  {
  }
}
