/**
 * The JavaScript built-ins the inventory forms rely on, over `string` = `seq<char>`:
 * `trim`, `replace(/[^0-9]/g, '')`, `parseInt`, number-to-string conversion,
 * `||` on numbers, `startsWith`, `includes`, `split` and `join`.
 * Case mapping (`toLowerCase`) is left abstract as a `fold` parameter.
 */
module Js {
  import opened Options
  import Seqs

  // ---------------------------------------------------------------------------
  // Whitespace and trim
  // ---------------------------------------------------------------------------

  /** The WhiteSpace and LineTerminator code points that `String.prototype.trim` removes. */
  predicate IsSpace(c: char)
  {
    || c == ' ' || c == '\t' || c == '\n' || c == '\r' || c == '\U{B}' || c == '\U{C}'
    || c == '\U{A0}' || c == '\U{1680}' || ('\U{2000}' <= c <= '\U{200A}')
    || c == '\U{2028}' || c == '\U{2029}' || c == '\U{202F}' || c == '\U{205F}'
    || c == '\U{3000}' || c == '\U{FEFF}'
  }

  predicate AllSpace(s: string)
  {
    forall i :: 0 <= i < |s| ==> IsSpace(s[i])
  }

  /** `s` without its leading whitespace: a suffix of `s` preceded only by whitespace. */
  function TrimStart(s: string): (r: string)
    ensures |r| <= |s| && r == s[|s| - |r|..]
    ensures forall i :: 0 <= i < |s| - |r| ==> IsSpace(s[i])
    ensures r != [] ==> !IsSpace(r[0])
  {
    if |s| > 0 && IsSpace(s[0]) then TrimStart(s[1..]) else s
  }

  /** `s` without its trailing whitespace: a prefix of `s` followed only by whitespace. */
  function TrimEnd(s: string): (r: string)
    ensures |r| <= |s| && r == s[..|r|]
    ensures forall i :: |r| <= i < |s| ==> IsSpace(s[i])
    ensures r != [] ==> !IsSpace(r[|r| - 1])
  {
    if |s| > 0 && IsSpace(s[|s| - 1]) then TrimEnd(s[..|s| - 1]) else s
  }

  /** `s.trim()`: the leading whitespace removed, then the trailing. It is empty exactly
      when `s` is all whitespace, and otherwise starts and ends with a non-whitespace
      character; `TrimSlice` shows it is the slice of `s` between the two. */
  function Trim(s: string): (r: string)
    ensures |r| <= |s|
    ensures r == [] <==> AllSpace(s)
    ensures r != [] ==> !IsSpace(r[0]) && !IsSpace(r[|r| - 1])
  {
    var t := TrimStart(s);
    var r := TrimEnd(t);
    assert r != [] ==> r[0] == t[0];
    assert AllSpace(s) ==> t == [];
    assert r == [] ==> t == [];
    r
  }

  /** `r` occurs in `s` at index `k` with only whitespace before and after it. */
  predicate PaddedAt(s: string, r: string, k: int)
  {
    0 <= k <= |s| - |r| && r == s[k..k + |r|] && AllSpace(s[..k]) && AllSpace(s[k + |r|..])
  }

  /** The trimmed string is a slice of `s` with only whitespace before and after it. */
  lemma TrimSlice(s: string)
    ensures exists k :: PaddedAt(s, Trim(s), k)
  {
    var t := TrimStart(s);
    var r := TrimEnd(t);
    var k := |s| - |t|;
    SliceOfSlice(s, t, r, k);
    AllSpaceSlice(s, 0, k);
    assert s[k + |r|..] == t[|r|..];
    AllSpaceSlice(t, |r|, |t|);
    assert Trim(s) == r;
    assert PaddedAt(s, r, k);
  }

  /** A prefix of a suffix is a slice. */
  lemma SliceOfSlice(s: string, t: string, r: string, k: nat)
    requires k <= |s| && t == s[k..] && |r| <= |t| && r == t[..|r|]
    ensures r == s[k..k + |r|]
  {
  }

  /** A stretch of whitespace characters, taken as a string of its own. */
  lemma AllSpaceSlice(s: string, lo: nat, hi: nat)
    requires lo <= hi <= |s|
    requires forall i :: lo <= i < hi ==> IsSpace(s[i])
    ensures AllSpace(s[lo..hi])
    ensures hi == |s| ==> AllSpace(s[lo..])
    ensures lo == 0 ==> AllSpace(s[..hi])
  {
    assert hi == |s| ==> s[lo..] == s[lo..hi];
    assert lo == 0 ==> s[..hi] == s[lo..hi];
  }

  /** A string that neither starts nor ends with whitespace is its own trim. */
  lemma TrimFixed(s: string)
    requires s != [] ==> !IsSpace(s[0]) && !IsSpace(s[|s| - 1])
    ensures Trim(s) == s
  {
  }

  /** Trimming twice is trimming once. */
  lemma TrimIdempotent(s: string)
    ensures Trim(Trim(s)) == Trim(s)
  {
    TrimFixed(Trim(s));
  }

  // ---------------------------------------------------------------------------
  // Digits, decimal numerals, parseInt
  // ---------------------------------------------------------------------------

  predicate IsDigit(c: char)
  {
    '0' <= c <= '9'
  }

  predicate AllDigits(s: string)
  {
    forall i :: 0 <= i < |s| ==> IsDigit(s[i])
  }

  /** `s.replace(/[^0-9]/g, '')`: the digits of `s`, in order. */
  function StripNonDigits(s: string): (r: string)
    ensures r == Seqs.Select(s, IsDigit)
    ensures AllDigits(r) && |r| <= |s|
    ensures AllDigits(s) ==> r == s
  {
    if s == [] then []
    else (if IsDigit(s[0]) then [s[0]] else []) + StripNonDigits(s[1..])
  }

  function DigitValue(c: char): nat
    requires IsDigit(c)
  {
    (c as int) - ('0' as int)
  }

  function DigitChar(n: nat): (c: char)
    requires n < 10
    ensures IsDigit(c) && DigitValue(c) == n
  {
    ('0' as int + n) as char
  }

  /** The value of a string of decimal digits ("" has value 0). */
  function DecimalValue(d: string): nat
    requires AllDigits(d)
    decreases |d|
  {
    if d == [] then 0 else DecimalValue(d[..|d| - 1]) * 10 + DigitValue(d[|d| - 1])
  }

  /** The decimal numeral of `n`, as `String(n)` writes it: non-empty, digits only,
      no leading zero. */
  function NatToString(n: nat): (s: string)
    ensures s != [] && AllDigits(s)
    ensures s[0] == '0' ==> n == 0
  {
    if n < 10 then [DigitChar(n)] else NatToString(n / 10) + [DigitChar(n % 10)]
  }

  /** `String(i)` for an integer. */
  function IntToString(i: int): (s: string)
    ensures s != []
  {
    if i < 0 then "-" + NatToString(-i) else NatToString(i)
  }

  /** Reading back the numeral of `n` gives `n`. */
  lemma {:induction false} NatToStringValue(n: nat)
    ensures DecimalValue(NatToString(n)) == n
  {
    if n >= 10 {
      var s := NatToString(n);
      assert s[..|s| - 1] == NatToString(n / 10);
      NatToStringValue(n / 10);
    }
  }

  /** The longest prefix of `s` made of digits. */
  function DigitPrefix(s: string): (d: string)
    ensures AllDigits(d) && |d| <= |s| && d == s[..|d|]
    ensures |d| == |s| || !IsDigit(s[|d|])
  {
    if s != [] && IsDigit(s[0]) then [s[0]] + DigitPrefix(s[1..]) else []
  }

  /** The value of the leading digits of `u`, or `None` when `u` does not start with one. */
  function LeadingNumber(u: string): Option<int>
  {
    var d := DigitPrefix(u);
    if d == [] then None else Some(DecimalValue(d))
  }

  function Negate(n: Option<int>): Option<int>
  {
    match n
    case None => None
    case Some(v) => Some(-v)
  }

  /** `parseInt(s)` (no radix, decimal numerals): leading whitespace, an optional sign,
      then the longest run of digits. `None` is NaN. */
  function ParseInt(s: string): (r: Option<int>)
    ensures AllSpace(s) ==> r.None?
  {
    var t := TrimStart(s);
    assert AllSpace(s) ==> t == [];
    if t != [] && t[0] == '-' then Negate(LeadingNumber(t[1..]))
    else if t != [] && t[0] == '+' then LeadingNumber(t[1..])
    else LeadingNumber(t)
  }

  lemma DigitPrefixOfDigits(d: string)
    requires AllDigits(d)
    ensures DigitPrefix(d) == d
  {
  }

  /** A non-empty string of digits parses to its decimal value. */
  lemma ParseIntDigits(d: string)
    requires d != [] && AllDigits(d)
    ensures ParseInt(d) == Some(DecimalValue(d))
  {
    assert IsDigit(d[0]);
    assert !IsSpace(d[0]) && d[0] != '-' && d[0] != '+';
    assert TrimStart(d) == d;
    DigitPrefixOfDigits(d);
    assert LeadingNumber(d) == Some(DecimalValue(d));
  }

  /** The digits at the front of `d + rest`, when `rest` does not start with one. */
  lemma {:induction false} DigitPrefixStops(d: string, rest: string)
    requires AllDigits(d) && (rest == [] || !IsDigit(rest[0]))
    ensures DigitPrefix(d + rest) == d
  {
    if d != [] {
      assert (d + rest)[1..] == d[1..] + rest;
      DigitPrefixStops(d[1..], rest);
    } else {
      assert d + rest == rest;
    }
  }

  /** Parsing stops at the first character after the leading digits that is not one. */
  lemma ParseIntStopsAtNonDigit(d: string, rest: string)
    requires d != [] && AllDigits(d) && (rest == [] || !IsDigit(rest[0]))
    ensures ParseInt(d + rest) == Some(DecimalValue(d))
  {
    var s := d + rest;
    assert s[0] == d[0] && IsDigit(d[0]);
    assert !IsSpace(s[0]) && s[0] != '-' && s[0] != '+';
    assert TrimStart(s) == s;
    DigitPrefixStops(d, rest);
  }

  /** Leading whitespace is skipped before the start of the trimmed text. */
  lemma {:induction false} TrimStartSkipsSpace(w: string, s: string)
    requires AllSpace(w)
    ensures TrimStart(w + s) == TrimStart(s)
  {
    if w != [] {
      assert (w + s)[0] == w[0];
      assert (w + s)[1..] == w[1..] + s;
      TrimStartSkipsSpace(w[1..], s);
    } else {
      assert w + s == s;
    }
  }

  /** Leading whitespace does not change what `parseInt` reads. */
  lemma ParseIntSkipsSpace(w: string, s: string)
    requires AllSpace(w)
    ensures ParseInt(w + s) == ParseInt(s)
  {
    TrimStartSkipsSpace(w, s);
  }

  /** A minus sign followed by digits parses to the negated value. */
  lemma ParseIntNegative(s: string)
    requires |s| >= 2 && s[0] == '-' && AllDigits(s[1..])
    ensures ParseInt(s) == Some(-(DecimalValue(s[1..]) as int))
  {
    assert !IsSpace(s[0]);
    assert TrimStart(s) == s;
    DigitPrefixOfDigits(s[1..]);
  }

  /** `parseInt(String(i)) == i` for a negative `i`. */
  lemma ParseIntOfNegativeToString(i: int)
    requires i < 0
    ensures ParseInt(IntToString(i)) == Some(i)
  {
    var n: nat := -i;
    var d := NatToString(n);
    var s := IntToString(i);
    assert s[1..] == d;
    NatToStringValue(n);
    ParseIntNegative(s);
  }

  /** `parseInt(String(i)) == i`. */
  lemma ParseIntOfIntToString(i: int)
    ensures ParseInt(IntToString(i)) == Some(i)
  {
    if i < 0 {
      ParseIntOfNegativeToString(i);
    } else {
      ParseIntDigits(NatToString(i));
      NatToStringValue(i);
    }
  }

  /** `n || fallback` where `n` is a number that may be NaN: NaN and 0 are falsy. */
  function OrNumber(n: Option<int>, fallback: int): int
  {
    match n
    case None => fallback
    case Some(v) => if v == 0 then fallback else v
  }

  /** `parseInt(raw.replace(/[^0-9]/g, '')) || 1`, the digit-only quantity inputs of the
      take, return and replenish dialogs: the value of the digits typed, or 1 when there
      are none or they spell zero. */
  function DigitQuantity(raw: string): (q: int)
    ensures q >= 1
  {
    var d := StripNonDigits(raw);
    if d != [] then ParseIntDigits(d); OrNumber(ParseInt(d), 1)
    else OrNumber(ParseInt(d), 1)
  }

  /** The digit-only quantity is the value of the digits typed, or 1 when there are
      none or they spell zero. */
  lemma DigitQuantityValue(raw: string)
    ensures var d := StripNonDigits(raw);
            DigitQuantity(raw) == if d == [] || DecimalValue(d) == 0 then 1 else DecimalValue(d)
  {
    var d := StripNonDigits(raw);
    if d != [] { ParseIntDigits(d); }
  }

  /** Typing the numeral of a positive `n` into a digit-only quantity input yields `n`. */
  lemma DigitQuantityOfNumeral(n: nat)
    requires n >= 1
    ensures DigitQuantity(NatToString(n)) == n
  {
    DigitQuantityValue(NatToString(n));
    NatToStringValue(n);
  }

  /** `parseInt(raw) || fallback`, the number inputs of the add and edit dialogs. */
  function NumberInput(raw: string, fallback: int): (q: int)
    ensures ParseInt(raw).None? || ParseInt(raw) == Some(0) ==> q == fallback
    ensures ParseInt(raw).Some? && ParseInt(raw).value != 0 ==> q == ParseInt(raw).value
  {
    OrNumber(ParseInt(raw), fallback)
  }

  /** Typing the numeral of a non-zero integer into a number input yields that integer. */
  lemma NumberInputOfNumeral(i: int, fallback: int)
    requires i != 0
    ensures NumberInput(IntToString(i), fallback) == i
  {
    ParseIntOfIntToString(i);
  }

  // ---------------------------------------------------------------------------
  // Case mapping, prefixes and substrings
  // ---------------------------------------------------------------------------

  /** `s.toLowerCase()` for a per-character case mapping `fold`. */
  function Lower(s: string, fold: char -> char): (r: string)
    ensures |r| == |s|
    ensures forall i :: 0 <= i < |s| ==> r[i] == fold(s[i])
  {
    seq(|s|, i requires 0 <= i < |s| => fold(s[i]))
  }

  /** `s.startsWith(p)`. */
  predicate StartsWith(s: string, p: string)
    ensures StartsWith(s, p) ==> |p| <= |s| && s == p + s[|p|..]
  {
    |p| <= |s| && s[..|p|] == p
  }

  /** `t` occurs in `s` at index `i`. */
  predicate OccursAt(s: string, t: string, i: int)
  {
    0 <= i && i + |t| <= |s| && s[i..i + |t|] == t
  }

  /** `s.includes(t)`. */
  predicate Contains(s: string, t: string)
    ensures Contains(s, t) ==> |t| <= |s|
    ensures StartsWith(s, t) ==> Contains(s, t)
  {
    assert StartsWith(s, t) ==> OccursAt(s, t, 0);
    exists i | 0 <= i <= |s| - |t| :: OccursAt(s, t, i)
  }

  // ---------------------------------------------------------------------------
  // split and join on one character
  // ---------------------------------------------------------------------------

  /** The index of the first `c` in `s`. */
  function IndexOf(s: string, c: char): (i: nat)
    requires c in s
    ensures i < |s| && s[i] == c && c !in s[..i]
  {
    if s[0] == c then 0 else 1 + IndexOf(s[1..], c)
  }

  /** `s.split(c)` for a one-character separator: the pieces between the separators;
      there is exactly one piece when `c` does not occur. */
  function Split(s: string, c: char): (parts: seq<string>)
    ensures |parts| >= 1
    ensures (|parts| == 1) == (c !in s)
    ensures forall k :: 0 <= k < |parts| ==> c !in parts[k]
    decreases |s|
  {
    if c !in s then [s]
    else
      var i := IndexOf(s, c);
      [s[..i]] + Split(s[i + 1..], c)
  }

  /** `parts.join(c)`. */
  function Join(parts: seq<string>, c: char): string
  {
    if parts == [] then []
    else if |parts| == 1 then parts[0]
    else parts[0] + [c] + Join(parts[1..], c)
  }

  /** Joining the pieces of a split with the same separator restores the string. */
  lemma {:induction false} JoinSplit(s: string, c: char)
    ensures Join(Split(s, c), c) == s
    decreases |s|
  {
    if c in s {
      var i := IndexOf(s, c);
      var rest := Split(s[i + 1..], c);
      var parts := Split(s, c);
      assert parts == [s[..i]] + rest;
      assert parts[1..] == rest;
      JoinSplit(s[i + 1..], c);
      calc {
        Join(parts, c);
        s[..i] + [c] + Join(rest, c);
        s[..i] + [c] + s[i + 1..];
        { assert s == s[..i] + [c] + s[i + 1..]; }
        s;
      }
    }
  }

  /** Splitting a join of separator-free pieces gives the pieces back. */
  lemma {:induction false} SplitJoin(parts: seq<string>, c: char)
    requires |parts| >= 1
    requires forall k :: 0 <= k < |parts| ==> c !in parts[k]
    ensures Split(Join(parts, c), c) == parts
  {
    if |parts| > 1 {
      var p := parts[0];
      var tail := parts[1..];
      var j := Join(tail, c);
      var s := Join(parts, c);
      assert s == p + [c] + j;
      assert s[|p|] == c;
      assert s[..|p|] == p;
      assert s[|p| + 1..] == j;
      assert IndexOf(s, c) == |p|;
      SplitJoin(tail, c);
      assert Split(s, c) == [p] + Split(j, c);
      assert parts == [p] + tail;
    }
  }

  /** The last piece of `s.split(c)`, as `pop()` returns it. */
  function LastPiece(s: string, c: char): (r: string)
    ensures c !in r
    ensures c !in s ==> r == s
  {
    var parts := Split(s, c);
    parts[|parts| - 1]
  }

  /** The first `c` is found at the one index before which there is no `c`. */
  lemma {:induction false} IndexOfUnique(s: string, c: char, i: nat)
    requires i < |s| && s[i] == c && c !in s[..i]
    ensures IndexOf(s, c) == i
    decreases i
  {
    if i > 0 {
      assert s[0] == s[..i][0];
      assert s[1..][..i - 1] == s[..i][1..];
      IndexOfUnique(s[1..], c, i - 1);
    }
  }

  /** Splitting at the first separator: the piece before it, then the pieces of the rest. */
  lemma SplitAtFirst(s: string, c: char, i: nat)
    requires i < |s| && s[i] == c && c !in s[..i]
    ensures Split(s, c) == [s[..i]] + Split(s[i + 1..], c)
    ensures LastPiece(s, c) == LastPiece(s[i + 1..], c)
  {
    IndexOfUnique(s, c, i);
    assert c in s by { assert s[i] == c; }
    var rest := Split(s[i + 1..], c);
    var parts := Split(s, c);
    assert parts == [s[..i]] + rest;
    assert parts[|parts| - 1] == rest[|rest| - 1];
  }

  /** With no separator before it, the last piece after a separator is the rest. */
  lemma LastPieceAfterOnly(a: string, b: string, c: char)
    requires c !in a && c !in b
    ensures LastPiece(a + [c] + b, c) == b
  {
    var s := a + [c] + b;
    assert s[..|a|] == a && s[|a|] == c;
    SplitAtFirst(s, c, |a|);
    assert s[|a| + 1..] == b;
    assert LastPiece(s, c) == LastPiece(b, c);
  }

  /** Splitting at a first separator keeps the last piece of what follows it. */
  lemma LastPieceAt(s: string, t: string, c: char, i: nat)
    requires i < |s| && s[i] == c && c !in s[..i] && t == s[i + 1..]
    ensures LastPiece(s, c) == LastPiece(t, c)
  {
    SplitAtFirst(s, c, i);
  }

  /** The last piece does not depend on what comes before the first separator. */
  lemma LastPieceSkipsFirst(a: string, b: string, c: char)
    requires c in a
    ensures LastPiece(a + [c] + b, c) == LastPiece(a[IndexOf(a, c) + 1..] + [c] + b, c)
  {
    var s := a + [c] + b;
    var i := IndexOf(a, c);
    var t := a[i + 1..] + [c] + b;
    assert s[..i] == a[..i];
    assert s[i + 1..] == t;
    LastPieceAt(s, t, c, i);
  }

  /** The last piece after a separator is everything after the last separator. */
  lemma {:induction false} LastPieceAfter(a: string, b: string, c: char)
    requires c !in b
    ensures LastPiece(a + [c] + b, c) == b
    decreases |a|
  {
    if c in a {
      LastPieceSkipsFirst(a, b, c);
      LastPieceAfter(a[IndexOf(a, c) + 1..], b, c);
    } else {
      LastPieceAfterOnly(a, b, c);
    }
  }

  // ---------------------------------------------------------------------------
  // split on a separator string
  // ---------------------------------------------------------------------------

  /** The first index at or after `k` where `t` occurs in `s`. */
  function FindFrom(s: string, t: string, k: nat): (r: Option<nat>)
    requires |t| > 0
    ensures r.Some? ==> k <= r.value && OccursAt(s, t, r.value)
    ensures r.Some? ==> forall j :: k <= j < r.value ==> !OccursAt(s, t, j)
    ensures r.None? ==> forall j :: k <= j ==> !OccursAt(s, t, j)
    decreases |s| - k
  {
    if k + |t| > |s| then None
    else if s[k..k + |t|] == t then Some(k)
    else FindFrom(s, t, k + 1)
  }

  /** `s.split(sep)` for a non-empty separator string: cut at the first occurrence,
      then split the rest. */
  function SplitOn(s: string, sep: string): (parts: seq<string>)
    requires |sep| > 0
    ensures |parts| >= 1
    ensures (|parts| == 1) == !Contains(s, sep)
    decreases |s|
  {
    match FindFrom(s, sep, 0)
    case None => [s]
    case Some(i) => [s[..i]] + SplitOn(s[i + |sep|..], sep)
  }
}
