/** String helpers from Go's standard library that the service relies on:
    `strings.TrimSpace`/`strings.Trim`, `strings.Split` on one separator, ASCII case
    mapping, and decimal formatting of naturals (`%d`). Strings are sequences of runes. */
module Text {

  /** Go's `unicode.IsSpace`: the Latin-1 spaces plus the Unicode White_Space runes above Latin-1. */
  predicate IsSpace(c: char) {
    || c == ' ' || c == '\t' || c == '\n' || c == '\U{000B}' || c == '\U{000C}' || c == '\r'
    || c == '\U{0085}' || c == '\U{00A0}' || c == '\U{1680}'
    || ('\U{2000}' <= c <= '\U{200A}')
    || c == '\U{2028}' || c == '\U{2029}' || c == '\U{202F}' || c == '\U{205F}' || c == '\U{3000}'
  }

  /** Removes the leading runes that satisfy `drop`. */
  function TrimLeft(s: string, drop: char -> bool): (r: string)
    ensures |r| <= |s| && r == s[|s| - |r|..]
    ensures forall k :: 0 <= k < |s| - |r| ==> drop(s[k])
    ensures |r| > 0 ==> !drop(r[0])
    decreases |s|
  {
    if |s| > 0 && drop(s[0]) then
      var r := TrimLeft(s[1..], drop);
      DroppedFirst(s, r, drop);
      r
    else
      s
  }

  /** Dropping the first rune, then a further prefix, drops a prefix of `s`. */
  lemma DroppedFirst(s: string, r: string, drop: char -> bool)
    requires |s| > 0 && drop(s[0])
    requires |r| <= |s| - 1 && r == s[1..][|s| - 1 - |r|..]
    requires forall k :: 0 <= k < |s| - 1 - |r| ==> drop(s[1..][k])
    ensures r == s[|s| - |r|..]
    ensures forall k :: 0 <= k < |s| - |r| ==> drop(s[k])
  {
    forall k | 0 <= k < |s| - |r| ensures drop(s[k]) {
      if k > 0 {
        assert s[k] == s[1..][k - 1];
      }
    }
  }

  /** Removes the trailing runes that satisfy `drop`. */
  function TrimRight(s: string, drop: char -> bool): (r: string)
    ensures |r| <= |s| && r == s[..|r|]
    ensures forall k :: |r| <= k < |s| ==> drop(s[k])
    ensures |r| > 0 ==> !drop(r[|r| - 1])
    decreases |s|
  {
    if |s| > 0 && drop(s[|s| - 1]) then
      var r := TrimRight(s[..|s| - 1], drop);
      DroppedLast(s, r, drop);
      r
    else
      s
  }

  /** Dropping the last rune, then a further suffix, drops a suffix of `s`. */
  lemma DroppedLast(s: string, r: string, drop: char -> bool)
    requires |s| > 0 && drop(s[|s| - 1])
    requires var init := s[..|s| - 1];
             && |r| <= |init| && r == init[..|r|]
             && forall k :: |r| <= k < |init| ==> drop(init[k])
    ensures r == s[..|r|]
    ensures forall k :: |r| <= k < |s| ==> drop(s[k])
  {
    var init := s[..|s| - 1];
    forall k | |r| <= k < |s| ensures drop(s[k]) {
      if k < |s| - 1 {
        assert s[k] == init[k];
      }
    }
  }

  /** Go's `strings.TrimFunc`: drops the runes satisfying `drop` at both ends. The result
      keeps only runes of `s`, neither starts nor ends with a dropped rune, leaves an
      already-trimmed string alone, and is empty exactly when every rune is dropped;
      `TrimSlices.TrimIsSlice` shows it is a contiguous middle of `s`. */
  function Trim(s: string, drop: char -> bool): (r: string)
    ensures |r| <= |s|
    ensures forall c :: c in r ==> c in s
    ensures |r| > 0 ==> !drop(r[0]) && !drop(r[|r| - 1])
    ensures (|s| == 0 || (!drop(s[0]) && !drop(s[|s| - 1]))) ==> r == s
    ensures (forall k :: 0 <= k < |s| ==> drop(s[k])) <==> r == []
  {
    var left := TrimLeft(s, drop);
    var r := TrimRight(left, drop);
    assert |r| > 0 ==> r[0] == left[0];
    r
  }

  /** Go's `strings.TrimSpace`. */
  function TrimSpace(s: string): (r: string)
    ensures |r| <= |s|
    ensures forall c :: c in r ==> c in s
    ensures |r| > 0 ==> !IsSpace(r[0]) && !IsSpace(r[|r| - 1])
    ensures (|s| == 0 || (!IsSpace(s[0]) && !IsSpace(s[|s| - 1]))) ==> r == s
    ensures r == [] <==> forall k :: 0 <= k < |s| ==> IsSpace(s[k])
  {
    Trim(s, IsSpace)
  }


  /** True when `s` is empty or made of white space only (`strings.TrimSpace(s) == ""`). */
  predicate IsBlank(s: string) {
    forall k :: 0 <= k < |s| ==> IsSpace(s[k])
  }

  /** ASCII upper-casing of one rune. */
  function UpperRune(c: char): char {
    if 'a' <= c <= 'z' then (c as int - 32) as char else c
  }

  /** ASCII lower-casing of one rune. */
  function LowerRune(c: char): char {
    if 'A' <= c <= 'Z' then (c as int + 32) as char else c
  }

  /** `strings.ToUpper`, restricted to ASCII letters. */
  function Upper(s: string): (r: string)
    ensures |r| == |s|
    ensures forall k :: 0 <= k < |s| ==> r[k] == UpperRune(s[k])
  {
    seq(|s|, k requires 0 <= k < |s| => UpperRune(s[k]))
  }

  /** `strings.ToLower`, restricted to ASCII letters. */
  function Lower(s: string): (r: string)
    ensures |r| == |s|
    ensures forall k :: 0 <= k < |s| ==> r[k] == LowerRune(s[k])
  {
    seq(|s|, k requires 0 <= k < |s| => LowerRune(s[k]))
  }

  // ---------------------------------------------------------------------------
  // Decimal digits (`fmt.Sprintf("%d", n)` for naturals)
  // ---------------------------------------------------------------------------

  predicate IsDigit(c: char) {
    '0' <= c <= '9'
  }

  function DigitChar(d: nat): (c: char)
    requires d < 10
    ensures IsDigit(c) && c as int - '0' as int == d
  {
    ('0' as int + d) as char
  }

  function Pow10(d: nat): (p: nat)
    ensures p >= 1
  {
    if d == 0 then 1 else 10 * Pow10(d - 1)
  }

  /** The decimal text of `n`, without leading zeros. */
  function NatToString(n: nat): (r: string)
    ensures |r| >= 1
    ensures forall k :: 0 <= k < |r| ==> IsDigit(r[k])
    decreases n
  {
    if n < 10 then [DigitChar(n)] else NatToString(n / 10) + [DigitChar(n % 10)]
  }

  /** The value of a string of decimal digits (the inverse of `NatToString`). */
  function DigitsValue(s: string): nat
    requires forall k :: 0 <= k < |s| ==> IsDigit(s[k])
  {
    if |s| == 0 then 0 else DigitsValue(s[..|s| - 1]) * 10 + DigitValue(s[|s| - 1])
  }

  /** The value of one decimal digit. */
  function DigitValue(c: char): (d: nat)
    requires IsDigit(c)
    ensures d < 10
  {
    assert '0' as int <= c as int <= '9' as int;
    c as int - '0' as int
  }

  /** Formatting a natural in decimal loses nothing: its digits read back as the number. */
  lemma {:induction false} DigitsValueOfNatToString(n: nat)
    ensures DigitsValue(NatToString(n)) == n
    decreases n
  {
    if n >= 10 {
      var s := NatToString(n);
      DigitsValueOfNatToString(n / 10);
      assert s[..|s| - 1] == NatToString(n / 10);
    }
  }

  /** Distinct naturals have distinct decimal texts. */
  lemma NatToStringInjective(a: nat, b: nat)
    ensures NatToString(a) == NatToString(b) ==> a == b
  {
    DigitsValueOfNatToString(a);
    DigitsValueOfNatToString(b);
  }

  /** A natural below 10^d has at most d digits. */
  lemma {:induction false} NatToStringLength(n: nat, d: nat)
    requires d >= 1 && n < Pow10(d)
    ensures |NatToString(n)| <= d
    decreases d
  {
    if n >= 10 {
      NatToStringLength(n / 10, d - 1);
    }
  }

  // ---------------------------------------------------------------------------
  // strings.Split on one separator rune, and its inverse strings.Join
  // ---------------------------------------------------------------------------

  /** Number of occurrences of `c` in `s`. */
  function Count(s: string, c: char): nat {
    if |s| == 0 then 0 else (if s[0] == c then 1 else 0) + Count(s[1..], c)
  }

  /** Go's `strings.Split(s, string(sep))`: one more piece than separators, none containing it. */
  function Split(s: string, sep: char): (r: seq<string>)
    ensures |r| == Count(s, sep) + 1
    ensures forall i :: 0 <= i < |r| ==> sep !in r[i]
    decreases |s|
  {
    if |s| == 0 then [""]
    else
      var rest := Split(s[1..], sep);
      if s[0] == sep then [""] + rest
      else [[s[0]] + rest[0]] + rest[1..]
  }

  /** Go's `strings.Join(xs, string(sep))` for a non-empty list. */
  function Join(xs: seq<string>, sep: char): string
    requires |xs| >= 1
  {
    if |xs| == 1 then xs[0] else xs[0] + [sep] + Join(xs[1..], sep)
  }

  lemma {:induction false} SplitWithoutSeparator(p: string, sep: char)
    requires sep !in p
    ensures Split(p, sep) == [p]
    decreases |p|
  {
    if |p| > 0 {
      SplitWithoutSeparator(p[1..], sep);
      assert [p[0]] + p[1..] == p;
    }
  }

  lemma {:induction false} SplitAtFirstSeparator(p: string, t: string, sep: char)
    requires sep !in p
    ensures Split(p + [sep] + t, sep) == [p] + Split(t, sep)
    decreases |p|
  {
    var s := p + [sep] + t;
    if |p| == 0 {
      assert s[1..] == t;
    } else {
      assert s[1..] == p[1..] + [sep] + t;
      SplitAtFirstSeparator(p[1..], t, sep);
      assert [p[0]] + p[1..] == p;
    }
  }

  /** Splitting a joined list gives the list back, provided no piece contains the separator. */
  lemma {:induction false} SplitJoin(xs: seq<string>, sep: char)
    requires |xs| >= 1
    requires forall i :: 0 <= i < |xs| ==> sep !in xs[i]
    ensures Split(Join(xs, sep), sep) == xs
    decreases |xs|
  {
    if |xs| == 1 {
      SplitWithoutSeparator(xs[0], sep);
    } else {
      SplitJoin(xs[1..], sep);
      SplitAtFirstSeparator(xs[0], Join(xs[1..], sep), sep);
    }
  }

  /** Splitting at a separator splits each side independently. */
  lemma {:induction false} SplitConcat(a: string, b: string, sep: char)
    ensures Split(a + [sep] + b, sep) == Split(a, sep) + Split(b, sep)
    decreases |a|
  {
    var s := a + [sep] + b;
    if |a| == 0 {
      assert s == [sep] + b;
      assert s[1..] == b;
    } else {
      assert s[1..] == a[1..] + [sep] + b;
      SplitConcat(a[1..], b, sep);
    }
  }

  /** Text without the separator in front of `s` only lengthens the first piece. */
  lemma {:induction false} SplitPrepend(p: string, s: string, sep: char)
    requires sep !in p
    ensures var pieces := Split(s, sep);
            Split(p + s, sep) == [p + pieces[0]] + pieces[1..]
    decreases |p|
  {
    if |p| > 0 {
      var t := p + s;
      assert t[1..] == p[1..] + s;
      SplitPrepend(p[1..], s, sep);
      assert [p[0]] + (p[1..] + Split(s, sep)[0]) == p + Split(s, sep)[0];
    } else {
      var pieces := Split(s, sep);
      assert p + s == s && p + pieces[0] == pieces[0];
      assert pieces == [pieces[0]] + pieces[1..];
    }
  }

  /** Text without the separator after `s` only lengthens the last piece. */
  lemma {:induction false} SplitAppend(s: string, q: string, sep: char)
    requires sep !in q
    ensures var pieces := Split(s, sep);
            Split(s + q, sep) == pieces[..|pieces| - 1] + [pieces[|pieces| - 1] + q]
    decreases |s|
  {
    if |s| == 0 {
      assert s + q == q;
      SplitWithoutSeparator(q, sep);
    } else {
      var t := s + q;
      assert t[0] == s[0];
      assert t[1..] == s[1..] + q;
      SplitAppend(s[1..], q, sep);
      var rest := Split(s[1..], sep);
      var m := |rest|;
      var tail := Split(s[1..] + q, sep);
      assert tail == rest[..m - 1] + [rest[m - 1] + q];
      var pieces := Split(s, sep);
      if s[0] == sep {
        assert pieces == [""] + rest;
        assert pieces[..|pieces| - 1] == [""] + rest[..m - 1];
      } else if m == 1 {
        assert tail == [rest[0] + q];
        assert [s[0]] + tail[0] == ([s[0]] + rest[0]) + q;
      } else {
        assert tail[0] == rest[0];
        assert tail[1..] == rest[1..m - 1] + [rest[m - 1] + q];
        assert pieces == [[s[0]] + rest[0]] + rest[1..];
        assert pieces[..|pieces| - 1] == [[s[0]] + rest[0]] + rest[1..m - 1];
      }
    }
  }
}

/** Where trimming cuts: `Trim` and `TrimSpace` keep a contiguous middle slice of their input and
    cut off only runes they drop. */
module TrimSlices {
  import opened Text

  /** What `Trim` leaves is the middle of `s` that starts after the `i` runes dropped at the
      front: rune `k` of the result is rune `i + k` of `s`. */
  lemma TrimIsSlice(s: string, drop: char -> bool)
    ensures var r := Trim(s, drop);
            var i := |s| - |TrimLeft(s, drop)|;
            && i + |r| <= |s|
            && forall k :: 0 <= k < |r| ==> r[k] == s[i + k]
  {
    var left := TrimLeft(s, drop);
    SliceOfSlice(s, left, TrimRight(left, drop), |s| - |left|);
  }

  /** Everything `Trim` cuts off, before and after that slice, is dropped runes. */
  lemma TrimDropsOnlyEnds(s: string, drop: char -> bool)
    ensures var r := Trim(s, drop);
            var i := |s| - |TrimLeft(s, drop)|;
            && i + |r| <= |s|
            && (forall k :: 0 <= k < i ==> drop(s[k]))
            && (forall k :: i + |r| <= k < |s| ==> drop(s[k]))
  {
    var left := TrimLeft(s, drop);
    SuffixDropped(s, left, TrimRight(left, drop), |s| - |left|, drop);
  }

  /** A prefix of a suffix of `s` is a middle slice of `s`. */
  lemma SliceOfSlice(s: string, left: string, r: string, i: nat)
    requires i <= |s| && left == s[i..] && |r| <= |left| && r == left[..|r|]
    ensures i + |r| <= |s|
    ensures forall k :: 0 <= k < |r| ==> r[k] == s[i + k]
  {
  }

  /** The runes cut off the end of a suffix of `s` are runes at the end of `s`. */
  lemma SuffixDropped(s: string, left: string, r: string, i: nat, drop: char -> bool)
    requires i <= |s| && left == s[i..] && |r| <= |left|
    requires forall k :: |r| <= k < |left| ==> drop(left[k])
    ensures forall k :: i + |r| <= k < |s| ==> drop(s[k])
  {
    forall k | i + |r| <= k < |s| ensures drop(s[k]) {
      assert s[k] == left[k - i];
    }
  }

  /** Trimming a rune-by-rune image `m` of `s` keeps the image of a contiguous run of `s`, and what
      it cuts off on either side are images that `drop` removes. */
  lemma TrimMappedIsSlice(s: string, m: string, f: char -> char, drop: char -> bool) returns (i: nat)
    requires |m| == |s| && forall k {:trigger m[k]} :: 0 <= k < |s| ==> m[k] == f(s[k])
    ensures var r := Trim(m, drop);
            && i + |r| <= |s|
            && (forall k :: 0 <= k < |r| ==> r[k] == f(s[i + k]))
            && (forall k :: 0 <= k < i ==> drop(f(s[k])))
            && (forall k :: i + |r| <= k < |s| ==> drop(f(s[k])))
  {
    TrimIsSlice(m, drop);
    TrimDropsOnlyEnds(m, drop);
    i := |m| - |TrimLeft(m, drop)|;
    var r := Trim(m, drop);
    forall k | 0 <= k < |r| ensures r[k] == f(s[i + k]) {
      assert r[k] == m[i + k];
    }
    forall k | 0 <= k < i ensures drop(f(s[k])) {
      assert drop(m[k]);
    }
    forall k | i + |r| <= k < |s| ensures drop(f(s[k])) {
      assert drop(m[k]);
    }
  }

  /** `TrimSpace` keeps a contiguous middle of `s`; what it cuts off at either end is white space. */
  lemma TrimSpaceIsSlice(s: string)
    ensures var r := TrimSpace(s);
            var i := |s| - |TrimLeft(s, IsSpace)|;
            && i + |r| <= |s|
            && (forall k :: 0 <= k < |r| ==> r[k] == s[i + k])
            && (forall k :: 0 <= k < i ==> IsSpace(s[k]))
            && (forall k :: i + |r| <= k < |s| ==> IsSpace(s[k]))
  {
    TrimIsSlice(s, IsSpace);
    TrimDropsOnlyEnds(s, IsSpace);
  }
  /** Every rune of `s` is one that `drop` removes. */
  predicate AllDropped(s: string, drop: char -> bool) {
    forall k :: 0 <= k < |s| ==> drop(s[k])
  }

  lemma BlankIsAllDropped(s: string)
    ensures IsBlank(s) <==> AllDropped(s, IsSpace)
  {
  }

  lemma TakeDrop(s: string, n: nat)
    requires n <= |s|
    ensures s == s[..n] + s[n..]
  {
  }

  lemma Assemble(s: string, front: string, left: string, t: string, back: string)
    requires s == front + left && left == t + back
    ensures s == front + t + back
  {
  }

  lemma Pad(p: string, x: string, q: string, front: string, t: string, back: string)
    requires x == front + t + back
    ensures p + x + q == (p + front) + t + (back + q)
  {
  }

  lemma DroppedPrefix(s: string, n: nat, drop: char -> bool)
    requires n <= |s| && forall k :: 0 <= k < n ==> drop(s[k])
    ensures AllDropped(s[..n], drop)
  {
    forall k | 0 <= k < n ensures drop(s[..n][k]) {
      assert s[..n][k] == s[k];
    }
  }

  lemma DroppedSuffix(s: string, n: nat, drop: char -> bool)
    requires n <= |s| && forall k :: n <= k < |s| ==> drop(s[k])
    ensures AllDropped(s[n..], drop)
  {
    forall k | 0 <= k < |s| - n ensures drop(s[n..][k]) {
      assert s[n..][k] == s[n + k];
    }
  }

  lemma DroppedConcat(a: string, b: string, drop: char -> bool)
    requires AllDropped(a, drop) && AllDropped(b, drop)
    ensures AllDropped(a + b, drop)
  {
    forall k | 0 <= k < |a + b| ensures drop((a + b)[k]) {
      if k < |a| {
        assert (a + b)[k] == a[k];
      } else {
        assert (a + b)[k] == b[k - |a|];
      }
    }
  }

  /** `Trim` splits `s` into a dropped front, the kept middle and a dropped back. */
  lemma TrimSplit(s: string, drop: char -> bool) returns (front: string, back: string)
    ensures s == front + Trim(s, drop) + back
    ensures AllDropped(front, drop) && AllDropped(back, drop)
  {
    var left := TrimLeft(s, drop);
    var t := TrimRight(left, drop);
    assert t == Trim(s, drop);
    var n := |s| - |left|;
    front := s[..n];
    back := left[|t|..];
    TakeDrop(s, n);
    TakeDrop(left, |t|);
    Assemble(s, front, left, t, back);
    DroppedPrefix(s, n, drop);
    DroppedSuffix(left, |t|, drop);
  }

  /** A dropped run in front of a string that starts with a kept rune is what `TrimLeft` removes. */
  lemma {:induction false} TrimLeftOfPadded(a: string, x: string, drop: char -> bool)
    requires AllDropped(a, drop) && |x| > 0 && !drop(x[0])
    ensures TrimLeft(a + x, drop) == x
    decreases |a|
  {
    if |a| == 0 {
      assert a + x == x;
    } else {
      assert (a + x)[0] == a[0];
      assert (a + x)[1..] == a[1..] + x;
      DroppedSuffix(a, 1, drop);
      TrimLeftOfPadded(a[1..], x, drop);
    }
  }

  /** A dropped run after a string that ends in a kept rune is what `TrimRight` removes. */
  lemma {:induction false} TrimRightOfPadded(x: string, b: string, drop: char -> bool)
    requires AllDropped(b, drop) && |x| > 0 && !drop(x[|x| - 1])
    ensures TrimRight(x + b, drop) == x
    decreases |b|
  {
    if |b| == 0 {
      assert x + b == x;
    } else {
      var t := x + b;
      assert t[|t| - 1] == b[|b| - 1];
      assert t[..|t| - 1] == x + b[..|b| - 1];
      DroppedPrefix(b, |b| - 1, drop);
      TrimRightOfPadded(x, b[..|b| - 1], drop);
    }
  }

  /** Dropped runs around a string with kept runes at both ends are exactly what `Trim` removes. */
  lemma TrimUnique(s: string, a: string, r: string, b: string, drop: char -> bool)
    requires s == a + r + b && AllDropped(a, drop) && AllDropped(b, drop)
    requires r == [] || (!drop(r[0]) && !drop(r[|r| - 1]))
    ensures Trim(s, drop) == r
  {
    if r == [] {
      assert s == a + b;
      DroppedConcat(a, b, drop);
    } else {
      assert s == a + (r + b);
      assert (r + b)[0] == r[0];
      TrimLeftOfPadded(a, r + b, drop);
      TrimRightOfPadded(r, b, drop);
    }
  }

  /** Padding a split string with more dropped runes leaves the same middle for `Trim`. */
  lemma TrimAround(p: string, x: string, q: string, front: string, t: string, back: string, drop: char -> bool)
    requires x == front + t + back
    requires AllDropped(p, drop) && AllDropped(q, drop) && AllDropped(front, drop) && AllDropped(back, drop)
    requires t == [] || (!drop(t[0]) && !drop(t[|t| - 1]))
    ensures Trim(p + x + q, drop) == t
  {
    Pad(p, x, q, front, t, back);
    DroppedConcat(p, front, drop);
    DroppedConcat(back, q, drop);
    TrimUnique(p + x + q, p + front, t, back + q, drop);
  }

  /** Dropped runs added at either end of a string do not change what `Trim` keeps. */
  lemma TrimPadded(p: string, x: string, q: string, drop: char -> bool)
    requires AllDropped(p, drop) && AllDropped(q, drop)
    ensures Trim(p + x + q, drop) == Trim(x, drop)
  {
    var front, back := TrimSplit(x, drop);
    TrimAround(p, x, q, front, Trim(x, drop), back, drop);
  }


  /** `TrimSpace` splits `s` into blank front, kept middle and blank back. */
  lemma TrimSpaceSplit(s: string) returns (front: string, back: string)
    ensures s == front + TrimSpace(s) + back
    ensures IsBlank(front) && IsBlank(back)
  {
    front, back := TrimSplit(s, IsSpace);
    BlankIsAllDropped(front);
    BlankIsAllDropped(back);
  }

  /** White space added at either end of a string does not change what `TrimSpace` keeps. */
  lemma TrimSpacePadded(p: string, x: string, q: string)
    requires IsBlank(p) && IsBlank(q)
    ensures TrimSpace(p + x + q) == TrimSpace(x)
  {
    BlankIsAllDropped(p);
    BlankIsAllDropped(q);
    TrimPadded(p, x, q, IsSpace);
  }


  lemma TrimSpacePaddedFront(p: string, x: string)
    requires IsBlank(p)
    ensures TrimSpace(p + x) == TrimSpace(x)
  {
    assert p + x + [] == p + x;
    TrimSpacePadded(p, x, []);
  }

  lemma TrimSpacePaddedBack(x: string, q: string)
    requires IsBlank(q)
    ensures TrimSpace(x + q) == TrimSpace(x)
  {
    assert [] + x + q == x + q;
    TrimSpacePadded([], x, q);
  }
}
