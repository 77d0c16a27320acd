/**
 * Python string semantics used throughout the service: `str.isspace`,
 * `strip`, `startswith`/`endswith`, `sep.join`, `s.split(c)` with a
 * one-character separator, `str(n)` for naturals and `int(s)` for decimals.
 */
module Strings {
  import opened Wrappers

  /** Python's `str.isspace()` for one character (the characters `strip()` removes). */
  predicate IsSpace(c: char) {
    || ('\t' <= c <= '\r')            // \t \n \x0b \x0c \r
    || ('\U{1C}' <= c <= ' ')         // \x1c .. \x1f and the space
    || c == '\U{85}' || c == '\U{A0}' || c == '\U{1680}'
    || ('\U{2000}' <= c <= '\U{200A}')
    || c == '\U{2028}' || c == '\U{2029}' || c == '\U{202F}' || c == '\U{205F}' || c == '\U{3000}'
  }

  predicate AllSpace(s: string) {
    forall i :: 0 <= i < |s| ==> IsSpace(s[i])
  }

  /** Two whitespace-only texts make a whitespace-only text. */
  lemma AllSpaceAppend(a: string, b: string)
    requires AllSpace(a) && AllSpace(b)
    ensures AllSpace(a + b)
  {
    forall i | 0 <= i < |a + b| ensures IsSpace((a + b)[i]) {
      if i >= |a| {
        assert (a + b)[i] == b[i - |a|];
      }
    }
  }

  /** Neither end of `s` is whitespace: `s.strip() == s`. */
  predicate Trimmed(s: string) {
    |s| > 0 ==> !IsSpace(s[0]) && !IsSpace(s[|s| - 1])
  }

  /** Python's `s.lstrip()`: the suffix left after dropping leading whitespace. */
  function LStrip(s: string): string {
    if |s| > 0 && IsSpace(s[0]) then LStrip(s[1..]) else s
  }

  /** `lstrip()` removes a whitespace-only prefix and leaves a text that does not start with
      whitespace. */
  lemma {:induction false} LStripShape(s: string)
    ensures |LStrip(s)| <= |s| && LStrip(s) == s[|s| - |LStrip(s)|..]
    ensures AllSpace(s[..|s| - |LStrip(s)|])
    ensures |LStrip(s)| > 0 ==> !IsSpace(LStrip(s)[0])
    decreases |s|
  {
    if |s| > 0 && IsSpace(s[0]) {
      LStripShape(s[1..]);
      DropLeadingSpace(s, LStrip(s[1..]));
    }
  }

  /** Python's `s.rstrip()`: the prefix left after dropping trailing whitespace. */
  function RStrip(s: string): string {
    if |s| > 0 && IsSpace(s[|s| - 1]) then RStrip(s[..|s| - 1]) else s
  }

  /** `rstrip()` removes a whitespace-only suffix and leaves a text that does not end with
      whitespace. */
  lemma {:induction false} RStripShape(s: string)
    ensures |RStrip(s)| <= |s| && RStrip(s) == s[..|RStrip(s)|]
    ensures AllSpace(s[|RStrip(s)|..])
    ensures |RStrip(s)| > 0 ==> !IsSpace(RStrip(s)[|RStrip(s)| - 1])
    decreases |s|
  {
    if |s| > 0 && IsSpace(s[|s| - 1]) {
      RStripShape(s[..|s| - 1]);
      DropTrailingSpace(s, RStrip(s[..|s| - 1]));
    }
  }

  /** A suffix of `s[1..]` behind whitespace is a suffix of `s` behind whitespace when `s`
      starts with whitespace. */
  lemma DropLeadingSpace(s: string, r: string)
    requires |s| > 0 && IsSpace(s[0])
    requires |r| <= |s| - 1 && r == s[1..][|s| - 1 - |r|..]
    requires AllSpace(s[1..][..|s| - 1 - |r|])
    ensures r == s[|s| - |r|..]
    ensures AllSpace(s[..|s| - |r|])
  {
    assert s[1..][|s| - 1 - |r|..] == s[|s| - |r|..];
    assert s[..|s| - |r|] == [s[0]] + s[1..][..|s| - 1 - |r|];
    AllSpaceAppend([s[0]], s[1..][..|s| - 1 - |r|]);
  }

  /** A prefix of `s[..|s| - 1]` before whitespace is a prefix of `s` before whitespace when
      `s` ends with whitespace. */
  lemma DropTrailingSpace(s: string, r: string)
    requires |s| > 0 && IsSpace(s[|s| - 1])
    requires |r| <= |s| - 1 && r == s[..|s| - 1][..|r|]
    requires AllSpace(s[..|s| - 1][|r|..])
    ensures r == s[..|r|]
    ensures AllSpace(s[|r|..])
  {
    assert s[..|s| - 1][..|r|] == s[..|r|];
    assert s[|r|..] == s[..|s| - 1][|r|..] + [s[|s| - 1]];
    AllSpaceAppend(s[..|s| - 1][|r|..], [s[|s| - 1]]);
  }

  /** Python's `s.strip()`. */
  function Strip(s: string): (r: string)
    ensures Trimmed(r)
    ensures r == "" <==> AllSpace(s)
    ensures |r| <= |s|
  {
    StripEnds(s);
    StripEmpty(s);
    LStripShape(s);
    RStripShape(LStrip(s));
    RStrip(LStrip(s))
  }

  /** Neither end of the stripped text is whitespace. */
  lemma StripEnds(s: string)
    ensures Trimmed(RStrip(LStrip(s)))
  {
    var l := LStrip(s);
    var r := RStrip(l);
    LStripShape(s);
    RStripShape(l);
    if r != "" {
      assert r[0] == l[0];
    }
  }

  /** The stripped text is empty exactly when the whole text is whitespace. */
  lemma StripEmpty(s: string)
    ensures RStrip(LStrip(s)) == "" <==> AllSpace(s)
  {
    var l := LStrip(s);
    var r := RStrip(l);
    LStripShape(s);
    RStripShape(l);
    var cut := |s| - |l|;
    if r == "" {
      assert AllSpace(l);
      assert l == "";
      assert s[..cut] == s;
    }
    if AllSpace(s) {
      AllSpaceSuffix(s, cut);
      assert l == "";
    }
  }

  /** Every suffix of a whitespace-only text is whitespace-only. */
  lemma AllSpaceSuffix(s: string, k: nat)
    requires AllSpace(s) && k <= |s|
    ensures AllSpace(s[k..])
  {
    forall i | 0 <= i < |s| - k ensures IsSpace(s[k..][i]) {
      assert s[k..][i] == s[k + i];
    }
  }

  lemma {:induction false} LStripSurrounded(a: string, x: string)
    requires AllSpace(a)
    requires |x| > 0 ==> !IsSpace(x[0])
    ensures LStrip(a + x) == x
    decreases |a|
  {
    if |a| == 0 {
      assert a + x == x;
    } else {
      assert (a + x)[1..] == a[1..] + x;
      LStripSurrounded(a[1..], x);
    }
  }

  lemma {:induction false} RStripSurrounded(x: string, b: string)
    requires AllSpace(b)
    requires |x| > 0 ==> !IsSpace(x[|x| - 1])
    ensures RStrip(x + b) == x
    decreases |b|
  {
    if |b| == 0 {
      assert x + b == x;
    } else {
      assert (x + b)[..|x + b| - 1] == x + b[..|b| - 1];
      RStripSurrounded(x, b[..|b| - 1]);
    }
  }

  /** Whitespace around an already-stripped text is exactly what `strip()` removes. */
  lemma StripSurrounded(a: string, x: string, b: string)
    requires AllSpace(a) && AllSpace(b) && Trimmed(x)
    ensures Strip(a + x + b) == x
  {
    if |x| == 0 {
      assert a + x + b == a + b;
      assert AllSpace(a + b);
    } else {
      assert a + x + b == a + (x + b);
      LStripSurrounded(a, x + b);
      RStripSurrounded(x, b);
    }
  }

  /** An already-stripped text is left alone by `strip()`. */
  lemma StripTrimmed(s: string)
    requires Trimmed(s)
    ensures Strip(s) == s
  {
    StripSurrounded("", s, "");
    assert "" + s + "" == s;
  }

  /** Joining non-empty stripped pieces gives a stripped text. */
  lemma JoinTrimmed(pieces: seq<string>, sep: string)
    requires forall k :: 0 <= k < |pieces| ==> pieces[k] != "" && Trimmed(pieces[k])
    ensures Trimmed(Join(pieces, sep))
  {
    if |pieces| > 0 {
      var j := Join(pieces, sep);
      var first := pieces[0];
      var last := pieces[|pieces| - 1];
      JoinFirstPiece(pieces, sep);
      JoinLastPiece(pieces, sep);
      assert j[0] == first[0];
      assert j[|j| - 1] == last[|last| - 1];
    }
  }

  /** `strip()` is idempotent. */
  lemma StripIdempotent(s: string)
    ensures Strip(Strip(s)) == Strip(s)
  {
    var t := Strip(s);
    StripSurrounded("", t, "");
    assert "" + t + "" == t;
  }

  predicate StartsWith(s: string, prefix: string) {
    |prefix| <= |s| && s[..|prefix|] == prefix
  }

  lemma StartsWithAppend(a: string, b: string)
    ensures StartsWith(a + b, a)
  {
    assert (a + b)[..|a|] == a;
  }

  predicate EndsWith(s: string, suffix: string) {
    |suffix| <= |s| && s[|s| - |suffix|..] == suffix
  }

  /** Python's `sep.join(pieces)`. */
  function Join(pieces: seq<string>, sep: string): string {
    if |pieces| == 0 then ""
    else if |pieces| == 1 then pieces[0]
    else pieces[0] + sep + Join(pieces[1..], sep)
  }

  /** Python's `s.split(c)` for a one-character separator `c`: always at least one piece. */
  function Split(s: string, c: char): (r: seq<string>)
    ensures |r| > 0
  {
    if |s| == 0 then [""]
    else
      var rest := Split(s[1..], c);
      if s[0] == c then [""] + rest else [[s[0]] + rest[0]] + rest[1..]
  }

  /** Number of occurrences of `c` in `s`. */
  function Count(s: string, c: char): nat {
    if |s| == 0 then 0 else (if s[0] == c then 1 else 0) + Count(s[1..], c)
  }

  lemma JoinConsHead(a: string, x: string, ys: seq<string>, sep: string)
    ensures Join([a + x] + ys, sep) == a + Join([x] + ys, sep)
  {
    if |ys| > 0 {
      assert ([a + x] + ys)[1..] == ys;
      assert ([x] + ys)[1..] == ys;
    }
  }

  /** Joining the pieces of `s.split(c)` with `c` gives back `s`. */
  lemma {:induction false} JoinSplit(s: string, c: char)
    ensures Join(Split(s, c), [c]) == s
  {
    if |s| > 0 {
      var rest := Split(s[1..], c);
      JoinSplit(s[1..], c);
      if s[0] == c {
        assert ([""] + rest)[1..] == rest;
        assert Join([""] + rest, [c]) == "" + [c] + Join(rest, [c]);
      } else {
        assert rest == [rest[0]] + rest[1..];
        JoinConsHead([s[0]], rest[0], rest[1..], [c]);
      }
    }
  }

  /** Joining one more piece appends the separator and that piece. */
  lemma {:induction false} JoinSnoc(pieces: seq<string>, last: string, sep: string)
    requires |pieces| > 0
    ensures Join(pieces + [last], sep) == Join(pieces, sep) + sep + last
  {
    if |pieces| == 1 {
      assert (pieces + [last])[1..] == [last];
    } else {
      assert (pieces + [last])[1..] == pieces[1..] + [last];
      JoinSnoc(pieces[1..], last, sep);
    }
  }

  /** A join starts with its first piece. */
  lemma JoinFirstPiece(pieces: seq<string>, sep: string)
    requires |pieces| > 0
    ensures StartsWith(Join(pieces, sep), pieces[0])
  {
    if |pieces| > 1 {
      assert Join(pieces, sep) == pieces[0] + (sep + Join(pieces[1..], sep));
    }
  }

  /** `s.split(c)` has one more piece than `s` has occurrences of `c`, and no piece contains `c`. */
  lemma {:induction false} SplitShape(s: string, c: char)
    ensures |Split(s, c)| == Count(s, c) + 1
    ensures forall k :: 0 <= k < |Split(s, c)| ==> c !in Split(s, c)[k]
  {
    if |s| > 0 {
      SplitShape(s[1..], c);
    }
  }

  /** A string without `c` splits into itself alone. */
  lemma {:induction false} SplitWithout(s: string, c: char)
    requires c !in s
    ensures Split(s, c) == [s]
  {
    if |s| > 0 {
      assert s[0] != c && c !in s[1..];
      SplitWithout(s[1..], c);
      assert [s[0]] + s[1..] == s;
    }
  }

  /** The piece before the first `c`: prefixing a `c`-free `p` and a `c` to `t`. */
  lemma {:induction false} SplitAfterPrefix(p: string, c: char, t: string)
    requires c !in p
    ensures Split(p + [c] + t, c) == [p] + Split(t, c)
    decreases |p|
  {
    if |p| == 0 {
      assert p + [c] + t == [c] + t;
      assert ([c] + t)[1..] == t;
    } else {
      assert (p + [c] + t)[1..] == p[1..] + [c] + t;
      SplitAfterPrefix(p[1..], c, t);
      assert [p[0]] + p[1..] == p;
    }
  }

  /** Splitting a join of `c`-free pieces on `c` gives back the pieces. */
  lemma {:induction false} SplitJoin(pieces: seq<string>, c: char)
    requires |pieces| > 0
    requires forall k :: 0 <= k < |pieces| ==> c !in pieces[k]
    ensures Split(Join(pieces, [c]), c) == pieces
  {
    if |pieces| == 1 {
      SplitWithout(pieces[0], c);
    } else {
      SplitJoin(pieces[1..], c);
      assert Join(pieces, [c]) == pieces[0] + [c] + Join(pieces[1..], [c]);
      SplitAfterPrefix(pieces[0], c, Join(pieces[1..], [c]));
      assert pieces == [pieces[0]] + pieces[1..];
    }
  }

  predicate IsDigit(c: char) {
    '0' <= c <= '9'
  }

  predicate AllDigits(s: string) {
    forall i :: 0 <= i < |s| ==> IsDigit(s[i])
  }

  /** The value of a run of decimal digits (leading zeros allowed, as `int("007")` does). */
  function DigitsValue(s: string): nat
    requires AllDigits(s)
  {
    if |s| == 0 then 0 else 10 * DigitsValue(s[..|s| - 1]) + (s[|s| - 1] as int - '0' as int)
  }

  /** Python's `str(n)` for a natural number. */
  function NatToString(n: nat): (r: string)
    ensures |r| > 0 && AllDigits(r)
  {
    if n < 10 then [('0' as int + n) as char]
    else NatToString(n / 10) + [('0' as int + n % 10) as char]
  }

  /** Python's `int(s)` on a decimal string, restricted to ASCII digits: surrounding whitespace,
      an optional sign, then one or more of `0`-`9`; anything else is taken as `ValueError`
      (None). Python also accepts the other Unicode decimal digits (`int("３") == 3`) and single
      underscores between digits; those inputs are not modelled and give None here. */
  function ParseInt(s: string): Option<int> {
    ParseSigned(Strip(s))
  }

  /** `int()` after the surrounding whitespace is gone: an optional sign, then digits. */
  function ParseSigned(t: string): Option<int> {
    if |t| > 0 && t[0] == '-' then
      match ParseDigits(t[1..])
      case Some(v) => Some(-v)
      case None => None
    else if |t| > 0 && t[0] == '+' then
      ParseDigits(t[1..])
    else
      ParseDigits(t)
  }

  /** A non-empty run of ASCII digits and its value, or None. */
  function ParseDigits(body: string): (r: Option<int>)
    ensures r.Some? <==> |body| > 0 && AllDigits(body)
  {
    if |body| > 0 && AllDigits(body) then Some(DigitsValue(body)) else None
  }

  lemma {:induction false} DigitsValueOfNat(n: nat)
    ensures DigitsValue(NatToString(n)) == n
  {
    if n >= 10 {
      var s := NatToString(n);
      assert s[..|s| - 1] == NatToString(n / 10);
      DigitsValueOfNat(n / 10);
    }
  }

  /** A run of digits is already stripped. */
  lemma DigitsTrimmed(s: string)
    requires |s| > 0 && AllDigits(s)
    ensures Strip(s) == s
  {
    assert IsDigit(s[0]) && IsDigit(s[|s| - 1]);
    assert Trimmed(s);
    StripSurrounded("", s, "");
    assert "" + s + "" == s;
  }

  /** `int(s)` of a non-empty run of digits is its decimal value. */
  lemma SignedDigits(s: string)
    requires |s| > 0 && AllDigits(s)
    ensures ParseSigned(s) == Some(DigitsValue(s))
  {
    assert IsDigit(s[0]);
    assert ParseSigned(s) == ParseDigits(s);
  }

  lemma ParseIntOfDigits(s: string)
    requires |s| > 0 && AllDigits(s)
    ensures ParseInt(s) == Some(DigitsValue(s))
  {
    DigitsTrimmed(s); SignedDigits(s);
  }

  /** A stripped text that starts with neither a sign nor a digit is not an integer. */
  lemma ParseIntNonDigit(s: string)
    requires Trimmed(s) && |s| > 0
    requires s[0] != '-' && s[0] != '+' && !IsDigit(s[0])
    ensures ParseInt(s) == None
  {
    StripTrimmed(s);
    assert !AllDigits(s);
    assert ParseSigned(s) == ParseDigits(s);
  }

  /** `int(str(n)) == n`. */
  lemma ParseIntOfNat(n: nat)
    ensures ParseInt(NatToString(n)) == Some(n)
  {
    ParseIntOfDigits(NatToString(n));
    DigitsValueOfNat(n);
  }

  /** Everything after the last `c` (Python's `s.split(c)[-1]`). */
  function LastSegment(s: string, c: char): (r: string)
    ensures c !in r
    ensures EndsWith(s, r)
    ensures c !in s ==> r == s
    ensures c in s ==> EndsWith(s, [c] + r)
  {
    var pieces := Split(s, c);
    SplitShape(s, c);
    JoinSplit(s, c);
    JoinLastPiece(pieces, [c]);
    if c in s then
      CountPositive(s, c);
      JoinLastSeparated(pieces, [c]);
      pieces[|pieces| - 1]
    else
      SplitWithout(s, c);
      pieces[|pieces| - 1]
  }

  /** A text holding `c` counts it at least once. */
  lemma {:induction false} CountPositive(s: string, c: char)
    requires c in s
    ensures Count(s, c) > 0
  {
    if s[0] != c {
      assert c in s[1..];
      CountPositive(s[1..], c);
    }
  }

  /** A join of two or more pieces ends with the separator and the last piece. */
  lemma {:induction false} JoinLastSeparated(pieces: seq<string>, sep: string)
    requires |pieces| > 1
    ensures EndsWith(Join(pieces, sep), sep + pieces[|pieces| - 1])
  {
    var tail := Join(pieces[1..], sep);
    assert Join(pieces, sep) == pieces[0] + sep + tail;
    if |pieces| == 2 {
      assert pieces[1..] == [pieces[1]];
      assert (pieces[0] + sep + tail)[|pieces[0]|..] == sep + pieces[1];
    } else {
      JoinLastSeparated(pieces[1..], sep);
      var u := sep + pieces[|pieces| - 1];
      assert tail[|tail| - |u|..] == u;
      assert (pieces[0] + sep + tail)[|pieces[0] + sep + tail| - |u|..] == tail[|tail| - |u|..];
    }
  }

  lemma {:induction false} JoinLastPiece(pieces: seq<string>, sep: string)
    requires |pieces| > 0
    ensures EndsWith(Join(pieces, sep), pieces[|pieces| - 1])
  {
    if |pieces| > 1 {
      JoinLastPiece(pieces[1..], sep);
    }
  }
}
