/** The string operations of JavaScript that the pipeline relies on: `trim`,
    `toLowerCase` (ASCII letters only), `split` on one separator, and the decimal
    rendering of a number inside a template literal. */
module Strings {

  /** The code points `String.prototype.trim` removes: ECMAScript's WhiteSpace
      (tab, vertical tab, form feed, space, no-break space, byte order mark and the
      Unicode space separators) and LineTerminator (LF, CR, LS, PS). */
  predicate IsJsWhitespace(c: char)
  {
    || ('\t' <= c <= '\r')  // tab, line feed, vertical tab, form feed, carriage return
    || c == ' ' || c == '\U{00A0}' || c == '\U{1680}'
    || ('\U{2000}' <= c <= '\U{200A}')
    || c == '\U{2028}' || c == '\U{2029}'
    || c == '\U{202F}' || c == '\U{205F}' || c == '\U{3000}' || c == '\U{FEFF}'
  }

  /** Neither end of `s` is whitespace. */
  predicate IsTrimmed(s: string)
  {
    |s| == 0 || (!IsJsWhitespace(s[0]) && !IsJsWhitespace(s[|s| - 1]))
  }

  /** The position of the first non-whitespace character of `s` at or after `i`
      (or `|s|` when there is none). */
  function TrimLo(s: string, i: nat): (lo: nat)
    requires i <= |s|
    ensures i <= lo <= |s|
    ensures lo == |s| || !IsJsWhitespace(s[lo])
    decreases |s| - i
  {
    if i < |s| && IsJsWhitespace(s[i]) then TrimLo(s, i + 1) else i
  }

  /** The end of `s[lo..j]` once its trailing whitespace is removed. */
  function TrimHi(s: string, lo: nat, j: nat): (hi: nat)
    requires lo <= j <= |s|
    ensures lo <= hi <= j
    ensures hi == lo || !IsJsWhitespace(s[hi - 1])
    decreases j
  {
    if lo < j && IsJsWhitespace(s[j - 1]) then TrimHi(s, lo, j - 1) else j
  }

  /** Everything `TrimLo` skips is whitespace. */
  lemma {:induction false} TrimLoSkipsWhitespace(s: string, i: nat)
    requires i <= |s|
    ensures forall k :: i <= k < TrimLo(s, i) ==> IsJsWhitespace(s[k])
    decreases |s| - i
  {
    if i < |s| && IsJsWhitespace(s[i]) {
      TrimLoSkipsWhitespace(s, i + 1);
    }
  }

  /** Everything `TrimHi` cuts off is whitespace. */
  lemma {:induction false} TrimHiSkipsWhitespace(s: string, lo: nat, j: nat)
    requires lo <= j <= |s|
    ensures forall k :: TrimHi(s, lo, j) <= k < j ==> IsJsWhitespace(s[k])
    decreases j
  {
    if lo < j && IsJsWhitespace(s[j - 1]) {
      TrimHiSkipsWhitespace(s, lo, j - 1);
    }
  }

  /** `String.prototype.trim`: neither end of the result is whitespace (the lemma
      TrimSlice says what is cut off). */
  function Trim(s: string): (r: string)
    ensures IsTrimmed(r)
    ensures |r| <= |s|
  {
    var lo := TrimLo(s, 0);
    s[lo..TrimHi(s, lo, |s|)]
  }

  /** `trim` keeps the slice of `s` after its leading whitespace, and everything it
      cuts off on either side is whitespace. */
  lemma TrimSlice(s: string)
    ensures TrimLo(s, 0) + |Trim(s)| <= |s|
    ensures Trim(s) == s[TrimLo(s, 0)..TrimLo(s, 0) + |Trim(s)|]
    ensures forall k :: 0 <= k < |s| && (k < TrimLo(s, 0) || TrimLo(s, 0) + |Trim(s)| <= k) ==>
      IsJsWhitespace(s[k])
  {
    var lo := TrimLo(s, 0);
    TrimLoSkipsWhitespace(s, 0);
    TrimHiSkipsWhitespace(s, lo, |s|);
  }

  /** A string without whitespace at its ends is left unchanged by `trim`. */
  lemma TrimOfTrimmed(s: string)
    requires IsTrimmed(s)
    ensures Trim(s) == s
  {
    assert s[0..|s|] == s;
  }

  /** `trim` is idempotent. */
  lemma TrimIdempotent(s: string)
    ensures Trim(Trim(s)) == Trim(s)
  {
    TrimOfTrimmed(Trim(s));
  }

  /** Lower-cases the ASCII capitals and leaves every other character alone. */
  function ToLowerAscii(s: string): (r: string)
    ensures |r| == |s|
    ensures forall k :: 0 <= k < |r| ==> !('A' <= r[k] <= 'Z')
    ensures forall k :: 0 <= k < |s| && !('A' <= s[k] <= 'Z') ==> r[k] == s[k]
  {
    seq(|s|, k requires 0 <= k < |s| => if 'A' <= s[k] <= 'Z' then (s[k] as int + 32) as char else s[k])
  }

  /** Lower-casing twice is lower-casing once. */
  lemma ToLowerAsciiIdempotent(s: string)
    ensures ToLowerAscii(ToLowerAscii(s)) == ToLowerAscii(s)
  {
  }

  /** `s.split(sep)` for a one-character separator: the pieces between the
      separators, including empty ones; the empty string gives one empty piece. */
  function Split(s: string, sep: char): (r: seq<string>)
    ensures |r| >= 1
    decreases |s|
  {
    if |s| == 0 then [""]
    else
      var rest := Split(s[1..], sep);
      if s[0] == sep then [""] + rest else [[s[0]] + rest[0]] + rest[1..]
  }

  /** The pieces joined back together with the separator between them. */
  function Join(pieces: seq<string>, sep: char): string
  {
    if |pieces| == 0 then ""
    else if |pieces| == 1 then pieces[0]
    else pieces[0] + [sep] + Join(pieces[1..], sep)
  }

  /** No piece produced by `Split` contains the separator. */
  lemma {:induction false} SplitPiecesFree(s: string, sep: char)
    ensures forall p :: p in Split(s, sep) ==> sep !in p
    decreases |s|
  {
    if |s| > 0 {
      SplitPiecesFree(s[1..], sep);
      var rest := Split(s[1..], sep);
      if s[0] != sep {
        assert rest[0] in rest;
        forall p | p in rest[1..] ensures p in rest { }
      }
    }
  }

  /** Joining the pieces of a split gives back the original string. */
  lemma {:induction false} JoinSplit(s: string, sep: char)
    ensures Join(Split(s, sep), sep) == s
    decreases |s|
  {
    if |s| > 0 {
      JoinSplit(s[1..], sep);
      var rest := Split(s[1..], sep);
      if s[0] == sep {
        assert Split(s, sep) == [""] + rest;
      } else {
        var ps := Split(s, sep);
        assert ps[1..] == rest[1..];
        if |rest| == 1 {
          assert Join(ps, sep) == [s[0]] + rest[0];
        } else {
          assert Join(rest, sep) == rest[0] + [sep] + Join(rest[1..], sep);
          assert Join(ps, sep) == ([s[0]] + rest[0]) + [sep] + Join(rest[1..], sep);
        }
      }
    }
  }

  /** Splitting a join gives back the pieces when none of them contains the separator. */
  lemma {:induction false} SplitJoin(pieces: seq<string>, sep: char)
    requires |pieces| >= 1
    requires forall p :: p in pieces ==> sep !in p
    ensures Split(Join(pieces, sep), sep) == pieces
    decreases |pieces|
  {
    if |pieces| == 1 {
      SplitNoSep(pieces[0], sep);
    } else {
      forall p | p in pieces[1..] ensures sep !in p {
        assert p in pieces;
      }
      SplitJoin(pieces[1..], sep);
      SplitPrefix(pieces[0], Join(pieces[1..], sep), sep);
    }
  }

  /** A string without the separator splits into itself alone. */
  lemma {:induction false} SplitNoSep(s: string, sep: char)
    requires sep !in s
    ensures Split(s, sep) == [s]
    decreases |s|
  {
    if |s| > 0 {
      assert sep !in s[1..] by {
        forall k | 0 <= k < |s[1..]| ensures s[1..][k] != sep {
          assert s[1..][k] == s[k + 1];
        }
      }
      SplitNoSep(s[1..], sep);
      assert [s[0]] + s[1..] == s;
    }
  }

  /** Splitting `p + sep + t`, where `p` has no separator, gives `p` and then the pieces of `t`. */
  lemma {:induction false} SplitPrefix(p: string, t: string, sep: char)
    requires sep !in p
    ensures Split(p + [sep] + t, sep) == [p] + Split(t, sep)
    decreases |p|
  {
    if |p| == 0 {
      assert p + [sep] + t == [sep] + t;
      assert ([sep] + t)[1..] == t;
    } else {
      var s := p + [sep] + t;
      assert s[1..] == p[1..] + [sep] + t;
      assert sep !in p[1..] by {
        forall k | 0 <= k < |p[1..]| ensures p[1..][k] != sep {
          assert p[1..][k] == p[k + 1];
        }
      }
      SplitPrefix(p[1..], t, sep);
      assert [p[0]] + p[1..] == p;
    }
  }

  /** The decimal digit for `d`. */
  function DigitChar(d: nat): char
    requires d < 10
  {
    ('0' as int + d) as char
  }

  /** The decimal rendering of `n`, as a template literal `${n}` produces it. */
  function NatToString(n: nat): (r: string)
    ensures |r| >= 1
    ensures forall k :: 0 <= k < |r| ==> '0' <= r[k] <= '9'
  {
    if n < 10 then [DigitChar(n)] else NatToString(n / 10) + [DigitChar(n % 10)]
  }

  /** A single digit exactly for the numbers below ten. */
  lemma NatToStringLength(n: nat)
    ensures |NatToString(n)| == 1 <==> n < 10
  {
    if n >= 10 {
      assert |NatToString(n)| == |NatToString(n / 10)| + 1;
    }
  }

  /** Different numbers render differently, so slot `i` names only its own columns. */
  lemma {:induction false} NatToStringInjective(a: nat, b: nat)
    requires NatToString(a) == NatToString(b)
    ensures a == b
    decreases a
  {
    NatToStringLength(a);
    NatToStringLength(b);
    var r := NatToString(a);
    if |r| == 1 {
      assert r[0] == DigitChar(a) && r[0] == DigitChar(b);
    } else {
      var pa, pb := NatToString(a / 10), NatToString(b / 10);
      assert r == pa + [DigitChar(a % 10)];
      assert r == pb + [DigitChar(b % 10)];
      assert DigitChar(a % 10) == r[|r| - 1] == DigitChar(b % 10);
      assert pa == r[..|r| - 1] == pb;
      NatToStringInjective(a / 10, b / 10);
    }
  }
}
