/**
 * The Rust string operations the OBJ loader is built from: `str::replace` of
 * the backslash-newline continuation, `str::split` on one character,
 * `str::split_whitespace` and `usize::from_str`.
 */
module Strings {
  import opened Wrappers

  // ---------------------------------------------------------------------
  // Line continuations: code.replace("\\\n", " ")
  // ---------------------------------------------------------------------

  /** A backslash immediately followed by a newline starts at index `i`. */
  predicate ContinuationAt(s: string, i: nat) {
    i + 1 < |s| && s[i] == '\\' && s[i + 1] == '\n'
  }

  predicate NoContinuation(s: string) {
    forall i: nat :: i < |s| ==> !ContinuationAt(s, i)
  }

  /**
   * `s` with every backslash-newline pair replaced by one space, pairs being
   * matched from left to right without overlap, as `str::replace` does.
   */
  function JoinContinuations(s: string): (r: string)
    ensures |r| <= |s|
    ensures |s| > 0 ==> |r| > 0 && r[0] == (if ContinuationAt(s, 0) then ' ' else s[0])
  {
    if ContinuationAt(s, 0) then " " + JoinContinuations(s[2..])
    else if s == [] then []
    else [s[0]] + JoinContinuations(s[1..])
  }

  /** After the replacement no backslash-newline pair is left. */
  lemma {:induction false} ContinuationsJoined(s: string)
    ensures NoContinuation(JoinContinuations(s))
  {
    var r := JoinContinuations(s);
    if ContinuationAt(s, 0) {
      var t := JoinContinuations(s[2..]);
      ContinuationsJoined(s[2..]);
      forall i: nat | i < |r| ensures !ContinuationAt(r, i) {
        if i > 0 { assert ContinuationAt(r, i) == ContinuationAt(t, i - 1); }
      }
    } else if s != [] {
      var t := JoinContinuations(s[1..]);
      ContinuationsJoined(s[1..]);
      forall i: nat | i < |r| ensures !ContinuationAt(r, i) {
        if i > 0 { assert ContinuationAt(r, i) == ContinuationAt(t, i - 1); }
      }
    }
  }

  /**
   * A backslash-newline pair anywhere in the text becomes exactly one space,
   * and the text on either side of it is processed on its own.
   */
  lemma {:induction false} PairBecomesSpace(a: string, b: string)
    ensures JoinContinuations(a + ['\\', '\n'] + b) == JoinContinuations(a) + " " + JoinContinuations(b)
  {
    var s := a + ['\\', '\n'] + b;
    if a == [] {
      assert s == ['\\', '\n'] + b && ContinuationAt(s, 0) && s[2..] == b;
    } else if ContinuationAt(a, 0) {
      assert ContinuationAt(s, 0);
      assert s[2..] == a[2..] + ['\\', '\n'] + b;
      PairBecomesSpace(a[2..], b);
    } else {
      assert !ContinuationAt(s, 0) by {
        if |a| == 1 { assert s[1] == '\\'; } else { assert s[1] == a[1]; }
      }
      assert s[1..] == a[1..] + ['\\', '\n'] + b;
      PairBecomesSpace(a[1..], b);
    }
  }

  /** Text without continuations passes through unchanged. */
  lemma {:induction false} NoContinuationUnchanged(s: string)
    requires NoContinuation(s)
    ensures JoinContinuations(s) == s
  {
    if s != [] {
      assert !ContinuationAt(s, 0);
      assert NoContinuation(s[1..]) by {
        forall i: nat | i < |s[1..]| ensures !ContinuationAt(s[1..], i) {
          assert ContinuationAt(s[1..], i) == ContinuationAt(s, i + 1);
        }
      }
      NoContinuationUnchanged(s[1..]);
    }
  }

  // ---------------------------------------------------------------------
  // str::split(sep) and its inverse
  // ---------------------------------------------------------------------

  /** The pieces of `s` between occurrences of `sep`; there is always at least one. */
  function Split(s: string, sep: char): (r: seq<string>)
    ensures |r| >= 1
  {
    if s == [] then [[]]
    else
      var rest := Split(s[1..], sep);
      if s[0] == sep then [[]] + rest else [[s[0]] + rest[0]] + rest[1..]
  }

  /** The pieces glued back together with `sep` between neighbours. */
  function Join(parts: seq<string>, sep: char): string
    requires |parts| >= 1
  {
    if |parts| == 1 then parts[0] else parts[0] + [sep] + Join(parts[1..], sep)
  }

  /** Splitting loses nothing: joining the pieces gives the text back. */
  lemma {:induction false} JoinSplit(s: string, sep: char)
    ensures Join(Split(s, sep), sep) == s
  {
    if s != [] {
      var rest := Split(s[1..], sep);
      JoinSplit(s[1..], sep);
      if s[0] != sep {
        if |rest| > 1 {
          assert Join(Split(s, sep), sep) == [s[0]] + rest[0] + [sep] + Join(rest[1..], sep);
        }
      }
    }
  }

  /** No piece contains the separator. */
  lemma {:induction false} SplitPiecesFree(s: string, sep: char)
    ensures forall k :: 0 <= k < |Split(s, sep)| ==> sep !in Split(s, sep)[k]
  {
    if s != [] {
      SplitPiecesFree(s[1..], sep);
    }
  }

  /** Splitting a piece that holds no separator gives that piece alone. */
  lemma {:induction false} SplitFree(a: string, sep: char)
    requires sep !in a
    ensures Split(a, sep) == [a]
  {
    if a != [] {
      assert a[0] != sep && [a[0]] + a[1..] == a;
      SplitFree(a[1..], sep);
    }
  }

  lemma {:induction false} SplitAfterPiece(a: string, b: string, sep: char)
    requires sep !in a
    ensures Split(a + [sep] + b, sep) == [a] + Split(b, sep)
  {
    if a == [] {
      assert a + [sep] + b == [sep] + b;
      assert ([sep] + b)[1..] == b;
    } else {
      assert (a + [sep] + b)[1..] == a[1..] + [sep] + b;
      assert a[0] != sep && [a[0]] + a[1..] == a;
      SplitAfterPiece(a[1..], b, sep);
    }
  }

  /** Joining separator-free pieces and splitting again gives the pieces back. */
  lemma {:induction false} SplitJoin(parts: seq<string>, sep: char)
    requires |parts| >= 1
    requires forall k :: 0 <= k < |parts| ==> sep !in parts[k]
    ensures Split(Join(parts, sep), sep) == parts
  {
    if |parts| == 1 {
      SplitFree(parts[0], sep);
    } else {
      SplitJoin(parts[1..], sep);
      SplitAfterPiece(parts[0], Join(parts[1..], sep), sep);
    }
  }

  // ---------------------------------------------------------------------
  // str::split_whitespace
  // ---------------------------------------------------------------------

  /** `char::is_whitespace`: the Unicode White_Space property. */
  predicate IsWhitespace(c: char) {
    ('\t' <= c <= '\r') || c == ' ' || c == '\U{0085}' || c == '\U{00A0}' || c == '\U{1680}'
    || ('\U{2000}' <= c <= '\U{200A}') || c == '\U{2028}' || c == '\U{2029}' || c == '\U{202F}'
    || c == '\U{205F}' || c == '\U{3000}'
  }

  /** A token: a non-empty run of non-whitespace characters. */
  predicate IsWord(t: string) {
    |t| > 0 && forall i :: 0 <= i < |t| ==> !IsWhitespace(t[i])
  }

  /** The maximal non-whitespace runs of `s`, in order. */
  function Tokens(s: string): (r: seq<string>)
    ensures forall k :: 0 <= k < |r| ==> IsWord(r[k])
    ensures |s| > 0 && !IsWhitespace(s[0]) ==> |r| > 0 && |r[0]| > 0 && r[0][0] == s[0]
  {
    if s == [] then []
    else
      var rest := Tokens(s[1..]);
      if IsWhitespace(s[0]) then rest
      else if |s| > 1 && !IsWhitespace(s[1]) then [[s[0]] + rest[0]] + rest[1..]
      else [[s[0]]] + rest
  }

  function Concat(ts: seq<string>): string {
    if ts == [] then [] else ts[0] + Concat(ts[1..])
  }

  /** The characters of `s` that are not whitespace, in order. */
  function Visible(s: string): string {
    if s == [] then [] else (if IsWhitespace(s[0]) then [] else [s[0]]) + Visible(s[1..])
  }

  /** Tokenising drops exactly the whitespace: the tokens spell out the visible text. */
  lemma {:induction false} TokensSpellVisible(s: string)
    ensures Concat(Tokens(s)) == Visible(s)
  {
    if s != [] {
      var rest := Tokens(s[1..]);
      TokensSpellVisible(s[1..]);
      if !IsWhitespace(s[0]) && |s| > 1 && !IsWhitespace(s[1]) {
        assert Concat(Tokens(s)) == [s[0]] + rest[0] + Concat(rest[1..]);
      }
    }
  }

  /** A word followed by a space and more text yields that word first. */
  lemma {:induction false} TokensAfterWord(w: string, t: string)
    requires IsWord(w)
    ensures Tokens(w + [' '] + t) == [w] + Tokens(t)
  {
    var s := w + [' '] + t;
    assert s[1..] == w[1..] + [' '] + t;
    if |w| == 1 {
      assert s[1..] == [' '] + t;
      assert ([' '] + t)[1..] == t;
      assert [s[0]] == w;
    } else {
      TokensAfterWord(w[1..], t);
      assert [s[0]] + w[1..] == w;
    }
  }

  lemma {:induction false} TokensOfWord(w: string)
    requires IsWord(w)
    ensures Tokens(w) == [w]
  {
    if |w| > 1 {
      TokensOfWord(w[1..]);
      assert [w[0]] + w[1..] == w;
    } else {
      assert [w[0]] == w;
    }
  }

  /** Words joined with single spaces tokenise back into the same words. */
  lemma {:induction false} TokensOfSpacedWords(words: seq<string>)
    requires |words| >= 1
    requires forall k :: 0 <= k < |words| ==> IsWord(words[k])
    ensures Tokens(Join(words, ' ')) == words
  {
    if |words| == 1 {
      TokensOfWord(words[0]);
    } else {
      TokensOfSpacedWords(words[1..]);
      TokensAfterWord(words[0], Join(words[1..], ' '));
    }
  }

  // ---------------------------------------------------------------------
  // usize::from_str on a 64-bit target
  // ---------------------------------------------------------------------

  const USIZE_MAX: nat := 0xFFFF_FFFF_FFFF_FFFF

  predicate IsDigit(c: char) {
    '0' <= c <= '9'
  }

  predicate AllDigits(t: string) {
    forall i :: 0 <= i < |t| ==> IsDigit(t[i])
  }

  /** The value of a decimal numeral, most significant digit first. */
  function DigitsValue(t: string): nat
    requires AllDigits(t)
  {
    if t == [] then 0 else 10 * DigitsValue(t[..|t| - 1]) + (t[|t| - 1] as int - '0' as int)
  }

  /**
   * `usize::from_str`: an optional `+`, then one or more ASCII digits whose
   * value fits in 64 bits; anything else (empty, a lone `+`, a sign `-`,
   * another character, an overflow) is an error.
   */
  function ParseUsize(t: string): (r: Option<nat>)
    ensures r.Some? ==> r.value <= USIZE_MAX
    ensures r.Some? ==> |t| > 0 && (IsDigit(t[0]) || t[0] == '+')
  {
    var digits := if |t| > 1 && t[0] == '+' then t[1..] else t;
    if digits != [] && AllDigits(digits) && DigitsValue(digits) <= USIZE_MAX
    then Some(DigitsValue(digits))
    else None
  }

  /** The shortest decimal numeral of `n`. */
  function Decimal(n: nat): (r: string)
    ensures |r| > 0 && AllDigits(r)
  {
    var last := ('0' as int + n % 10) as char;
    if n < 10 then [last] else Decimal(n / 10) + [last]
  }

  lemma {:induction false} DecimalValue(n: nat)
    ensures DigitsValue(Decimal(n)) == n
  {
    if n >= 10 {
      var d := Decimal(n);
      assert d[..|d| - 1] == Decimal(n / 10);
      DecimalValue(n / 10);
    }
  }

  /** Every index a file can hold is read back by the parser, with or without a `+`. */
  lemma ParseDecimal(n: nat)
    requires n <= USIZE_MAX
    ensures ParseUsize(Decimal(n)) == Some(n)
    ensures ParseUsize("+" + Decimal(n)) == Some(n)
  {
    DecimalValue(n);
    assert ("+" + Decimal(n))[1..] == Decimal(n);
  }
}
