/**
 * The pieces of Python's `str` that the filter parser relies on:
 * `isspace`, `strip()`, `split()` with no separator and `isdigit()`.
 */
module PyText {

  /** Python's `str.isspace` for one character: the ASCII controls \t \n \v \f \r,
      the separators \x1c..\x1f, the space, NEL, NBSP and the Unicode space characters. */
  predicate IsSpace(c: char) {
    || c == ' ' || ('\t' <= c <= '\r')
    || ('\U{1C}' <= c <= '\U{1F}')
    || c == '\U{85}' || c == '\U{A0}' || c == '\U{1680}'
    || ('\U{2000}' <= c <= '\U{200A}')
    || c == '\U{2028}' || c == '\U{2029}' || c == '\U{202F}' || c == '\U{205F}' || c == '\U{3000}'
  }

  ghost predicate AllSpace(s: string) {
    forall k :: 0 <= k < |s| ==> IsSpace(s[k])
  }

  ghost predicate NoSpace(s: string) {
    forall k :: 0 <= k < |s| ==> !IsSpace(s[k])
  }

  /** `s.lstrip()`. */
  function TrimStart(s: string): string {
    if s != [] && IsSpace(s[0]) then TrimStart(s[1..]) else s
  }

  /** `s.rstrip()`. */
  function TrimEnd(s: string): string {
    if s != [] && IsSpace(s[|s| - 1]) then TrimEnd(s[..|s| - 1]) else s
  }

  /** `s.strip()`. */
  function Strip(s: string): string {
    TrimEnd(TrimStart(s))
  }

  /** Length of the run of non-whitespace characters that `s` starts with. */
  function WordLength(s: string): (n: nat)
    ensures n <= |s| && NoSpace(s[..n])
    ensures n < |s| ==> IsSpace(s[n])
  {
    if s == [] || IsSpace(s[0]) then 0 else 1 + WordLength(s[1..])
  }

  /** `s.split()`: the maximal runs of non-whitespace characters, in order. */
  function Tokens(s: string): (ts: seq<string>)
    ensures forall k :: 0 <= k < |ts| ==> ts[k] != [] && NoSpace(ts[k])
    decreases |s|
  {
    if s == [] then []
    else if IsSpace(s[0]) then Tokens(s[1..])
    else
      var n := WordLength(s);
      [s[..n]] + Tokens(s[n..])
  }

  /** The characters of `s` that are not whitespace, in order. */
  function NonSpace(s: string): string {
    if s == [] then []
    else if IsSpace(s[0]) then NonSpace(s[1..])
    else [s[0]] + NonSpace(s[1..])
  }

  function Concat(ts: seq<string>): string {
    if ts == [] then [] else ts[0] + Concat(ts[1..])
  }

  /** `" ".join(ts)`. */
  function Join(ts: seq<string>): string {
    if ts == [] then []
    else if |ts| == 1 then ts[0]
    else ts[0] + " " + Join(ts[1..])
  }

  /** `s.isdigit()`, restricted to the ASCII digits: non-empty and digits only. */
  predicate IsDigits(s: string) {
    |s| > 0 && forall k :: 0 <= k < |s| ==> '0' <= s[k] <= '9'
  }

  /** The number a string of decimal digits denotes (leading zeros allowed). */
  function DigitsValue(s: string): nat
    requires forall k :: 0 <= k < |s| ==> '0' <= s[k] <= '9'
  {
    if s == [] then 0
    else 10 * DigitsValue(s[..|s| - 1]) + (s[|s| - 1] as int - '0' as int)
  }

  /** `str(n)` for a natural number: its shortest decimal representation. */
  function ShowNat(n: nat): (s: string)
    ensures IsDigits(s)
  {
    var d := ['0' + (n % 10) as char];
    if n < 10 then d else ShowNat(n / 10) + d
  }

  // ---------------------------------------------------------------------------
  // What `split()` produces

  /** A string has no tokens exactly when it is empty or whitespace only. */
  lemma {:induction false} TokensEmptyIffAllSpace(s: string)
    ensures Tokens(s) == [] <==> AllSpace(s)
    decreases |s|
  {
    if s == [] {
    } else if IsSpace(s[0]) {
      TokensEmptyIffAllSpace(s[1..]);
      if AllSpace(s[1..]) {
        forall k | 0 <= k < |s| ensures IsSpace(s[k]) {
          if k > 0 { assert s[k] == s[1..][k - 1]; }
        }
      }
    } else {
      assert !AllSpace(s);
    }
  }

  lemma {:induction false} NonSpaceAppend(a: string, b: string)
    ensures NonSpace(a + b) == NonSpace(a) + NonSpace(b)
  {
    if a == [] {
      assert a + b == b;
    } else {
      assert (a + b)[0] == a[0];
      assert (a + b)[1..] == a[1..] + b;
      NonSpaceAppend(a[1..], b);
    }
  }

  lemma {:induction false} NonSpaceOfWord(w: string)
    requires NoSpace(w)
    ensures NonSpace(w) == w
  {
    if w != [] {
      NonSpaceOfWord(w[1..]);
    }
  }

  /** The tokens, concatenated, are exactly the non-whitespace characters of the input:
      splitting loses only whitespace and keeps every other character in order. */
  lemma {:induction false} TokensKeepText(s: string)
    ensures Concat(Tokens(s)) == NonSpace(s)
    decreases |s|
  {
    if s == [] {
    } else if IsSpace(s[0]) {
      TokensKeepText(s[1..]);
    } else {
      var n := WordLength(s);
      TokensKeepText(s[n..]);
      assert s == s[..n] + s[n..];
      NonSpaceAppend(s[..n], s[n..]);
      NonSpaceOfWord(s[..n]);
      var ts := Tokens(s);
      assert ts == [s[..n]] + Tokens(s[n..]);
      assert ts[1..] == Tokens(s[n..]);
    }
  }

  lemma {:induction false} WordLengthOfWordThenSpace(w: string, rest: string)
    requires NoSpace(w)
    requires rest == [] || IsSpace(rest[0])
    ensures WordLength(w + rest) == |w|
    decreases |w|
  {
    if w != [] {
      assert (w + rest)[1..] == w[1..] + rest;
      WordLengthOfWordThenSpace(w[1..], rest);
    }
  }

  /** Splitting a single-space join of well-formed tokens gives the tokens back. */
  lemma {:induction false} TokensOfJoin(ts: seq<string>)
    requires forall k :: 0 <= k < |ts| ==> ts[k] != [] && NoSpace(ts[k])
    ensures Tokens(Join(ts)) == ts
    decreases |ts|
  {
    if ts == [] {
    } else if |ts| == 1 {
      var w := ts[0];
      WordLengthOfWordThenSpace(w, []);
      assert w + [] == w;
      assert w[|w|..] == [];
    } else {
      var w := ts[0];
      var rest := " " + Join(ts[1..]);
      var s := Join(ts);
      assert s == w + rest;
      WordLengthOfWordThenSpace(w, rest);
      assert s[..|w|] == w;
      assert s[|w|..] == rest;
      TokensOfJoin(ts[1..]);
      assert rest[1..] == Join(ts[1..]);
    }
  }

  /** Leading whitespace does not change the tokens. */
  lemma {:induction false} TokensSkipLeading(w: string, s: string)
    requires AllSpace(w)
    ensures Tokens(w + s) == Tokens(s)
    decreases |w|
  {
    if w == [] {
      assert w + s == s;
    } else {
      assert (w + s)[0] == w[0];
      assert (w + s)[1..] == w[1..] + s;
      TokensSkipLeading(w[1..], s);
    }
  }

  /** Trailing whitespace does not change the tokens. */
  lemma {:induction false} TokensSkipTrailing(s: string, w: string)
    requires AllSpace(w)
    ensures Tokens(s + w) == Tokens(s)
    decreases |s|
  {
    if s == [] {
      assert s + w == w;
      TokensEmptyIffAllSpace(w);
    } else if IsSpace(s[0]) {
      assert (s + w)[1..] == s[1..] + w;
      TokensSkipTrailing(s[1..], w);
    } else {
      var n := WordLength(s);
      var m := WordLength(s + w);
      if n < |s| {
        WordLengthOfWordThenSpace(s[..n], s[n..] + w);
        assert s + w == s[..n] + (s[n..] + w);
      } else {
        assert s[..n] == s;
        WordLengthOfWordThenSpace(s, w);
      }
      assert m == n;
      assert (s + w)[..n] == s[..n];
      assert (s + w)[n..] == s[n..] + w;
      TokensSkipTrailing(s[n..], w);
    }
  }

  /** A whitespace character separates tokens: the tokens of a text cut at any whitespace
      character are the tokens of the part before it followed by those of the part after it. */
  lemma {:induction false} TokensSplitAtSpace(a: string, c: char, b: string)
    requires IsSpace(c)
    ensures Tokens(a + [c] + b) == Tokens(a) + Tokens(b)
    decreases |a|
  {
    var x := [c] + b;
    assert a + [c] + b == a + x;
    if a == [] {
      assert a + x == x;
      assert x[1..] == b;
    } else if IsSpace(a[0]) {
      assert (a + x)[1..] == a[1..] + [c] + b;
      TokensSplitAtSpace(a[1..], c, b);
    } else {
      var n := WordLength(a);
      if n < |a| {
        WordLengthOfWordThenSpace(a[..n], a[n..] + x);
        assert a + x == a[..n] + (a[n..] + x);
      } else {
        assert a[..n] == a;
        WordLengthOfWordThenSpace(a, x);
      }
      assert (a + x)[..n] == a[..n];
      assert (a + x)[n..] == a[n..] + [c] + b;
      TokensSplitAtSpace(a[n..], c, b);
      assert Tokens(a) == [a[..n]] + Tokens(a[n..]);
    }
  }

  /** `lstrip` removes exactly the leading whitespace: what it drops is whitespace, and what
      it keeps is a suffix that is empty or starts with a non-whitespace character. */
  lemma {:induction false} TrimStartSpec(s: string)
    ensures |TrimStart(s)| <= |s| && TrimStart(s) == s[|s| - |TrimStart(s)|..]
    ensures AllSpace(s[..|s| - |TrimStart(s)|])
    ensures TrimStart(s) == [] || !IsSpace(TrimStart(s)[0])
    decreases |s|
  {
    if s != [] && IsSpace(s[0]) {
      TrimStartSpec(s[1..]);
      var r := TrimStart(s);
      forall k | 0 <= k < |s| - |r| ensures IsSpace(s[k]) {
        if k > 0 { assert s[k] == s[1..][..|s| - 1 - |r|][k - 1]; }
      }
    }
  }

  /** `rstrip` removes exactly the trailing whitespace. */
  lemma {:induction false} TrimEndSpec(s: string)
    ensures |TrimEnd(s)| <= |s| && TrimEnd(s) == s[..|TrimEnd(s)|]
    ensures AllSpace(s[|TrimEnd(s)|..])
    ensures TrimEnd(s) == [] || !IsSpace(TrimEnd(s)[|TrimEnd(s)| - 1])
    decreases |s|
  {
    if s != [] && IsSpace(s[|s| - 1]) {
      var t := s[..|s| - 1];
      TrimEndSpec(t);
      var r := TrimEnd(s);
      forall k | |r| <= k < |s| ensures IsSpace(s[k]) {
        if k < |s| - 1 { assert s[k] == t[|r|..][k - |r|]; }
      }
    }
  }

  /** `strip` cuts `s` into leading whitespace, the stripped text and trailing whitespace; the
      stripped text neither starts nor ends with whitespace. */
  lemma StripSpec(s: string)
    ensures exists i, j :: 0 <= i <= j <= |s| && Strip(s) == s[i..j] && AllSpace(s[..i]) && AllSpace(s[j..])
    ensures Strip(s) == [] || (!IsSpace(Strip(s)[0]) && !IsSpace(Strip(s)[|Strip(s)| - 1]))
  {
    var t := TrimStart(s);
    TrimStartSpec(s);
    TrimEndSpec(t);
    var r := TrimEnd(t);
    var i := |s| - |t|;
    assert r == s[i..i + |r|];
    assert s[i + |r|..] == t[|r|..];
    if r != [] {
      assert r[0] == t[0];
    }
  }

  /** `text.strip().split()` is `text.split()`: the strip is redundant. */
  lemma TokensOfStrip(s: string)
    ensures Tokens(Strip(s)) == Tokens(s)
  {
    StripSpec(s);
    var i, j :| 0 <= i <= j <= |s| && Strip(s) == s[i..j] && AllSpace(s[..i]) && AllSpace(s[j..]);
    var lead, mid, trail := s[..i], s[i..j], s[j..];
    assert s == lead + (mid + trail);
    TokensSkipLeading(lead, mid + trail);
    TokensSkipTrailing(mid, trail);
    calc {
      Tokens(Strip(s));
      Tokens(mid);
      Tokens(mid + trail);
      Tokens(s);
    }
  }

  // ---------------------------------------------------------------------------
  // What `isdigit()` and the number conversion accept

  lemma {:induction false} DigitsValueAppend(s: string, d: char)
    requires IsDigits(s) && '0' <= d <= '9'
    ensures IsDigits(s + [d])
    ensures DigitsValue(s + [d]) == 10 * DigitsValue(s) + (d as int - '0' as int)
  {
    assert (s + [d])[..|s|] == s;
  }

  /** Reading back the decimal representation of `n` gives `n`. */
  lemma {:induction false} DigitsValueOfShowNat(n: nat)
    ensures DigitsValue(ShowNat(n)) == n
    decreases n
  {
    var d := '0' + (n % 10) as char;
    if n >= 10 {
      DigitsValueOfShowNat(n / 10);
      DigitsValueAppend(ShowNat(n / 10), d);
    }
  }
}
