/**
 * The string helpers the hit builders rely on: .NET's decimal rendering of
 * integers (Int32.ToString and the int overload of WWWForm.AddField), and the
 * three steps of WebMakeStringSafe (Replace, Replace, Trim).
 */
module Text {

  datatype Option<T> = None | Some(value: T)

  // ---------------------------------------------------------------------
  // Decimal rendering and its inverse

  predicate IsDigit(c: char) { '0' <= c <= '9' }

  predicate AllDigits(s: string) { forall i :: 0 <= i < |s| ==> IsDigit(s[i]) }

  function DigitChar(d: nat): (c: char)
    requires d < 10
    ensures IsDigit(c) && c as int - '0' as int == d
  {
    ('0' as int + d) as char
  }

  /** The value of a string of decimal digits, most significant first. */
  function DigitsValue(s: string): nat
    requires AllDigits(s)
  {
    if s == [] then 0
    else DigitsValue(s[..|s| - 1]) * 10 + (s[|s| - 1] as int - '0' as int)
  }

  /** Decimal rendering of a natural number without leading zeros. */
  function NatToDecimal(n: nat): (s: string)
    ensures |s| >= 1 && AllDigits(s)
    ensures s[0] == '0' ==> s == "0"
    ensures s[0] == '0' <==> n == 0
  {
    if n < 10 then [DigitChar(n)] else NatToDecimal(n / 10) + [DigitChar(n % 10)]
  }

  /** Decimal rendering of an integer, with a leading '-' when negative. */
  function IntToDecimal(i: int): (s: string)
    ensures |s| >= 1
    ensures s[0] == '-' <==> i < 0
    ensures i >= 0 ==> AllDigits(s)
    ensures s[0] == '0' ==> s == "0"
    ensures i < 0 ==> |s| >= 2 && s[1] != '0'
  {
    if i < 0 then "-" + NatToDecimal(-i) else NatToDecimal(i)
  }

  /** Reads back what IntToDecimal writes; None for anything else. */
  function ParseDecimal(s: string): (r: Option<int>)
    ensures r.Some? ==> |s| >= 1 && (r.value < 0 ==> s[0] == '-')
  {
    if |s| >= 2 && s[0] == '-' && AllDigits(s[1..]) then
      var v: int := DigitsValue(s[1..]);
      Some(-v)
    else if |s| >= 1 && AllDigits(s) then
      var v: int := DigitsValue(s);
      Some(v)
    else None
  }

  lemma {:induction false} NatToDecimalRoundTrip(n: nat)
    ensures DigitsValue(NatToDecimal(n)) == n
  {
    var s := NatToDecimal(n);
    if n < 10 {
      assert s[..|s| - 1] == [];
    } else {
      NatToDecimalRoundTrip(n / 10);
      assert s[..|s| - 1] == NatToDecimal(n / 10);
    }
  }

  lemma IntToDecimalRoundTrip(i: int)
    ensures ParseDecimal(IntToDecimal(i)) == Some(i)
  {
    var s := IntToDecimal(i);
    if i < 0 {
      assert s[1..] == NatToDecimal(-i);
      NatToDecimalRoundTrip(-i);
    } else {
      NatToDecimalRoundTrip(i);
    }
  }

  /** Distinct integers render to distinct strings. */
  lemma IntToDecimalInjective(a: int, b: int)
    ensures IntToDecimal(a) == IntToDecimal(b) ==> a == b
  {
    IntToDecimalRoundTrip(a);
    IntToDecimalRoundTrip(b);
  }

  /** Distinct integers give distinct names under one common prefix ("cd", "cm"). */
  lemma PrefixedDecimalInjective(prefix: string, a: int, b: int)
    ensures prefix + IntToDecimal(a) == prefix + IntToDecimal(b) ==> a == b
  {
    if prefix + IntToDecimal(a) == prefix + IntToDecimal(b) {
      assert IntToDecimal(a) == (prefix + IntToDecimal(a))[|prefix|..];
      assert IntToDecimal(b) == (prefix + IntToDecimal(b))[|prefix|..];
      IntToDecimalInjective(a, b);
    }
  }

  // ---------------------------------------------------------------------
  // White space and trimming, as .NET 4 Char.IsWhiteSpace and String.Trim

  /** The characters Char.IsWhiteSpace accepts: U+0009..U+000D, U+0085 and
      the space, line and paragraph separators of Unicode. */
  predicate IsWhiteSpace(c: char) {
    || c == ' '
    || ('\t' <= c <= '\r')
    || c == '\U{0085}'
    || c == '\U{00A0}'
    || c == '\U{1680}'
    || ('\U{2000}' <= c <= '\U{200A}')
    || c == '\U{2028}'
    || c == '\U{2029}'
    || c == '\U{202F}'
    || c == '\U{205F}'
    || c == '\U{3000}'
  }

  function TrimStart(s: string): (r: string)
    ensures |r| <= |s| && r == s[|s| - |r|..]
    ensures forall i :: 0 <= i < |s| - |r| ==> IsWhiteSpace(s[i])
    ensures r == [] || !IsWhiteSpace(r[0])
  {
    if s != [] && IsWhiteSpace(s[0]) then TrimStart(s[1..]) else s
  }

  function TrimEnd(s: string): (r: string)
    ensures |r| <= |s| && r == s[..|r|]
    ensures forall i :: |r| <= i < |s| ==> IsWhiteSpace(s[i])
    ensures r == [] || !IsWhiteSpace(r[|r| - 1])
  {
    if s != [] && IsWhiteSpace(s[|s| - 1]) then TrimEnd(s[..|s| - 1]) else s
  }

  function Trim(s: string): (r: string)
    ensures forall c :: c in r ==> c in s
    ensures r == [] || (!IsWhiteSpace(r[0]) && !IsWhiteSpace(r[|r| - 1]))
  {
    TrimEnd(TrimStart(s))
  }

  /** Trim removes white space at both ends and nothing else: the result is
      the infix s[i..j], and everything outside it is white space. */
  lemma {:induction false} TrimRemovesOnlyOuterWhiteSpace(s: string) returns (i: nat, j: nat)
    ensures i <= j <= |s| && Trim(s) == s[i..j]
    ensures forall k :: 0 <= k < i ==> IsWhiteSpace(s[k])
    ensures forall k :: j <= k < |s| ==> IsWhiteSpace(s[k])
  {
    var t := TrimStart(s);
    i := |s| - |t|;
    j := TrimEndOfSuffix(s, i);
  }

  /** Trimming the end of the suffix s[i..] leaves s[i..j], with only white
      space after j. */
  lemma TrimEndOfSuffix(s: string, i: nat) returns (j: nat)
    requires i <= |s|
    ensures i <= j <= |s| && TrimEnd(s[i..]) == s[i..j]
    ensures forall k :: j <= k < |s| ==> IsWhiteSpace(s[k])
  {
    var t := s[i..];
    var r := TrimEnd(t);
    j := i + |r|;
    assert r == t[..|r|] == s[i..j];
    forall k | j <= k < |s| ensures IsWhiteSpace(s[k]) {
      assert s[k] == t[k - i];
    }
  }

  // ---------------------------------------------------------------------
  // Character removal and replacement (String.Replace with a one-character
  // pattern)

  /** `s` with every occurrence of `c` replaced by `rep`. */
  function ReplaceChar(s: string, c: char, rep: string): (r: string)
    ensures c !in rep ==> c !in r
  {
    if s == [] then []
    else ReplaceChar(s[..|s| - 1], c, rep) + (if s[|s| - 1] == c then rep else [s[|s| - 1]])
  }

  /** Replacing a character by itself changes nothing. */
  lemma {:induction false} ReplaceCharBySelf(s: string, c: char)
    ensures ReplaceChar(s, c, [c]) == s
  {
    if s != [] {
      ReplaceCharBySelf(s[..|s| - 1], c);
      assert s == s[..|s| - 1] + [s[|s| - 1]];
    }
  }

  /** Replacing a character that does not occur changes nothing. */
  lemma {:induction false} ReplaceCharAbsent(s: string, c: char, rep: string)
    requires c !in s
    ensures ReplaceChar(s, c, rep) == s
  {
    if s != [] {
      assert s == s[..|s| - 1] + [s[|s| - 1]];
      ReplaceCharAbsent(s[..|s| - 1], c, rep);
    }
  }

  /** Replacement works piece by piece: it distributes over concatenation. */
  lemma {:induction false} ReplaceCharAppend(a: string, b: string, c: char, rep: string)
    ensures ReplaceChar(a + b, c, rep) == ReplaceChar(a, c, rep) + ReplaceChar(b, c, rep)
    decreases |b|
  {
    if b == [] {
      assert a + b == a;
    } else {
      var b' := b[..|b| - 1];
      assert (a + b)[..|a + b| - 1] == a + b';
      assert (a + b)[|a + b| - 1] == b[|b| - 1];
      ReplaceCharAppend(a, b', c, rep);
    }
  }

  /** `s` with every occurrence of `c` removed, the rest kept in order. */
  function RemoveChar(s: string, c: char): (r: string)
    ensures forall x :: x in r <==> x in s && x != c
  {
    if s == [] then []
    else
      var r := RemoveChar(s[..|s| - 1], c);
      assert s == s[..|s| - 1] + [s[|s| - 1]];
      r + (if s[|s| - 1] == c then [] else [s[|s| - 1]])
  }

  /** Removal from a single character: it goes if it is `c`, and stays
      otherwise. With RemoveCharAppend this fixes RemoveChar on every text,
      order and repetitions included. */
  lemma RemoveCharOne(x: char, c: char)
    ensures RemoveChar([x], c) == if x == c then [] else [x]
  {
    assert [x][..0] == [];
  }

  /** Removal keeps every other character as often as it occurs. */
  lemma {:induction false} RemoveCharCounts(s: string, c: char)
    ensures multiset(RemoveChar(s, c)) == multiset(s)[c := 0]
  {
    if s != [] {
      var s', x := s[..|s| - 1], s[|s| - 1];
      assert s == s' + [x];
      RemoveCharCounts(s', c);
    }
  }

  /** Removal works piece by piece: it distributes over concatenation. */
  lemma {:induction false} RemoveCharAppend(a: string, b: string, c: char)
    ensures RemoveChar(a + b, c) == RemoveChar(a, c) + RemoveChar(b, c)
    decreases |b|
  {
    if b == [] {
      assert a + b == a;
    } else {
      var b' := b[..|b| - 1];
      assert (a + b)[..|a + b| - 1] == a + b';
      assert (a + b)[|a + b| - 1] == b[|b| - 1];
      RemoveCharAppend(a, b', c);
    }
  }

  /** A single quote at position `i` of `s` is preceded by a backslash. */
  predicate EscapedAt(s: string, i: nat)
    requires i < |s|
  {
    s[i] == '\'' ==> 0 < i && s[i - 1] == '\\'
  }

  /** Every single quote in `s` is preceded by a backslash. */
  predicate QuotesEscaped(s: string) {
    forall i :: 0 <= i < |s| ==> EscapedAt(s, i)
  }

  /** Appending a character keeps quotes escaped, provided an appended quote
      follows a backslash. */
  lemma EscapedSnoc(a: string, x: char)
    requires QuotesEscaped(a)
    requires x == '\'' ==> a != [] && a[|a| - 1] == '\\'
    ensures QuotesEscaped(a + [x])
  {
    var r := a + [x];
    forall i | 0 <= i < |r| ensures EscapedAt(r, i) {
      if i < |a| {
        assert EscapedAt(a, i);
        assert r[i] == a[i];
        if 0 < i {
          assert r[i - 1] == a[i - 1];
        }
      }
    }
  }

  lemma {:induction false} ReplaceQuoteEscapes(s: string)
    ensures QuotesEscaped(ReplaceChar(s, '\'', "\\'"))
  {
    if s != [] {
      var s' := s[..|s| - 1];
      var p := ReplaceChar(s', '\'', "\\'");
      ReplaceQuoteEscapes(s');
      if s[|s| - 1] == '\'' {
        EscapedSnoc(p, '\\');
        EscapedSnoc(p + ['\\'], '\'');
        assert p + "\\'" == p + ['\\'] + ['\''];
      } else {
        EscapedSnoc(p, s[|s| - 1]);
      }
    }
  }

  lemma {:induction false} RemoveCharKeepsEscapes(s: string, c: char)
    requires QuotesEscaped(s) && c != '\\' && c != '\''
    ensures QuotesEscaped(RemoveChar(s, c))
  {
    if s != [] {
      var s' := s[..|s| - 1];
      assert QuotesEscaped(s') by {
        forall i | 0 <= i < |s'| ensures EscapedAt(s', i) {
          assert EscapedAt(s, i);
          assert s[i] == s'[i];
          if 0 < i {
            assert s[i - 1] == s'[i - 1];
          }
        }
      }
      RemoveCharKeepsEscapes(s', c);
      var x := s[|s| - 1];
      if x == c {
        assert RemoveChar(s, c) == RemoveChar(s', c);
      } else {
        assert RemoveChar(s, c) == RemoveChar(s', c) + [x];
        if x == '\'' {
          assert EscapedAt(s, |s| - 1);
          RemoveCharEndsWith(s', c);
        }
        EscapedSnoc(RemoveChar(s', c), x);
      }
    }
  }

  lemma {:induction false} RemoveCharEndsWith(s: string, c: char)
    requires s != [] && s[|s| - 1] != c
    ensures var r := RemoveChar(s, c); r != [] && r[|r| - 1] == s[|s| - 1]
  {
  }

  lemma TrimKeepsEscapes(s: string)
    requires QuotesEscaped(s)
    ensures QuotesEscaped(Trim(s))
  {
    var r := Trim(s);
    var i, j := TrimRemovesOnlyOuterWhiteSpace(s);
    forall k | 0 <= k < |r| ensures EscapedAt(r, k) {
      assert EscapedAt(s, i + k);
      assert r[k] == s[i + k];
      if r[k] == '\'' {
        assert 0 < i + k && s[i + k - 1] == '\\';
        assert !IsWhiteSpace(s[i + k - 1]);
        assert r[k - 1] == s[i + k - 1];
      }
    }
  }

  // ---------------------------------------------------------------------
  // Escaping quotes, and undoing it

  /** Undoes the quote escape: working from the end, the backslash directly
      before each quote is dropped; every other character is kept. */
  function Unescape(s: string): (r: string)
    ensures |r| <= |s|
  {
    if s == [] then []
    else if 2 <= |s| && s[|s| - 1] == '\'' && s[|s| - 2] == '\\' then Unescape(s[..|s| - 2]) + "'"
    else Unescape(s[..|s| - 1]) + [s[|s| - 1]]
  }

  /** Unescape on text ending in an escaped quote. */
  lemma UnescapeSnocQuote(e: string)
    ensures Unescape(e + ['\\', '\'']) == Unescape(e) + "'"
  {
    var t := e + ['\\', '\''];
    assert t[..|t| - 2] == e;
  }

  /** Unescape on text ending in a character other than a quote. */
  lemma UnescapeSnocOther(e: string, x: char)
    requires x != '\''
    ensures Unescape(e + [x]) == Unescape(e) + [x]
  {
    var t := e + [x];
    assert t[..|t| - 1] == e;
  }

  /** Unescape reads back any text whose quotes were escaped. */
  lemma {:induction false} UnescapeEscape(s: string)
    ensures Unescape(ReplaceChar(s, '\'', "\\'")) == s
  {
    if s != [] {
      var s', x := s[..|s| - 1], s[|s| - 1];
      var e' := ReplaceChar(s', '\'', "\\'");
      UnescapeEscape(s');
      assert s == s' + [x];
      if x == '\'' {
        assert ReplaceChar(s, '\'', "\\'") == e' + ['\\', '\''];
        UnescapeSnocQuote(e');
      } else {
        assert ReplaceChar(s, '\'', "\\'") == e' + [x];
        UnescapeSnocOther(e', x);
      }
    }
  }

  /** Escaping one character. */
  lemma EscapeOne(x: char)
    ensures ReplaceChar([x], '\'', "\\'") == if x == '\'' then "\\'" else [x]
  {
    assert [x][..0] == [];
  }

  /** Dropping line feeds and escaping quotes commute on one character. */
  lemma RemoveLineFeedEscapeOne(x: char)
    ensures RemoveChar(ReplaceChar([x], '\'', "\\'"), '\n') == ReplaceChar(RemoveChar([x], '\n'), '\'', "\\'")
  {
    EscapeOne(x);
    RemoveCharOne(x, '\n');
    if x == '\'' {
      EscapedQuoteHasNoLineFeed();
    }
  }

  /** An escaped quote contains no line feed to drop. */
  lemma EscapedQuoteHasNoLineFeed()
    ensures RemoveChar("\\'", '\n') == "\\'"
  {
    RemoveCharOne('\\', '\n');
    RemoveCharOne('\'', '\n');
    RemoveCharAppend(['\\'], ['\''], '\n');
    assert ['\\'] + ['\''] == "\\'";
  }

  /** Dropping line feeds and escaping quotes can be done in either order. */
  lemma {:induction false} RemoveLineFeedsEscape(s: string)
    ensures RemoveChar(ReplaceChar(s, '\'', "\\'"), '\n') == ReplaceChar(RemoveChar(s, '\n'), '\'', "\\'")
  {
    if s != [] {
      var s', x := s[..|s| - 1], s[|s| - 1];
      assert s == s' + [x];
      RemoveLineFeedsEscape(s');
      ReplaceCharAppend(s', [x], '\'', "\\'");
      RemoveCharAppend(ReplaceChar(s', '\'', "\\'"), ReplaceChar([x], '\'', "\\'"), '\n');
      RemoveCharAppend(s', [x], '\n');
      ReplaceCharAppend(RemoveChar(s', '\n'), RemoveChar([x], '\n'), '\'', "\\'");
      RemoveLineFeedEscapeOne(x);
    }
  }

  /** Trimming the end and escaping quotes can be done in either order: the
      escape neither makes nor removes white space. */
  lemma {:induction false} TrimEndEscape(s: string)
    ensures TrimEnd(ReplaceChar(s, '\'', "\\'")) == ReplaceChar(TrimEnd(s), '\'', "\\'")
  {
    if s != [] {
      var s', x := s[..|s| - 1], s[|s| - 1];
      var e' := ReplaceChar(s', '\'', "\\'");
      var e := ReplaceChar(s, '\'', "\\'");
      if IsWhiteSpace(x) {
        TrimEndEscape(s');
        assert e == e' + [x];
        assert e[..|e| - 1] == e';
      } else if x == '\'' {
        assert e == e' + "\\'";
      } else {
        assert e == e' + [x];
      }
    }
  }

  /** Trimming the start and escaping quotes can be done in either order. */
  lemma {:induction false} TrimStartEscape(s: string)
    ensures TrimStart(ReplaceChar(s, '\'', "\\'")) == ReplaceChar(TrimStart(s), '\'', "\\'")
  {
    if s != [] {
      var x, rest := s[0], s[1..];
      assert s == [x] + rest;
      ReplaceCharAppend([x], rest, '\'', "\\'");
      EscapeOne(x);
      var e := ReplaceChar(s, '\'', "\\'");
      if IsWhiteSpace(x) {
        TrimStartEscape(rest);
        assert e[1..] == ReplaceChar(rest, '\'', "\\'");
      }
    }
  }

  // ---------------------------------------------------------------------
  // WebMakeStringSafe

  /**
   * WebMakeStringSafe as the source writes it. Its first step,
   * s.Replace("'", "\'"), replaces a quote by the one-character C# string
   * "\'", which is a quote again: the step changes nothing.
   */
  function WebMakeStringSafeAsWritten(s: string): (r: string)
    ensures '\n' !in r
    ensures r == [] || (!IsWhiteSpace(r[0]) && !IsWhiteSpace(r[|r| - 1]))
    ensures r == Trim(RemoveChar(s, '\n'))
  {
    ReplaceCharBySelf(s, '\'');
    Trim(RemoveChar(ReplaceChar(s, '\'', "'"), '\n'))
  }

  /** A quote in the input survives unescaped. */
  lemma WebMakeStringSafeAsWrittenLeavesQuote()
    ensures WebMakeStringSafeAsWritten("'") == "'"
    ensures !QuotesEscaped(WebMakeStringSafeAsWritten("'"))
  {
    var s := "'";
    assert s[..0] == [];
    assert RemoveChar(s, '\n') == RemoveChar([], '\n') + [s[0]];
    assert !IsWhiteSpace(s[0]);
    assert TrimStart(s) == s;
    assert TrimEnd(s) == s;
    assert !EscapedAt(s, 0);
  }

  /** On text without a quote, the written and the intended escape agree. */
  lemma WebMakeStringSafeAgreesWithoutQuotes(s: string)
    requires '\'' !in s
    ensures WebMakeStringSafe(s) == WebMakeStringSafeAsWritten(s)
  {
    ReplaceCharAbsent(s, '\'', "\\'");
  }

  /**
   * WebMakeStringSafe with the escape its first step is meant to perform:
   * every quote becomes backslash-quote, line feeds are dropped, and the
   * surrounding white space is trimmed.
   */
  function WebMakeStringSafe(s: string): (r: string)
    ensures '\n' !in r
    ensures r == [] || (!IsWhiteSpace(r[0]) && !IsWhiteSpace(r[|r| - 1]))
    ensures QuotesEscaped(r)
    ensures r == ReplaceChar(WebMakeStringSafeAsWritten(s), '\'', "\\'")
    ensures Unescape(r) == WebMakeStringSafeAsWritten(s)
  {
    var escaped := ReplaceChar(s, '\'', "\\'");
    ReplaceQuoteEscapes(s);
    RemoveCharKeepsEscapes(escaped, '\n');
    TrimKeepsEscapes(RemoveChar(escaped, '\n'));
    var kept := RemoveChar(s, '\n');
    RemoveLineFeedsEscape(s);
    TrimStartEscape(kept);
    TrimEndEscape(TrimStart(kept));
    UnescapeEscape(Trim(kept));
    Trim(RemoveChar(escaped, '\n'))
  }
}
