/**
 * The text handling the bot does on its own: the digit check and integer parse applied to the
 * amount and the term, and the backslash escaping applied to the payment table.
 */
module BotText {

  // ---------------------------------------------------------------------------------------------
  // Digit strings

  predicate IsDigit(c: char)
  {
    '0' <= c <= '9'
  }

  /** The digit check on user input: non-empty and made only of the characters `0` to `9`. */
  predicate IsDigits(s: string)
  {
    |s| > 0 && forall i :: 0 <= i < |s| ==> IsDigit(s[i])
  }

  function DigitValue(c: char): nat
    requires IsDigit(c)
  {
    (c - '0') as nat
  }

  function DigitChar(d: nat): (c: char)
    requires d < 10
    ensures IsDigit(c) && DigitValue(c) == d
  {
    '0' + d as char
  }

  /** The decimal value of a digit string, read most significant digit first. */
  function ParseNat(s: string): (n: nat)
    requires IsDigits(s)
    ensures n < Pow10(|s|)
  {
    if |s| == 1 then DigitValue(s[0])
    else 10 * ParseNat(s[..|s| - 1]) + DigitValue(s[|s| - 1])
  }

  /** The shortest decimal spelling of `n`, the inverse of `ParseNat`. */
  function NatToDigits(n: nat): (s: string)
    ensures IsDigits(s)
    ensures |s| > 1 ==> s[0] != '0'
  {
    if n < 10 then [DigitChar(n)] else NatToDigits(n / 10) + [DigitChar(n % 10)]
  }

  /** Parsing the spelling of a number gives the number back. */
  lemma {:induction false} ParseNatToDigits(n: nat)
    ensures ParseNat(NatToDigits(n)) == n
  {
    if n >= 10 {
      var s := NatToDigits(n);
      assert s[..|s| - 1] == NatToDigits(n / 10);
      ParseNatToDigits(n / 10);
    }
  }

  /** Leading zeros do not change the value parsed. */
  lemma {:induction false} ParseNatLeadingZero(s: string)
    requires IsDigits(s)
    ensures IsDigits("0" + s) && ParseNat("0" + s) == ParseNat(s)
  {
    var t := "0" + s;
    assert IsDigits(t) by {
      forall i | 0 <= i < |t| ensures IsDigit(t[i]) {
        if i > 0 { assert t[i] == s[i - 1]; }
      }
    }
    if |s| > 1 {
      assert t[..|t| - 1] == "0" + s[..|s| - 1];
      ParseNatLeadingZero(s[..|s| - 1]);
    }
  }

  /** `10` raised to the power `n`. */
  function Pow10(n: nat): nat
  {
    if n == 0 then 1 else 10 * Pow10(n - 1)
  }

  // ---------------------------------------------------------------------------------------------
  // Escaping for the payment table message

  /** The characters the chain of replacements escapes. */
  predicate IsSpecial(c: char)
  {
    c == '_' || c == '*' || c == '`'
  }

  /** `s` with a backslash put before every occurrence of `c`; a single-character `str.replace`. */
  function EscapeChar(s: string, c: char): (r: string)
    ensures |r| == |s| + Occurrences(s, c)
  {
    if s == [] then []
    else (if s[0] == c then ['\\', c] else [s[0]]) + EscapeChar(s[1..], c)
  }

  function Occurrences(s: string, c: char): nat
  {
    if s == [] then 0 else (if s[0] == c then 1 else 0) + Occurrences(s[1..], c)
  }

  /** The three replacements applied one after the other, underscore first, then star, then backquote. */
  function EscapeMarkdown(s: string): string
  {
    EscapeChar(EscapeChar(EscapeChar(s, '_'), '*'), '`')
  }

  /** Reference definition: one left-to-right pass that escapes every special character. */
  function EscapeSpecials(s: string): string
  {
    if s == [] then []
    else (if IsSpecial(s[0]) then ['\\', s[0]] else [s[0]]) + EscapeSpecials(s[1..])
  }

  /** Number of special characters in `s`. */
  function SpecialCount(s: string): nat
  {
    if s == [] then 0 else (if IsSpecial(s[0]) then 1 else 0) + SpecialCount(s[1..])
  }

  /** Drops a backslash that stands before a special character; the inverse of the escaping. */
  function Unescape(s: string): string
  {
    if |s| >= 2 && s[0] == '\\' && IsSpecial(s[1]) then [s[1]] + Unescape(s[2..])
    else if s == [] then []
    else [s[0]] + Unescape(s[1..])
  }

  lemma {:induction false} EscapeCharAppend(a: string, b: string, c: char)
    ensures EscapeChar(a + b, c) == EscapeChar(a, c) + EscapeChar(b, c)
  {
    if a != [] {
      assert (a + b)[1..] == a[1..] + b;
      EscapeCharAppend(a[1..], b, c);
    } else {
      assert a + b == b;
    }
  }

  /** The chain of replacements distributes over concatenation. */
  lemma EscapeMarkdownAppend(a: string, b: string)
    ensures EscapeMarkdown(a + b) == EscapeMarkdown(a) + EscapeMarkdown(b)
  {
    EscapeCharAppend(a, b, '_');
    var a1, b1 := EscapeChar(a, '_'), EscapeChar(b, '_');
    EscapeCharAppend(a1, b1, '*');
    EscapeCharAppend(EscapeChar(a1, '*'), EscapeChar(b1, '*'), '`');
  }

  /** No replacement touches a backslash, and each one escapes its own character only. */
  lemma EscapeCharOfPair(c: char, d: char)
    requires d != c && c != '\\'
    ensures EscapeChar(['\\', d], c) == ['\\', d]
  {
    assert ['\\', d][1..] == [d];
    assert [d][1..] == [];
    assert EscapeChar([d], c) == [d];
    assert EscapeChar(['\\', d], c) == ['\\'] + EscapeChar([d], c);
  }

  /** On a single character the chain escapes it exactly when it is special. */
  lemma EscapeMarkdownChar(c: char)
    ensures EscapeMarkdown([c]) == if IsSpecial(c) then ['\\', c] else [c]
  {
    assert [c][1..] == [];
    assert forall e: char :: EscapeChar([c], e) == if c == e then ['\\', c] else [c];
    if c == '_' {
      EscapeCharOfPair('*', c);
      EscapeCharOfPair('`', c);
    } else if c == '*' {
      EscapeCharOfPair('`', c);
    }
  }

  /** The chain of three replacements is the same as escaping every special character in one pass. */
  lemma {:induction false} EscapeChainIsOnePass(s: string)
    ensures EscapeMarkdown(s) == EscapeSpecials(s)
  {
    if s != [] {
      assert s == [s[0]] + s[1..];
      EscapeMarkdownAppend([s[0]], s[1..]);
      EscapeMarkdownChar(s[0]);
      EscapeChainIsOnePass(s[1..]);
    }
  }

  /** The escaped text is longer than the input by exactly the number of special characters. */
  lemma {:induction false} EscapeLength(s: string)
    ensures |EscapeMarkdown(s)| == |s| + SpecialCount(s)
  {
    EscapeChainIsOnePass(s);
    EscapeSpecialsLength(s);
  }

  lemma {:induction false} EscapeSpecialsLength(s: string)
    ensures |EscapeSpecials(s)| == |s| + SpecialCount(s)
  {
    if s != [] { EscapeSpecialsLength(s[1..]); }
  }

  /** Removing the inserted backslashes gives the input back: every other character is kept in order. */
  lemma {:induction false} UnescapeEscape(s: string)
    ensures Unescape(EscapeMarkdown(s)) == s
  {
    EscapeChainIsOnePass(s);
    UnescapeEscapeSpecials(s);
  }

  lemma {:induction false} UnescapeEscapeSpecials(s: string)
    ensures Unescape(EscapeSpecials(s)) == s
  {
    if s != [] {
      var rest := EscapeSpecials(s[1..]);
      UnescapeEscapeSpecials(s[1..]);
      if IsSpecial(s[0]) {
        assert EscapeSpecials(s) == ['\\', s[0]] + rest;
        assert EscapeSpecials(s)[2..] == rest;
      } else {
        assert EscapeSpecials(s) == [s[0]] + rest;
        EscapedStartsPlain(s[1..]);
        assert EscapeSpecials(s)[1..] == rest;
      }
    }
  }

  /** An escaped text never starts with a special character. */
  lemma EscapedStartsPlain(s: string)
    ensures EscapeSpecials(s) != [] ==> !IsSpecial(EscapeSpecials(s)[0])
  {
  }

  /** Every special character in the escaped text has a backslash right before it. */
  lemma {:induction false} EscapedSpecialsArePreceded(s: string, i: nat)
    requires i < |EscapeMarkdown(s)| && IsSpecial(EscapeMarkdown(s)[i])
    ensures i > 0 && EscapeMarkdown(s)[i - 1] == '\\'
  {
    EscapeChainIsOnePass(s);
    SpecialsPreceded(s, i);
  }

  lemma {:induction false} SpecialsPreceded(s: string, i: nat)
    requires i < |EscapeSpecials(s)| && IsSpecial(EscapeSpecials(s)[i])
    ensures i > 0 && EscapeSpecials(s)[i - 1] == '\\'
  {
    var rest := EscapeSpecials(s[1..]);
    var head := if IsSpecial(s[0]) then ['\\', s[0]] else [s[0]];
    assert EscapeSpecials(s) == head + rest;
    if i >= |head| {
      SpecialsPreceded(s[1..], i - |head|);
    }
  }
}
