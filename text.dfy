/**
 * The three pieces of Python's string handling the bot relies on:
 * `str.split()` with no separator (splitting a command line into words),
 * `int(s)` on a string (reading intervals and removal indices) and
 * `str(n)` (the decimal text of an integer, the partner of `int`).
 */
module Text {
  import opened Wrappers

  /** Python's `str.isspace()` for one character: the separators `split()` and `strip()` use. */
  predicate IsSpace(c: char)
  {
    || c == ' ' || c == '\t' || c == '\n' || c == '\r' || c == '\U{0B}' || c == '\U{0C}'
    || ('\U{1C}' <= c <= '\U{1F}') || c == '\U{85}' || c == '\U{A0}' || c == '\U{1680}'
    || ('\U{2000}' <= c <= '\U{200A}') || c == '\U{2028}' || c == '\U{2029}'
    || c == '\U{202F}' || c == '\U{205F}' || c == '\U{3000}'
  }

  predicate NoSpace(s: string)
  {
    forall i :: 0 <= i < |s| ==> !IsSpace(s[i])
  }

  predicate AllSpace(s: string)
  {
    forall i :: 0 <= i < |s| ==> IsSpace(s[i])
  }

  /** The characters of `s` that are not whitespace, in order. */
  function NonSpace(s: string): string
  {
    if s == [] then [] else (if IsSpace(s[0]) then [] else [s[0]]) + NonSpace(s[1..])
  }

  function Concat(ws: seq<string>): string
  {
    if ws == [] then [] else ws[0] + Concat(ws[1..])
  }

  /**
   * Scans `s` left to right; `word` is the word being built. Every maximal
   * run of non-whitespace characters becomes one word; runs of whitespace,
   * leading and trailing whitespace yield nothing.
   */
  function SplitFrom(s: string, word: string): (r: seq<string>)
    requires NoSpace(word)
    ensures forall k :: 0 <= k < |r| ==> r[k] != [] && NoSpace(r[k])
    decreases |s|
  {
    if s == [] then
      (if word == [] then [] else [word])
    else if IsSpace(s[0]) then
      (if word == [] then [] else [word]) + SplitFrom(s[1..], [])
    else
      SplitFrom(s[1..], word + [s[0]])
  }

  /** Python's `s.split()`: every word is non-empty and holds no whitespace. */
  function Words(s: string): (r: seq<string>)
    ensures forall k :: 0 <= k < |r| ==> r[k] != [] && NoSpace(r[k])
  {
    SplitFrom(s, [])
  }

  lemma {:induction false} SplitFromEmpty(s: string, word: string)
    requires NoSpace(word)
    ensures SplitFrom(s, word) == [] <==> word == [] && AllSpace(s)
    decreases |s|
  {
    if s != [] {
      if IsSpace(s[0]) {
        SplitFromEmpty(s[1..], []);
        if word == [] {
          assert AllSpace(s) <==> AllSpace(s[1..]) by {
            if AllSpace(s[1..]) {
              forall i | 0 <= i < |s| ensures IsSpace(s[i]) {
                if i > 0 { assert s[i] == s[1..][i - 1]; }
              }
            }
          }
        }
      } else {
        var w := word + [s[0]];
        assert NoSpace(w) by {
          forall i | 0 <= i < |w| ensures !IsSpace(w[i]) {
            if i < |word| { assert w[i] == word[i]; }
          }
        }
        SplitFromEmpty(s[1..], w);
        assert !AllSpace(s) by { assert !IsSpace(s[0]); }
      }
    }
  }

  /** A line splits into no words exactly when it is empty or only whitespace. */
  lemma WordsEmptyIffBlank(s: string)
    ensures Words(s) == [] <==> AllSpace(s)
  {
    SplitFromEmpty(s, []);
  }

  lemma {:induction false} SplitFromConcat(s: string, word: string)
    requires NoSpace(word)
    ensures Concat(SplitFrom(s, word)) == word + NonSpace(s)
    decreases |s|
  {
    if s == [] {
      if word != [] {
        assert Concat([word]) == word + Concat([]);
      }
    } else if IsSpace(s[0]) {
      SplitFromConcat(s[1..], []);
      var rest := SplitFrom(s[1..], []);
      assert NonSpace(s) == NonSpace(s[1..]);
      if word != [] {
        assert ([word] + rest)[1..] == rest;
        assert Concat([word] + rest) == word + Concat(rest);
      } else {
        assert [] + rest == rest;
      }
    } else {
      var w := word + [s[0]];
      assert NoSpace(w) by {
        forall i | 0 <= i < |w| ensures !IsSpace(w[i]) {
          if i < |word| { assert w[i] == word[i]; }
        }
      }
      SplitFromConcat(s[1..], w);
      assert word + NonSpace(s) == w + NonSpace(s[1..]);
    }
  }

  /** Splitting loses exactly the whitespace: the words, glued back together, are the line without its whitespace. */
  lemma WordsKeepNonSpace(s: string)
    ensures Concat(Words(s)) == NonSpace(s)
  {
    SplitFromConcat(s, []);
  }

  lemma {:induction false} SplitFromWord(x: string, rest: string, word: string)
    requires NoSpace(word) && NoSpace(x)
    ensures NoSpace(word + x)
    ensures SplitFrom(x + rest, word) == SplitFrom(rest, word + x)
    decreases |x|
  {
    assert NoSpace(word + x) by {
      forall i | 0 <= i < |word + x| ensures !IsSpace((word + x)[i]) {
        if i < |word| { assert (word + x)[i] == word[i]; } else { assert (word + x)[i] == x[i - |word|]; }
      }
    }
    if x == [] {
      assert x + rest == rest && word + x == word;
    } else {
      assert (x + rest)[0] == x[0];
      assert (x + rest)[1..] == x[1..] + rest;
      assert NoSpace(x[1..]) by {
        forall i | 0 <= i < |x[1..]| ensures !IsSpace(x[1..][i]) { assert x[1..][i] == x[i + 1]; }
      }
      SplitFromWord(x[1..], rest, word + [x[0]]);
      assert word + [x[0]] + x[1..] == word + x;
    }
  }

  /** A word followed by one space splits off as the first element. */
  lemma WordsOfPrefix(w: string, rest: string)
    requires w != [] && NoSpace(w)
    ensures Words(w + " " + rest) == [w] + Words(rest)
  {
    assert w + " " + rest == w + ([' '] + rest);
    SplitFromWord(w, [' '] + rest, []);
    assert [] + w == w;
    assert ([' '] + rest)[1..] == rest;
  }

  /** A line of two words separated by one space splits into exactly those two words. */
  lemma WordsOfPair(a: string, b: string)
    requires a != [] && NoSpace(a) && b != [] && NoSpace(b)
    ensures Words(a + " " + b) == [a, b]
  {
    WordsOfPrefix(a, b);
    assert b == b + [];
    SplitFromWord(b, [], []);
    assert [] + b == b;
  }

  /** A line that is one word splits into exactly that word. */
  lemma WordsOfWord(w: string)
    requires w != [] && NoSpace(w)
    ensures Words(w) == [w]
  {
    assert w == w + [];
    SplitFromWord(w, [], []);
    assert [] + w == w;
  }

  lemma {:induction false} SplitFromAtSpace(s: string, c: char, t: string, word: string)
    requires NoSpace(word) && IsSpace(c)
    ensures SplitFrom(s + [c] + t, word) == SplitFrom(s, word) + SplitFrom(t, [])
    decreases |s|
  {
    var flushed := if word == [] then [] else [word];
    if s == [] {
      assert s + [c] + t == [c] + t;
      assert ([c] + t)[1..] == t;
    } else {
      assert (s + [c] + t)[0] == s[0];
      assert (s + [c] + t)[1..] == s[1..] + [c] + t;
      if IsSpace(s[0]) {
        SplitFromAtSpace(s[1..], c, t, []);
        assert flushed + (SplitFrom(s[1..], []) + SplitFrom(t, [])) == flushed + SplitFrom(s[1..], []) + SplitFrom(t, []);
      } else {
        var w := word + [s[0]];
        assert NoSpace(w) by {
          forall i | 0 <= i < |w| ensures !IsSpace(w[i]) {
            if i < |word| { assert w[i] == word[i]; }
          }
        }
        SplitFromAtSpace(s[1..], c, t, w);
      }
    }
  }

  /**
   * Any whitespace character is a word boundary: the words of `s`, a
   * whitespace character and `t` are the words of `s` followed by those of
   * `t`. With `WordsOfWord` this fixes the words of every line.
   */
  lemma WordsAtSpace(s: string, c: char, t: string)
    requires IsSpace(c)
    ensures Words(s + [c] + t) == Words(s) + Words(t)
  {
    SplitFromAtSpace(s, c, t, []);
  }

  // ---------------------------------------------------------------------
  // int(s) and str(n)

  predicate IsDigit(c: char) { '0' <= c <= '9' }

  function DigitValue(c: char): int
    requires IsDigit(c)
  {
    c as int - '0' as int
  }

  function DigitChar(d: int): (c: char)
    requires 0 <= d < 10
    ensures IsDigit(c) && DigitValue(c) == d
  {
    ('0' as int + d) as char
  }

  /**
   * The characters `int()` ignores around a number: every whitespace
   * character except the four ASCII separators U+001C to U+001F, which
   * CPython leaves in place (its ASCII whitespace test knows only space and
   * `\t\n\v\f\r`, and only non-ASCII whitespace is turned into a space).
   */
  predicate IntSpace(c: char)
  {
    IsSpace(c) && !('\U{1C}' <= c <= '\U{1F}')
  }

  /** The whitespace `int()` strips at the front of the string. */
  function TrimStart(s: string): (r: string)
    ensures forall c :: c in r ==> c in s
    ensures r == [] || !IntSpace(r[0])
  {
    if s != [] && IntSpace(s[0]) then TrimStart(s[1..]) else s
  }

  /** The whitespace `int()` strips at the end of the string. */
  function TrimEnd(s: string): (r: string)
    ensures forall c :: c in r ==> c in s
    ensures r == [] || !IntSpace(r[|r| - 1])
  {
    if s != [] && IntSpace(s[|s| - 1]) then TrimEnd(s[..|s| - 1]) else s
  }

  /**
   * The digit part of a base-10 `int()` literal: ASCII digits, where an
   * underscore may stand only between two digits.
   */
  predicate DigitGroups(t: string)
  {
    && t != []
    && IsDigit(t[0])
    && DigitChars(t)
    && forall i :: 0 <= i < |t| && t[i] == '_' ==> i + 1 < |t| && IsDigit(t[i + 1])
  }

  predicate DigitChars(t: string)
  {
    forall i :: 0 <= i < |t| ==> IsDigit(t[i]) || t[i] == '_'
  }

  /** The value of a digit string, underscores ignored. */
  function DigitsValue(t: string): nat
    requires DigitChars(t)
  {
    if t == [] then 0
    else
      var init := t[..|t| - 1];
      assert DigitChars(init) by {
        forall i | 0 <= i < |init| ensures IsDigit(init[i]) || init[i] == '_' { assert init[i] == t[i]; }
      }
      if t[|t| - 1] == '_' then DigitsValue(init)
      else DigitsValue(init) * 10 + DigitValue(t[|t| - 1])
  }

  /**
   * Python's `int(s)` for a string in base 10: `None` where Python raises
   * `ValueError`. Surrounding whitespace is ignored and one sign is allowed.
   */
  function ParseInt(s: string): (r: Option<int>)
    ensures r.Some? ==> exists i :: 0 <= i < |s| && IsDigit(s[i])
  {
    var t := TrimEnd(TrimStart(s));
    if t != [] && (t[0] == '-' || t[0] == '+') then
      if DigitGroups(t[1..]) then
        var v: int := DigitsValue(t[1..]);
        assert t[1] in s && IsDigit(t[1]);
        Some(if t[0] == '-' then -v else v)
      else None
    else if DigitGroups(t) then
      assert t[0] in s && IsDigit(t[0]);
      Some(DigitsValue(t))
    else None
  }

  /** Python's `str(n)` for a natural number: its decimal digits, most significant first. */
  function NatToString(n: nat): (r: string)
    ensures r != [] && forall i :: 0 <= i < |r| ==> IsDigit(r[i])
  {
    if n < 10 then [DigitChar(n)] else NatToString(n / 10) + [DigitChar(n % 10)]
  }

  /** Python's `str(n)` for an integer. */
  function IntToString(n: int): (r: string)
    ensures r != [] && (r[0] == '-' <==> n < 0)
    ensures forall i :: 0 <= i < |r| ==> IsDigit(r[i]) || (i == 0 && n < 0)
  {
    if n < 0 then "-" + NatToString(-n) else NatToString(n)
  }

  /** The decimal text of an integer is a single word. */
  lemma IntToStringHasNoSpace(n: int)
    ensures IntToString(n) != [] && NoSpace(IntToString(n))
  {
    var r := IntToString(n);
    forall i | 0 <= i < |r| ensures !IsSpace(r[i]) {
      assert IsDigit(r[i]) || r[i] == '-';
    }
  }

  lemma {:induction false} NatToStringValue(n: nat)
    ensures DigitsValue(NatToString(n)) == n
  {
    var r := NatToString(n);
    if n < 10 {
      assert r[..0] == [];
    } else {
      NatToStringValue(n / 10);
      assert r[..|r| - 1] == NatToString(n / 10);
    }
  }

  lemma TrimIsIdentity(t: string)
    requires t != [] && !IsSpace(t[0]) && !IsSpace(t[|t| - 1])
    ensures TrimEnd(TrimStart(t)) == t
  {
  }

  /** `int(str(n)) == n` for every integer: the decimal text of a number reads back as that number. */
  lemma ParseIntOfString(n: int)
    ensures ParseInt(IntToString(n)) == Some(n)
  {
    var t := IntToString(n);
    var m: nat := if n < 0 then -n else n;
    var d := NatToString(m);
    NatToStringValue(m);
    assert DigitGroups(d);
    TrimIsIdentity(t);
    assert TrimEnd(TrimStart(t)) == t;
    if n < 0 {
      assert t == "-" + d && t[0] == '-' && t[1..] == d;
      var v: int := DigitsValue(d);
      assert ParseInt(t) == Some(-v);
    } else {
      assert t == d && t[0] != '-' && t[0] != '+';
      assert ParseInt(t) == Some(DigitsValue(d));
    }
  }

  lemma {:induction false} TrimStartAppend(s: string, c: char)
    requires IntSpace(c)
    ensures TrimStart(s + [c]) == if TrimStart(s) == [] then [] else TrimStart(s) + [c]
    decreases |s|
  {
    if s == [] {
      assert ([c])[1..] == [];
    } else {
      assert (s + [c])[0] == s[0] && (s + [c])[1..] == s[1..] + [c];
      if IntSpace(s[0]) {
        TrimStartAppend(s[1..], c);
      }
    }
  }

  /** `int()` ignores one more whitespace character on either side of its argument. */
  lemma ParseIntIgnoresPadding(s: string, c: char)
    requires IntSpace(c)
    ensures ParseInt([c] + s) == ParseInt(s)
    ensures ParseInt(s + [c]) == ParseInt(s)
  {
    assert ([c] + s)[1..] == s;
    TrimStartAppend(s, c);
    var x := TrimStart(s);
    if x != [] {
      assert (x + [c])[..|x|] == x;
    }
  }

  /** `strip()` at the end never removes the first character when that one is not stripped. */
  lemma {:induction false} TrimEndKeepsFront(x: string)
    requires x != [] && !IntSpace(x[0])
    ensures TrimEnd(x) != [] && TrimEnd(x)[0] == x[0]
    decreases |x|
  {
    if IntSpace(x[|x| - 1]) {
      TrimEndKeepsFront(x[..|x| - 1]);
    }
  }

  /**
   * The ASCII separators U+001C to U+001F are not stripped by `int()`: a
   * string that starts with one raises `ValueError` (`int("\x1c2")`), even
   * though `str.split()` treats them as whitespace.
   */
  lemma SeparatorIsNotPadding(c: char, s: string)
    requires '\U{1C}' <= c <= '\U{1F}'
    ensures ParseInt([c] + s) == None
  {
    var x := [c] + s;
    assert TrimStart(x) == x;
    TrimEndKeepsFront(x);
  }
}
