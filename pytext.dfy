/** The Python text operations the core relies on: `str(n)` and `int(s)` for
    integers, `str.strip()`, `str.split(sep)`, `sep.join(parts)`, the
    substring test `x in s`, `str.replace` and the line-by-line iteration of a
    text file. Each is defined once here and characterised by its own
    contract or by a lemma relating it to its inverse. */
module PyText {

  datatype Option<+T> = None | Some(value: T)

  // ---------------------------------------------------------------------------
  // Decimal digits: str(n) and the value of a digit string
  // ---------------------------------------------------------------------------

  predicate IsDigit(c: char) { '0' <= c <= '9' }

  predicate AllDigits(s: string) { forall i :: 0 <= i < |s| ==> IsDigit(s[i]) }

  function DigitChar(d: nat): (c: char)
    requires d < 10
    ensures IsDigit(c) && c as int - '0' as int == d
  {
    (d + '0' as int) as char
  }

  /** The value of a string of decimal digits, most significant first. */
  function DigitsValue(s: string): nat
    requires AllDigits(s)
  {
    if s == [] then 0
    else 10 * DigitsValue(s[..|s| - 1]) + (s[|s| - 1] as int - '0' as int)
  }

  /** Python's `str(n)` for a natural number: shortest decimal numeral. */
  function NatText(n: nat): (r: string)
    ensures r != [] && AllDigits(r)
    ensures DigitsValue(r) == n
    ensures r[0] == '0' ==> r == "0"
  {
    if n < 10 then [DigitChar(n)]
    else
      var prefix := NatText(n / 10);
      assert (prefix + [DigitChar(n % 10)])[..|prefix|] == prefix;
      prefix + [DigitChar(n % 10)]
  }

  /** Python's `str(i)` (and f"{i}") for any integer. */
  function IntText(i: int): (r: string)
    ensures r != []
    ensures r[0] == '-' <==> i < 0
  {
    if i < 0 then "-" + NatText(-i) else NatText(i)
  }

  /** `str(i)` is made of digits, with a minus sign in front for a negative `i`. */
  lemma IntTextChars(i: int)
    ensures forall k :: 0 < k < |IntText(i)| ==> IsDigit(IntText(i)[k])
    ensures IsDigit(IntText(i)[0]) || IntText(i)[0] == '-'
  {
  }

  // ---------------------------------------------------------------------------
  // Whitespace and str.strip()
  // ---------------------------------------------------------------------------

  /** The characters for which Python's `str.isspace()` holds, which are the
      ones `str.strip()` with no argument removes. */
  predicate IsSpace(c: char)
  {
    c == ' ' || ('\t' <= c <= '\r') || ('\U{1c}' <= c <= '\U{1f}') ||
    c == '\U{85}' || c == '\U{a0}' || c == '\U{1680}' ||
    ('\U{2000}' <= c <= '\U{200a}') || c == '\U{2028}' || c == '\U{2029}' ||
    c == '\U{202f}' || c == '\U{205f}' || c == '\U{3000}'
  }

  predicate AllSpace(s: string) { forall i :: 0 <= i < |s| ==> IsSpace(s[i]) }

  /** Neither end of `s` is whitespace. */
  predicate Trimmed(s: string)
  {
    s == [] || (!IsSpace(s[0]) && !IsSpace(s[|s| - 1]))
  }

  function StripLeft(s: string): string
  {
    if s != [] && IsSpace(s[0]) then StripLeft(s[1..]) else s
  }

  function StripRight(s: string): string
  {
    if s != [] && IsSpace(s[|s| - 1]) then StripRight(s[..|s| - 1]) else s
  }

  /** `lstrip()` drops a whitespace prefix and keeps the rest. */
  lemma {:induction false} StripLeftSuffix(s: string)
    ensures var r := StripLeft(s);
      && |r| <= |s| && r == s[|s| - |r|..]
      && AllSpace(s[..|s| - |r|])
      && (r == [] || !IsSpace(r[0]))
    decreases |s|
  {
    if s != [] && IsSpace(s[0]) {
      StripLeftSuffix(s[1..]);
      var r := StripLeft(s[1..]);
      assert s[1..][..|s| - 1 - |r|] == s[1..|s| - |r|];
    }
  }

  /** `rstrip()` drops a whitespace suffix and keeps the rest. */
  lemma {:induction false} StripRightPrefix(s: string)
    ensures var r := StripRight(s);
      && |r| <= |s| && r == s[..|r|]
      && AllSpace(s[|r|..])
      && (r == [] || !IsSpace(r[|r| - 1]))
    decreases |s|
  {
    if s != [] && IsSpace(s[|s| - 1]) {
      StripRightPrefix(s[..|s| - 1]);
      var r := StripRight(s[..|s| - 1]);
      assert s[..|s| - 1][..|r|] == s[..|r|];
      assert s[|r|..] == s[..|s| - 1][|r|..] + [s[|s| - 1]];
    }
  }

  /** Python's `s.strip()`: `s` without its leading and trailing whitespace. */
  function Strip(s: string): (r: string)
  {
    StripRight(StripLeft(s))
  }

  /** What `strip()` removes is whitespace, what it keeps is a contiguous slice
      of the input that starts and ends with a non-space character. */
  lemma StripSlice(s: string) returns (i: nat, j: nat)
    ensures i <= j <= |s| && Strip(s) == s[i..j]
    ensures AllSpace(s[..i]) && AllSpace(s[j..])
    ensures Trimmed(Strip(s))
  {
    var l := StripLeft(s);
    var r := StripRight(l);
    StripLeftSuffix(s);
    StripRightPrefix(l);
    i := |s| - |l|;
    j := i + |r|;
    assert l[|r|..] == s[j..];
  }

  /** `strip()` keeps only characters of its input, and leaves no
      whitespace at either end. */
  lemma StripKeeps(s: string)
    ensures Trimmed(Strip(s))
    ensures forall x :: x in Strip(s) ==> x in s
  {
    var i, j := StripSlice(s);
    assert forall x :: x in s[i..j] ==> x in s;
  }

  /** A string with no whitespace at either end is left as it is. */
  lemma {:induction false} StripTrimmed(s: string)
    requires Trimmed(s)
    ensures Strip(s) == s
  {
  }

  lemma StripIdempotent(s: string)
    ensures Strip(Strip(s)) == Strip(s)
  {
    var _, _ := StripSlice(s);
    StripTrimmed(Strip(s));
  }

  /** Stripping whitespace that was put in front of a trimmed string gives the
      string back (`" 8.8.4.4".strip() == "8.8.4.4"`). */
  lemma {:induction false} StripLeadingSpace(pad: string, s: string)
    requires AllSpace(pad) && Trimmed(s)
    ensures Strip(pad + s) == s
  {
    if pad == [] {
      assert pad + s == s;
      StripTrimmed(s);
    } else {
      assert (pad + s)[1..] == pad[1..] + s;
      StripLeadingSpace(pad[1..], s);
      assert StripLeft(pad + s) == StripLeft(pad[1..] + s);
    }
  }

  /** Stripping whitespace that was put after a non-empty trimmed string
      gives the string back (`"22000\n".strip() == "22000"`). */
  lemma {:induction false} StripTrailingSpace(s: string, pad: string)
    requires s != [] && Trimmed(s) && AllSpace(pad)
    ensures Strip(s + pad) == s
  {
    assert StripLeft(s + pad) == s + pad by { assert (s + pad)[0] == s[0]; }
    StripRightPad(s, pad);
  }

  lemma {:induction false} StripRightPad(s: string, pad: string)
    requires s != [] && !IsSpace(s[|s| - 1]) && AllSpace(pad)
    ensures StripRight(s + pad) == s
    decreases |pad|
  {
    if pad == [] {
      assert s + pad == s;
    } else {
      assert (s + pad)[..|s + pad| - 1] == s + pad[..|pad| - 1];
      StripRightPad(s, pad[..|pad| - 1]);
    }
  }

  // ---------------------------------------------------------------------------
  // int(s)
  // ---------------------------------------------------------------------------

  /** The ASCII subset of the numerals Python's `int(s)` accepts for base 10
      after removing the sign: ASCII digits, with single underscores allowed
      between two digits (`"1_000"`). `int` also accepts the other Unicode
      decimal digits, which are not modelled. */
  predicate Numeral(t: string)
  {
    t != [] && IsDigit(t[0]) && IsDigit(t[|t| - 1]) &&
    (forall i :: 0 <= i < |t| ==> IsDigit(t[i]) || t[i] == '_') &&
    (forall i :: 0 <= i < |t| - 1 ==> t[i] == '_' ==> t[i + 1] != '_')
  }

  function WithoutUnderscores(t: string): (r: string)
    requires forall i :: 0 <= i < |t| ==> IsDigit(t[i]) || t[i] == '_'
    ensures AllDigits(r)
    ensures AllDigits(t) ==> r == t
  {
    if t == [] then []
    else if t[|t| - 1] == '_' then WithoutUnderscores(t[..|t| - 1])
    else WithoutUnderscores(t[..|t| - 1]) + [t[|t| - 1]]
  }

  /** Python's `int(s)` on a `str`: `None` stands for the `ValueError` it raises.
      Surrounding whitespace is ignored, an optional sign is allowed. */
  function ParseInt(s: string): Option<int>
  {
    var t := Strip(s);
    var negative := t != [] && t[0] == '-';
    var body := if t != [] && (t[0] == '-' || t[0] == '+') then t[1..] else t;
    if Numeral(body) then
      var v: int := DigitsValue(WithoutUnderscores(body));
      Some(if negative then -v else v)
    else None
  }

  /** `str(n)` is a trimmed numeral with no underscores. */
  lemma NatTextIsNumeral(n: nat)
    ensures Trimmed(NatText(n)) && Numeral(NatText(n))
    ensures WithoutUnderscores(NatText(n)) == NatText(n)
  {
    var t := NatText(n);
    assert IsDigit(t[0]) && IsDigit(t[|t| - 1]);
  }

  /** `int(str(i)) == i`: the integer text round-trips through the parser. */
  lemma IntTextRoundTrip(i: int)
    ensures ParseInt(IntText(i)) == Some(i)
  {
    NatTextIsNumeral(if i < 0 then -i else i);
    StripTrimmed(IntText(i));
  }

  /** Whitespace after an integer's text, such as a line's '\n', does not
      change what `int(text.strip())` reads. */
  lemma ParseIntIgnoresTrailingSpace(i: int, pad: string)
    requires AllSpace(pad)
    ensures ParseInt(Strip(IntText(i) + pad)) == Some(i)
  {
    var t := IntText(i);
    NatTextIsNumeral(if i < 0 then -i else i);
    assert Trimmed(t);
    StripTrailingSpace(t, pad);
    IntTextRoundTrip(i);
  }

  // ---------------------------------------------------------------------------
  // str.split(sep) and sep.join(parts)
  // ---------------------------------------------------------------------------

  /** Python's `sep.join(parts)`. */
  function Join(parts: seq<string>, sep: string): string
  {
    if parts == [] then []
    else if |parts| == 1 then parts[0]
    else parts[0] + sep + Join(parts[1..], sep)
  }

  /** Python's `s.split(c)` with a one-character separator: the maximal pieces
      between separators, including empty ones, in order. */
  function Split(s: string, c: char): (parts: seq<string>)
    ensures |parts| >= 1
    ensures forall k :: 0 <= k < |parts| ==> c !in parts[k]
    ensures Join(parts, [c]) == s
  {
    if s == [] then [[]]
    else
      var rest := Split(s[1..], c);
      if s[0] == c then
        assert [c] + Join(rest, [c]) == s;
        [[]] + rest
      else
        var parts := [[s[0]] + rest[0]] + rest[1..];
        assert parts[1..] == rest[1..];
        assert Join(parts, [c]) == [s[0]] + Join(rest, [c]);
        parts
  }

  /** Splitting a join gives the parts back when no part holds the separator:
      `split` and `join` are inverse to each other in both directions. */
  lemma {:induction false} SplitJoin(parts: seq<string>, c: char)
    requires |parts| >= 1
    requires forall k :: 0 <= k < |parts| ==> c !in parts[k]
    ensures Split(Join(parts, [c]), c) == parts
    decreases |parts|, |parts[0]|
  {
    if parts[0] == [] {
      if |parts| > 1 {
        var t := Join(parts[1..], [c]);
        assert Join(parts, [c]) == [c] + t;
        SplitSeparator(t, c);
        SplitJoin(parts[1..], c);
        assert parts == [[]] + parts[1..];
      }
    } else {
      var x := parts[0][0];
      var shorter := [parts[0][1..]] + parts[1..];
      assert shorter[1..] == parts[1..];
      assert forall k :: 0 <= k < |shorter| ==> c !in shorter[k] by {
        assert forall y :: y in shorter[0] ==> y in parts[0];
      }
      SplitJoin(shorter, c);
      assert x != c by { assert x in parts[0]; }
      JoinFirstChar(parts, [c]);
      SplitOther(x, Join(shorter, [c]), c);
      assert [x] + shorter[0] == parts[0];
      assert parts == [[x] + shorter[0]] + shorter[1..];
    }
  }

  lemma SplitSeparator(t: string, c: char)
    ensures Split([c] + t, c) == [[]] + Split(t, c)
  {
    assert ([c] + t)[1..] == t;
  }

  lemma SplitOther(x: char, t: string, c: char)
    requires x != c
    ensures Split([x] + t, c) == [[x] + Split(t, c)[0]] + Split(t, c)[1..]
  {
    assert ([x] + t)[1..] == t;
  }

  /** Joining parts whose first part is not empty starts with that part's
      first character, followed by the join with that character removed. */
  lemma JoinFirstChar(parts: seq<string>, sep: string)
    requires |parts| >= 1 && parts[0] != []
    ensures Join(parts, sep) == [parts[0][0]] + Join([parts[0][1..]] + parts[1..], sep)
  {
    var shorter := [parts[0][1..]] + parts[1..];
    assert shorter[1..] == parts[1..];
    assert parts[0] == [parts[0][0]] + parts[0][1..];
  }

  function Last<T>(xs: seq<T>): T
    requires xs != []
  {
    xs[|xs| - 1]
  }

  // ---------------------------------------------------------------------------
  // The substring test `needle in hay`
  // ---------------------------------------------------------------------------

  /** Python's `needle in hay` for strings, scanning start positions left to right. */
  function Contains(hay: string, needle: string): bool
  {
    needle <= hay || (hay != [] && Contains(hay[1..], needle))
  }

  /** `needle` occurs in `hay` starting at index `i`. */
  predicate OccursAt(hay: string, needle: string, i: int)
  {
    0 <= i <= |hay| - |needle| && hay[i..i + |needle|] == needle
  }

  /** `needle in hay` holds exactly when `needle` occurs at some position of `hay`. */
  lemma ContainsAt(hay: string, needle: string)
    ensures Contains(hay, needle) <==> exists i :: OccursAt(hay, needle, i)
  {
    if Contains(hay, needle) {
      ContainsFound(hay, needle);
    }
    if exists i :: OccursAt(hay, needle, i) {
      var i :| OccursAt(hay, needle, i);
      OccursContains(hay, needle, i);
    }
  }

  lemma {:induction false} ContainsFound(hay: string, needle: string)
    requires Contains(hay, needle)
    ensures exists i :: OccursAt(hay, needle, i)
  {
    if needle <= hay {
      assert OccursAt(hay, needle, 0);
    } else {
      ContainsFound(hay[1..], needle);
      var i :| OccursAt(hay[1..], needle, i);
      assert hay[1..][i..i + |needle|] == hay[i + 1..i + 1 + |needle|];
      assert OccursAt(hay, needle, i + 1);
    }
  }

  lemma {:induction false} OccursContains(hay: string, needle: string, i: int)
    requires OccursAt(hay, needle, i)
    ensures Contains(hay, needle)
    decreases i
  {
    if i > 0 {
      assert hay[1..][i - 1..i - 1 + |needle|] == hay[i..i + |needle|];
      OccursContains(hay[1..], needle, i - 1);
    } else {
      assert needle <= hay;
    }
  }

  /** A text that contains `needle` contains its first character. */
  lemma ContainsFirst(hay: string, needle: string)
    requires needle != [] && Contains(hay, needle)
    ensures needle[0] in hay
  {
    ContainsFound(hay, needle);
    var i :| OccursAt(hay, needle, i);
    assert hay[i] == hay[i..i + |needle|][0];
  }

  /** A text contains itself wherever it is embedded. */
  lemma ContainsInfix(a: string, needle: string, b: string)
    ensures Contains(a + needle + b, needle)
  {
    var hay := a + needle + b;
    assert hay[|a|..|a| + |needle|] == needle;
    OccursContains(hay, needle, |a|);
  }

  // ---------------------------------------------------------------------------
  // str.replace
  // ---------------------------------------------------------------------------

  /** Python's `s.replace(pat, rep)` for a non-empty `pat`: every occurrence,
      scanning left to right without overlaps, is replaced. */
  function Replace(s: string, pat: string, rep: string): string
    requires pat != []
  {
    if s == [] then []
    else if pat <= s then rep + Replace(s[|pat|..], pat, rep)
    else [s[0]] + Replace(s[1..], pat, rep)
  }

  /** When the first character of `pat` does not occur in `p`, the only
      occurrence of `pat` in `p + pat` is the final one. */
  lemma {:induction false} ReplaceSuffix(p: string, pat: string, rep: string)
    requires pat != [] && pat[0] !in p
    ensures Replace(p + pat, pat, rep) == p + rep
  {
    if p == [] {
      assert p + pat == pat;
      assert pat[|pat|..] == [];
    } else {
      assert !(pat <= p + pat) by { assert (p + pat)[0] == p[0] != pat[0]; }
      assert (p + pat)[1..] == p[1..] + pat;
      assert pat[0] !in p[1..] by { assert forall x :: x in p[1..] ==> x in p; }
      ReplaceSuffix(p[1..], pat, rep);
    }
  }

  // ---------------------------------------------------------------------------
  // Lines of a text file
  // ---------------------------------------------------------------------------

  /** Length of the first line of `s`, including its '\n' if it has one. */
  function LineLength(s: string): (k: nat)
    requires s != []
    ensures 1 <= k <= |s|
    ensures forall i :: 0 <= i < k - 1 ==> s[i] != '\n'
    ensures k < |s| ==> s[k - 1] == '\n'
  {
    if s[0] == '\n' || |s| == 1 then 1 else 1 + LineLength(s[1..])
  }

  /** `for line in f` on a file whose text is `s`: each line keeps its
      terminating '\n'; a last line without one is yielded as it is. Only
      '\n' ends a line here; the '\r' and '\r\n' that text mode's universal
      newlines also accept are not modelled. */
  function Lines(s: string): (ls: seq<string>)
    ensures forall k :: 0 <= k < |ls| ==> ls[k] != []
  {
    if s == [] then [] else [s[..LineLength(s)]] + Lines(s[LineLength(s)..])
  }

  function Concat(ls: seq<string>): string
  {
    if ls == [] then [] else ls[0] + Concat(ls[1..])
  }

  /** Iterating over lines loses nothing: the lines put back together are the text. */
  lemma {:induction false} LinesConcat(s: string)
    ensures Concat(Lines(s)) == s
  {
    if s != [] {
      var k := LineLength(s);
      LinesConcat(s[k..]);
      assert Lines(s)[1..] == Lines(s[k..]);
      assert s[..k] + s[k..] == s;
    }
  }

  /** `s` has a single '\n', at its end. */
  predicate TerminatedLine(s: string)
  {
    s != [] && s[|s| - 1] == '\n' && forall i :: 0 <= i < |s| - 1 ==> s[i] != '\n'
  }

  /** Lines that each end in their only '\n' come back one for one when the
      text they start is iterated over, whatever follows them. */
  lemma {:induction false} LinesOfTerminated(ls: seq<string>, rest: string)
    requires forall k :: 0 <= k < |ls| ==> TerminatedLine(ls[k])
    ensures Lines(Concat(ls) + rest) == ls + Lines(rest)
  {
    if ls == [] {
      assert Concat(ls) + rest == rest;
    } else {
      var l, more := ls[0], ls[1..];
      assert Concat(ls) + rest == l + (Concat(more) + rest);
      LinesCons(l, Concat(more) + rest);
      LinesOfTerminated(more, rest);
      assert ls + Lines(rest) == [l] + (more + Lines(rest));
    }
  }

  /** A terminated line in front of a text is that text's first line. */
  lemma LinesCons(l: string, t: string)
    requires TerminatedLine(l)
    ensures Lines(l + t) == [l] + Lines(t)
  {
    LineLengthOf(l, t);
    assert (l + t)[..|l|] == l && (l + t)[|l|..] == t;
  }

  lemma {:induction false} ConcatAppend(a: seq<string>, b: seq<string>)
    ensures Concat(a + b) == Concat(a) + Concat(b)
  {
    if a == [] {
      assert a + b == b;
    } else {
      assert (a + b)[1..] == a[1..] + b;
      ConcatAppend(a[1..], b);
    }
  }

  lemma {:induction false} LineLengthOf(l: string, rest: string)
    requires TerminatedLine(l)
    ensures LineLength(l + rest) == |l|
  {
    if |l| > 1 {
      assert (l + rest)[1..] == l[1..] + rest;
      assert l[1..][|l| - 2] == l[|l| - 1];
      LineLengthOf(l[1..], rest);
    }
  }

  /** The first four lines of a text, and the rest. */
  lemma ConcatFour(h: seq<string>)
    requires |h| >= 4
    ensures Concat(h) == h[0] + (h[1] + (h[2] + (h[3] + Concat(h[4..]))))
  {
    assert h[1..][1..] == h[2..] && h[2..][1..] == h[3..] && h[3..][1..] == h[4..];
    assert Concat(h[3..]) == h[3] + Concat(h[4..]);
    assert Concat(h[2..]) == h[2] + Concat(h[3..]);
    assert Concat(h[1..]) == h[1] + Concat(h[2..]);
  }

  // ---------------------------------------------------------------------------
  // Regrouping concatenations
  // ---------------------------------------------------------------------------

  // Stated over variables, these spare the solver from regrouping long
  // literal texts at the places that need them.

  lemma Associates<T>(a: seq<T>, b: seq<T>, c: seq<T>)
    ensures a + (b + c) == (a + b) + c
  {
  }

  lemma Regroup5<T>(a: seq<T>, b: seq<T>, c: seq<T>, d: seq<T>, e: seq<T>)
    ensures a + b + c + d + e == a + (b + c) + (d + e)
    ensures a + b + c + d + e == a + ((b + c) + (d + e))
    ensures (a + b) + c + d + e == a + (b + (c + (d + e)))
  {
  }

  lemma Regroup6<T>(a: seq<T>, b: seq<T>, c: seq<T>, d: seq<T>, e: seq<T>, f: seq<T>)
    ensures a + b + c + d + e + f == a + b + (c + (d + e + f))
  {
  }

  /** A prefix of `q` is a prefix of anything `q` starts. */
  lemma PrefixExtends<T>(p: seq<T>, q: seq<T>, r: seq<T>)
    requires p <= q
    ensures p <= q + r
  {
    assert (q + r)[..|p|] == q[..|p|];
  }
}
