/** The Python string built-ins the catalog code is made of: str.isspace,
    str.strip(), str.split(sep), str.split(), str.join, str.lower(), the
    substring test `needle in haystack`, and int(str) in base 10. */
module Text {
  import opened Wrappers

  // ---------------------------------------------------------------------
  // Whitespace and str.strip()

  /** The characters for which Python's str.isspace() holds; strip() and
      split() without arguments treat exactly these as whitespace. */
  predicate IsSpace(c: char) {
    ('\t' <= c <= '\r') || ('\U{1C}' <= c <= ' ') || c == '\U{85}' || c == '\U{A0}'
    || c == '\U{1680}' || ('\U{2000}' <= c <= '\U{200A}') || c == '\U{2028}' || c == '\U{2029}'
    || c == '\U{202F}' || c == '\U{205F}' || c == '\U{3000}'
  }

  predicate AllSpace(s: string) {
    forall i :: 0 <= i < |s| ==> IsSpace(s[i])
  }

  predicate NoSpace(s: string) {
    forall i :: 0 <= i < |s| ==> !IsSpace(s[i])
  }

  /** Neither starts nor ends with whitespace. */
  predicate IsStripped(s: string) {
    s == [] || (!IsSpace(s[0]) && !IsSpace(s[|s| - 1]))
  }

  /** The number of leading whitespace characters of s. */
  function LeadingSpace(s: string): (n: nat)
    ensures n <= |s| && AllSpace(s[..n])
    ensures n < |s| ==> !IsSpace(s[n])
  {
    if |s| > 0 && IsSpace(s[0]) then
      var m := LeadingSpace(s[1..]);
      assert s[..1 + m] == [s[0]] + s[1..][..m];
      1 + m
    else 0
  }

  /** The length of s without its trailing whitespace. */
  function TrailingEdge(s: string): (n: nat)
    ensures n <= |s| && AllSpace(s[n..])
    ensures 0 < n ==> !IsSpace(s[n - 1])
  {
    if |s| > 0 && IsSpace(s[|s| - 1]) then
      var m := TrailingEdge(s[..|s| - 1]);
      assert s[m..] == s[..|s| - 1][m..] + [s[|s| - 1]];
      m
    else |s|
  }

  /** str.strip() with no argument: s with its leading and trailing
      whitespace removed. */
  function Strip(s: string): (r: string)
    ensures IsStripped(r)
    ensures r == [] <==> AllSpace(s)
  {
    var i := LeadingSpace(s);
    if i == |s| then
      assert s[..i] == s;
      []
    else
      var j := TrailingEdge(s);
      assert i < j;
      s[i..j]
  }

  /** strip() removes whitespace from the two ends and nothing else. */
  lemma StripParts(s: string) returns (pre: string, post: string)
    ensures AllSpace(pre) && AllSpace(post)
    ensures s == pre + Strip(s) + post
  {
    var i := LeadingSpace(s);
    if i == |s| {
      assert s[..i] == s;
      pre, post := s, [];
    } else {
      var j := TrailingEdge(s);
      assert i < j;
      pre, post := s[..i], s[j..];
      assert s == s[..i] + s[i..j] + s[j..];
    }
  }

  /** part is core with some whitespace before and after it. */
  ghost predicate StrippedFrom(part: string, core: string) {
    exists pre, post :: AllSpace(pre) && AllSpace(post) && part == pre + core + post
  }

  /** strip() leaves what it removed from the ends as whitespace. */
  lemma StripFrom(s: string)
    ensures StrippedFrom(s, Strip(s))
  {
    var pre, post := StripParts(s);
  }

  /** Any split of s into whitespace, a stripped core and whitespace is the
      one strip() finds. */
  lemma StripOf(pre: string, core: string, post: string)
    requires AllSpace(pre) && AllSpace(post) && IsStripped(core)
    ensures Strip(pre + core + post) == core
  {
    var s := pre + core + post;
    if core != [] {
      var m := LeadingSpace(s);
      var n := TrailingEdge(s);
      var e := |pre| + |core|;
      assert s[|pre|] == core[0] && s[e - 1] == core[|core| - 1];
      assert m == |pre|;
      assert n == e;
      assert s[m..n] == core;
    } else {
      assert forall i :: 0 <= i < |s| ==> IsSpace(s[i]) by {
        forall i | 0 <= i < |s| ensures IsSpace(s[i]) {
          if i < |pre| { assert s[i] == pre[i]; } else { assert s[i] == post[i - |pre|]; }
        }
      }
    }
  }

  lemma StripIdempotent(s: string)
    ensures Strip(Strip(s)) == Strip(s)
  {
    var r := Strip(s);
    StripOf([], r, []);
    assert [] + r + [] == r;
  }

  /** A stripped string is its own strip(). */
  lemma StripStripped(s: string)
    requires IsStripped(s)
    ensures Strip(s) == s
  {
    StripOf([], s, []);
    assert [] + s + [] == s;
  }

  /** strip() removes only whitespace, so it keeps every other character. */
  lemma StripKeepsCount(s: string, c: char)
    requires !IsSpace(c)
    ensures multiset(Strip(s))[c] == multiset(s)[c]
  {
    var r := Strip(s);
    var pre, post := StripParts(s);
    NoneOfInSpace(pre, c);
    NoneOfInSpace(post, c);
    assert multiset(s) == multiset(pre) + multiset(r) + multiset(post);
  }

  lemma NoneOfInSpace(s: string, c: char)
    requires AllSpace(s) && !IsSpace(c)
    ensures multiset(s)[c] == 0
  {
    assert c !in s;
  }

  // ---------------------------------------------------------------------
  // str.join and str.split(sep)

  /** sep.join(parts). */
  function Join(parts: seq<string>, sep: string): string
  {
    if parts == [] then []
    else if |parts| == 1 then parts[0]
    else parts[0] + sep + Join(parts[1..], sep)
  }

  /** str.split(sep) for a one-character separator: the pieces between the
      occurrences of sep, in order, empty pieces included ("" gives [""]). */
  function Split(s: string, sep: char): (r: seq<string>)
    ensures |r| >= 1
    decreases |s|
  {
    if s == [] then [[]]
    else
      var rest := Split(s[1..], sep);
      if s[0] == sep then [[]] + rest
      else [[s[0]] + rest[0]] + rest[1..]
  }

  /** One more piece than separators, and no separator inside a piece. */
  lemma {:induction false} SplitPieces(s: string, sep: char)
    ensures |Split(s, sep)| == multiset(s)[sep] + 1
    ensures forall k :: 0 <= k < |Split(s, sep)| ==> sep !in Split(s, sep)[k]
    decreases |s|
  {
    if s != [] {
      SplitPieces(s[1..], sep);
      assert s == [s[0]] + s[1..];
      assert multiset(s)[sep] == multiset(s[1..])[sep] + (if s[0] == sep then 1 else 0);
      var rest := Split(s[1..], sep);
      if s[0] != sep {
        var r := Split(s, sep);
        assert r[0] == [s[0]] + rest[0];
        assert forall k :: 1 <= k < |r| ==> r[k] == rest[k];
      }
    }
  }

  lemma JoinCons(x: string, rest: seq<string>, sep: string)
    ensures Join([x] + rest, sep) == if rest == [] then x else x + sep + Join(rest, sep)
  {
    assert ([x] + rest)[1..] == rest;
  }

  /** Joining the pieces of a split with the separator gives back the string. */
  lemma {:induction false} JoinOfSplit(s: string, sep: char)
    ensures Join(Split(s, sep), [sep]) == s
    decreases |s|
  {
    if s != [] {
      var rest := Split(s[1..], sep);
      JoinOfSplit(s[1..], sep);
      if s[0] == sep {
        JoinEmptyFirst(rest, [sep]);
      } else {
        JoinGrowFirst(s[0], rest, [sep]);
      }
      assert s == [s[0]] + s[1..];
    }
  }

  /** An empty first piece: the join starts with the separator. */
  lemma JoinEmptyFirst(rest: seq<string>, sep: string)
    requires rest != []
    ensures Join([[]] + rest, sep) == sep + Join(rest, sep)
  {
    JoinCons([], rest, sep);
    assert [] + sep == sep;
  }

  /** One more character at the front of the first piece. */
  lemma JoinGrowFirst(c: char, rest: seq<string>, sep: string)
    requires rest != []
    ensures Join([[c] + rest[0]] + rest[1..], sep) == [c] + Join(rest, sep)
  {
    JoinCons([c] + rest[0], rest[1..], sep);
    JoinCons(rest[0], rest[1..], sep);
    assert rest == [rest[0]] + rest[1..];
  }


  lemma {:induction false} SplitNoSeparator(s: string, sep: char)
    requires sep !in s
    ensures Split(s, sep) == [s]
    decreases |s|
  {
    if s != [] {
      assert s == [s[0]] + s[1..];
      SplitNoSeparator(s[1..], sep);
    }
  }

  lemma {:induction false} SplitAfterPiece(a: string, sep: char, b: string)
    requires sep !in a
    ensures Split(a + [sep] + b, sep) == [a] + Split(b, sep)
    decreases |a|
  {
    var s := a + [sep] + b;
    if a == [] {
      assert s == [sep] + b && s[1..] == b;
    } else {
      assert s[1..] == a[1..] + [sep] + b;
      SplitAfterPiece(a[1..], sep, b);
      assert [a[0]] + a[1..] == a;
    }
  }

  /** Splitting a join on a separator that occurs in no piece gives back the
      pieces: the other half of the round trip JoinOfSplit states. */
  lemma {:induction false} SplitOfJoin(parts: seq<string>, sep: char)
    requires |parts| >= 1
    requires forall k :: 0 <= k < |parts| ==> sep !in parts[k]
    ensures Split(Join(parts, [sep]), sep) == parts
    decreases |parts|
  {
    if |parts| == 1 {
      SplitNoSeparator(parts[0], sep);
    } else {
      SplitOfJoin(parts[1..], sep);
      SplitAfterPiece(parts[0], sep, Join(parts[1..], [sep]));
      assert parts == [parts[0]] + parts[1..];
    }
  }

  // ---------------------------------------------------------------------
  // str.split() with no argument

  /** The length of the run of non-whitespace characters s starts with. */
  function LeadingWord(s: string): (n: nat)
    ensures n <= |s| && NoSpace(s[..n])
    ensures n < |s| ==> IsSpace(s[n])
  {
    if |s| > 0 && !IsSpace(s[0]) then
      var m := LeadingWord(s[1..]);
      assert s[..1 + m] == [s[0]] + s[1..][..m];
      1 + m
    else 0
  }

  /** A run of non-blanks ending at a blank or at the end is the leading word. */
  lemma {:induction false} LeadingWordIs(s: string, n: nat)
    requires n <= |s| && NoSpace(s[..n])
    requires n < |s| ==> IsSpace(s[n])
    ensures LeadingWord(s) == n
    decreases n
  {
    if n > 0 {
      assert s[..n][0] == s[0];
      assert s[1..][..n - 1] == s[..n][1..];
      assert n - 1 < |s[1..]| ==> s[1..][n - 1] == s[n];
      LeadingWordIs(s[1..], n - 1);
    }
  }

  /** str.split(): the maximal runs of non-whitespace characters, in order;
      leading, trailing and repeated whitespace produce no empty words. */
  function Words(s: string): seq<string>
    decreases |s|
  {
    if s == [] then []
    else if IsSpace(s[0]) then Words(s[1..])
    else
      var n := LeadingWord(s);
      [s[..n]] + Words(s[n..])
  }

  /** Words are non-empty and hold no whitespace; there are none exactly
      when the text is all whitespace; a text starting with a non-blank
      starts with its first word. */
  lemma {:induction false} WordsShape(s: string)
    ensures forall k :: 0 <= k < |Words(s)| ==> Words(s)[k] != [] && NoSpace(Words(s)[k])
    ensures Words(s) == [] <==> AllSpace(s)
    ensures s != [] && !IsSpace(s[0]) ==> Words(s) != [] && Words(s)[0][0] == s[0] && StartsWith(s, Words(s)[0])
    decreases |s|
  {
    if s != [] {
      if IsSpace(s[0]) {
        WordsShape(s[1..]);
        assert AllSpace(s) <==> AllSpace(s[1..]) by {
          if AllSpace(s[1..]) {
            forall i | 0 < i < |s| ensures IsSpace(s[i]) { assert s[i] == s[1..][i - 1]; }
          }
        }
      } else {
        var n := LeadingWord(s);
        WordsShape(s[n..]);
        assert s[..n][0] == s[0];
        assert Words(s)[0] == s[..n];
        assert Words(s)[1..] == Words(s[n..]);
      }
    }
  }

  lemma WordsOfWord(w: string)
    requires w != [] && NoSpace(w)
    ensures Words(w) == [w]
  {
    assert w[..|w|] == w;
    LeadingWordIs(w, |w|);
    assert w[|w|..] == [];
  }

  lemma {:induction false} WordsConcat(a: string, c: char, b: string)
    requires IsSpace(c)
    ensures Words(a + [c] + b) == Words(a) + Words(b)
    decreases |a|
  {
    var s := a + [c] + b;
    if a == [] {
      assert s == [c] + b && s[1..] == b;
    } else if IsSpace(a[0]) {
      assert s[1..] == a[1..] + [c] + b;
      WordsConcat(a[1..], c, b);
    } else {
      var n := LeadingWord(a);
      assert s[..n] == a[..n];
      assert s[n] == if n < |a| then a[n] else c;
      LeadingWordIs(s, n);
      assert s[n..] == a[n..] + [c] + b;
      WordsConcat(a[n..], c, b);
    }
  }




  // ---------------------------------------------------------------------
  // str.lower()

  predicate IsUpper(c: char) {
    'A' <= c <= 'Z'
  }

  function LowerChar(c: char): char {
    if IsUpper(c) then (c as int + 32) as char else c
  }

  /** str.lower(), on the ASCII letters. */
  function Lower(s: string): (r: string)
    ensures |r| == |s|
    ensures forall i :: 0 <= i < |r| ==> !IsUpper(r[i])
    ensures forall i :: 0 <= i < |s| && !IsUpper(s[i]) ==> r[i] == s[i]
    ensures forall i :: 0 <= i < |s| && IsUpper(s[i]) ==> r[i] as int == s[i] as int + 32
  {
    seq(|s|, i requires 0 <= i < |s| => LowerChar(s[i]))
  }

  lemma LowerIdempotent(s: string)
    ensures Lower(Lower(s)) == Lower(s)
  {
  }

  lemma LowerConcat(a: string, b: string)
    ensures Lower(a + b) == Lower(a) + Lower(b)
  {
    assert forall i :: 0 <= i < |a| + |b| ==> Lower(a + b)[i] == (Lower(a) + Lower(b))[i];
  }

  /** Lowering changes no whitespace character and makes none. */
  lemma LowerKeepsSpace(s: string)
    ensures forall i :: 0 <= i < |s| ==> (IsSpace(Lower(s)[i]) <==> IsSpace(s[i]))
  {
  }

  // ---------------------------------------------------------------------
  // Substring containment

  predicate StartsWith(s: string, prefix: string) {
    |prefix| <= |s| && s[..|prefix|] == prefix
  }

  /** Python's `needle in haystack` for two strings. */
  predicate Contains(haystack: string, needle: string)
    decreases |haystack|
  {
    StartsWith(haystack, needle) || (haystack != [] && Contains(haystack[1..], needle))
  }

  /** The containment test finds the needle exactly when it occurs at some
      position of the haystack. */
  lemma {:induction false} ContainsAt(haystack: string, needle: string)
    ensures Contains(haystack, needle) <==>
            exists i :: 0 <= i <= |haystack| && StartsWith(haystack[i..], needle)
    decreases |haystack|
  {
    assert haystack[0..] == haystack;
    if haystack != [] {
      ContainsAt(haystack[1..], needle);
      if Contains(haystack[1..], needle) {
        var i :| 0 <= i <= |haystack[1..]| && StartsWith(haystack[1..][i..], needle);
        assert haystack[1..][i..] == haystack[i + 1..];
      }
      if exists i :: 0 <= i <= |haystack| && StartsWith(haystack[i..], needle) {
        var i :| 0 <= i <= |haystack| && StartsWith(haystack[i..], needle);
        if i > 0 {
          assert haystack[1..][i - 1..] == haystack[i..];
        }
      }
    }
  }

  lemma {:induction false} ContainsInRight(a: string, b: string, needle: string)
    requires Contains(b, needle)
    ensures Contains(a + b, needle)
    decreases |a|
  {
    if a != [] {
      assert (a + b)[1..] == a[1..] + b;
      ContainsInRight(a[1..], b, needle);
    } else {
      assert a + b == b;
    }
  }

  lemma {:induction false} ContainsInLeft(a: string, b: string, needle: string)
    requires Contains(a, needle)
    ensures Contains(a + b, needle)
    decreases |a|
  {
    if StartsWith(a, needle) {
      assert (a + b)[..|needle|] == a[..|needle|];
    } else {
      assert (a + b)[1..] == a[1..] + b;
      ContainsInLeft(a[1..], b, needle);
    }
  }

  /** Every piece of a join occurs in it. */
  lemma {:induction false} ContainsPiece(parts: seq<string>, sep: string, k: nat)
    requires k < |parts|
    ensures Contains(Join(parts, sep), parts[k])
    decreases |parts|
  {
    if |parts| == 1 {
      assert StartsWith(parts[0], parts[0]);
    } else if k == 0 {
      assert StartsWith(parts[0], parts[0]);
      ContainsInLeft(parts[0], sep + Join(parts[1..], sep), parts[0]);
      assert parts[0] + sep + Join(parts[1..], sep) == parts[0] + (sep + Join(parts[1..], sep));
    } else {
      ContainsPiece(parts[1..], sep, k - 1);
      ContainsInRight(parts[0] + sep, Join(parts[1..], sep), parts[k]);
    }
  }

  /** Lowering both sides keeps an occurrence. */
  lemma {:induction false} ContainsLower(haystack: string, needle: string)
    requires Contains(haystack, needle)
    ensures Contains(Lower(haystack), Lower(needle))
    decreases |haystack|
  {
    if StartsWith(haystack, needle) {
      assert Lower(haystack)[..|needle|] == Lower(needle);
    } else {
      ContainsLower(haystack[1..], needle);
      assert Lower(haystack)[1..] == Lower(haystack[1..]);
    }
  }


  // ---------------------------------------------------------------------
  // int(str) in base 10

  predicate IsDigit(c: char) {
    '0' <= c <= '9'
  }

  /** The digit part of an integer literal int() accepts: ASCII digits, with
      single underscores allowed between two digits ("1_000"). */
  predicate IsDigitRun(b: string)
    decreases |b|
  {
    && |b| > 0
    && IsDigit(b[0])
    && (|b| == 1 || if b[1] == '_' then IsDigitRun(b[2..]) else IsDigitRun(b[1..]))
  }

  lemma {:induction false} DigitRunChars(b: string)
    requires IsDigitRun(b)
    ensures IsDigit(b[|b| - 1])
    ensures forall i :: 0 <= i < |b| ==> IsDigit(b[i]) || b[i] == '_'
    decreases |b|
  {
    if |b| > 1 {
      var k := if b[1] == '_' then 2 else 1;
      DigitRunChars(b[k..]);
      assert forall i :: k <= i < |b| ==> b[i] == b[k..][i - k];
    }
  }

  function DropUnderscores(b: string): (r: string)
    ensures |r| <= |b|
    ensures forall i :: 0 <= i < |r| ==> r[i] != '_'
  {
    if b == [] then []
    else if b[0] == '_' then DropUnderscores(b[1..])
    else [b[0]] + DropUnderscores(b[1..])
  }

  predicate AllDigits(d: string) {
    forall i :: 0 <= i < |d| ==> IsDigit(d[i])
  }

  /** The value of a string of decimal digits, most significant first. */
  function DigitsValue(d: string): nat
    requires AllDigits(d)
  {
    if d == [] then 0
    else 10 * DigitsValue(d[..|d| - 1]) + (d[|d| - 1] as int - '0' as int)
  }

  lemma {:induction false} DropUnderscoresOfRun(b: string)
    requires forall i :: 0 <= i < |b| ==> IsDigit(b[i]) || b[i] == '_'
    ensures AllDigits(DropUnderscores(b))
    decreases |b|
  {
    if b != [] {
      DropUnderscoresOfRun(b[1..]);
    }
  }

  /** int(s) in base 10: surrounding whitespace, an optional sign and a digit
      run; None where Python raises ValueError (Python also rejects the
      separators U+001C to U+001F around the literal, which this skips). */
  function ParseInt(s: string): (r: Option<int>)
    ensures r.Some? ==> Strip(s) != [] && IsDigit(Strip(s)[|Strip(s)| - 1])
    ensures r.Some? && r.value < 0 ==> Strip(s)[0] == '-'
  {
    var t := Strip(s);
    var signed := |t| > 0 && (t[0] == '+' || t[0] == '-');
    var body := if signed then t[1..] else t;
    if IsDigitRun(body) then
      DigitRunChars(body);
      DropUnderscoresOfRun(body);
      var v: int := DigitsValue(DropUnderscores(body));
      Some(if signed && t[0] == '-' then -v else v)
    else None
  }

  function DigitChar(d: nat): char
    requires d < 10
  {
    ('0' as int + d) as char
  }

  /** The decimal digits of n, as str(n) prints them for n >= 0. */
  function ShowNat(n: nat): (r: string)
    ensures r != [] && AllDigits(r)
    ensures DigitsValue(r) == n
  {
    if n < 10 then [DigitChar(n)]
    else
      var p := ShowNat(n / 10);
      var r := p + [DigitChar(n % 10)];
      assert r[..|r| - 1] == p;
      r
  }

  /** str(n) for an integer. */
  function ShowInt(n: int): string
  {
    if n < 0 then "-" + ShowNat(-n) else ShowNat(n)
  }

  lemma {:induction false} DropUnderscoresOfDigits(d: string)
    requires AllDigits(d)
    ensures DropUnderscores(d) == d
    decreases |d|
  {
    if d != [] {
      DropUnderscoresOfDigits(d[1..]);
      assert [d[0]] + d[1..] == d;
    }
  }

  lemma {:induction false} DigitsAreRun(d: string)
    requires d != [] && AllDigits(d)
    ensures IsDigitRun(d)
    decreases |d|
  {
    if |d| > 1 {
      DigitsAreRun(d[1..]);
    }
  }

  /** int() reads a plain run of digits as its value. */
  lemma ParseDigits(d: string)
    requires d != [] && AllDigits(d)
    ensures ParseInt(d) == Some(DigitsValue(d))
  {
    StripStripped(d);
    DropUnderscoresOfDigits(d);
    DigitsAreRun(d);
  }

  /** int() reads a minus sign and a run of digits as the negated value. */
  lemma ParseNegativeDigits(d: string)
    requires d != [] && AllDigits(d)
    ensures ParseInt("-" + d) == Some(-(DigitsValue(d) as int))
  {
    var s := "-" + d;
    assert s[|s| - 1] == d[|d| - 1];
    StripStripped(s);
    DropUnderscoresOfDigits(d);
    DigitsAreRun(d);
    assert s[1..] == d;
  }

  /** int() reads back what str() prints, for every integer. */
  lemma ParseShowInt(n: int)
    ensures ParseInt(ShowInt(n)) == Some(n)
  {
    if n < 0 {
      ParseNegativeDigits(ShowNat(-n));
    } else {
      ParseDigits(ShowNat(n));
    }
  }


  /** int() rejects a literal holding a character that is no digit, sign,
      underscore or whitespace. */
  lemma ParseIntRejects(s: string, i: nat)
    requires i < |s|
    requires !IsDigit(s[i]) && !IsSpace(s[i]) && s[i] !in "+-_"
    ensures ParseInt(s) == None
  {
    var t := Strip(s);
    var pre, post := StripParts(s);
    assert |pre| <= i < |pre| + |t|;
    assert t[i - |pre|] == s[i];
    var signed := |t| > 0 && (t[0] == '+' || t[0] == '-');
    var body := if signed then t[1..] else t;
    var j := if signed then i - |pre| - 1 else i - |pre|;
    assert 0 <= j < |body| && body[j] == s[i];
    if IsDigitRun(body) {
      DigitRunChars(body);
    }
  }
}
