/**
 * The JavaScript string operations the client relies on, stated over
 * `seq<char>` (code points): `trim`, `length` (UTF-16 code units),
 * `toLowerCase`, `includes`, `endsWith`, `split(' ')`, `join(' ')`,
 * `String(n)` for non-negative integers and `Number(s)` on decimal text.
 */
module Text {
  import opened Wrappers

  // ---------------------------------------------------------------------
  // trim
  // ---------------------------------------------------------------------

  /** ECMAScript WhiteSpace or LineTerminator: what `String.prototype.trim` strips. */
  predicate IsJsWhitespace(c: char) {
    || c == '\t' || c == '\n' || c == '\U{B}' || c == '\U{C}' || c == '\r'
    || c == ' ' || c == '\U{A0}' || c == '\U{1680}'
    || ('\U{2000}' <= c <= '\U{200A}')
    || c == '\U{2028}' || c == '\U{2029}' || c == '\U{202F}' || c == '\U{205F}'
    || c == '\U{3000}' || c == '\U{FEFF}'
  }

  ghost predicate AllWhitespace(s: string) {
    forall k :: 0 <= k < |s| ==> IsJsWhitespace(s[k])
  }

  /** Length of the longest all-whitespace prefix of `s`. */
  function LeadingWhitespace(s: string): (n: nat)
    ensures n <= |s|
    ensures AllWhitespace(s[..n])
    ensures n < |s| ==> !IsJsWhitespace(s[n])
  {
    if |s| == 0 || !IsJsWhitespace(s[0]) then 0
    else
      var m := LeadingWhitespace(s[1..]);
      assert s[..m + 1] == [s[0]] + s[1..][..m];
      1 + m
  }

  /** Length of the longest all-whitespace suffix of `s`. */
  function TrailingWhitespace(s: string): (n: nat)
    ensures n <= |s|
    ensures AllWhitespace(s[|s| - n..])
    ensures n < |s| ==> !IsJsWhitespace(s[|s| - n - 1])
  {
    if |s| == 0 || !IsJsWhitespace(s[|s| - 1]) then 0
    else
      var init := s[..|s| - 1];
      var m := TrailingWhitespace(init);
      assert s[|s| - (m + 1)..] == init[|init| - m..] + [s[|s| - 1]];
      1 + m
  }

  /** `s.trim()`: the slice of `s` left after stripping whitespace at both ends. */
  function Trim(s: string): (r: string)
    ensures |r| <= |s|
    ensures exists i :: 0 <= i <= |s| - |r| && s[i..i + |r|] == r
                        && AllWhitespace(s[..i]) && AllWhitespace(s[i + |r|..])
    ensures |r| > 0 ==> !IsJsWhitespace(r[0]) && !IsJsWhitespace(r[|r| - 1])
  {
    var i := LeadingWhitespace(s);
    var t := s[i..];
    var j := |t| - TrailingWhitespace(t);
    TrimSlices(s, i, j);
    t[..j]
  }

  /** The slices `Trim` cuts: whitespace before `i`, the kept middle, whitespace after it. */
  lemma TrimSlices(s: string, i: nat, j: nat)
    requires i == LeadingWhitespace(s) && j == |s[i..]| - TrailingWhitespace(s[i..])
    ensures 0 <= i <= |s| - j && s[i..i + j] == s[i..][..j]
    ensures AllWhitespace(s[..i]) && AllWhitespace(s[i + j..])
    ensures j > 0 ==> !IsJsWhitespace(s[i..][..j][0]) && !IsJsWhitespace(s[i..][..j][j - 1])
  {
    var t := s[i..];
    var k := TrailingWhitespace(t);
    assert j == |t| - k;
    assert t[|t| - k..] == t[j..];
    assert s[i + j..] == t[j..];
    if j > 0 {
      var r := t[..j];
      assert r[0] == s[i];
      assert r[j - 1] == t[|t| - k - 1];
    }
  }

  lemma TrimEmptyIff(s: string)
    ensures Trim(s) == "" <==> AllWhitespace(s)
  {
    if AllWhitespace(s) {
      assert LeadingWhitespace(s) == |s|;
    }
  }

  /** Trimming twice is trimming once. */
  lemma TrimIdempotent(s: string)
    ensures Trim(Trim(s)) == Trim(s)
  {
    var r := Trim(s);
    assert LeadingWhitespace(r) == 0;
    assert TrailingWhitespace(r) == 0;
  }

  /** A string with no whitespace at all is its own trim. */
  lemma TrimNoWhitespace(s: string)
    requires forall k :: 0 <= k < |s| ==> !IsJsWhitespace(s[k])
    ensures Trim(s) == s
  {
    assert LeadingWhitespace(s) == 0;
    assert TrailingWhitespace(s) == 0;
  }

  // ---------------------------------------------------------------------
  // length
  // ---------------------------------------------------------------------

  /** The positions of `s` holding a code point outside the Basic Multilingual Plane. */
  function AstralIndices(s: string): set<int> {
    set k | 0 <= k < |s| && s[k] > '\U{FFFF}'
  }

  /** `s.length`: UTF-16 code units, so a code point above U+FFFF counts twice. */
  function Utf16Length(s: string): (n: nat)
    ensures n == |s| + |AstralIndices(s)|
    ensures |s| <= n <= 2 * |s|
    ensures (forall k :: 0 <= k < |s| ==> s[k] <= '\U{FFFF}') ==> n == |s|
    decreases |s|
  {
    if |s| == 0 then 0
    else
      var init, last := s[..|s| - 1], s[|s| - 1];
      assert AstralIndices(s) == AstralIndices(init) + (if last > '\U{FFFF}' then {|s| - 1} else {});
      Utf16Length(init) + (if last > '\U{FFFF}' then 2 else 1)
  }

  // ---------------------------------------------------------------------
  // case
  // ---------------------------------------------------------------------

  predicate IsAsciiUpper(c: char) { 'A' <= c <= 'Z' }

  predicate IsAsciiLower(c: char) { 'a' <= c <= 'z' }

  /** U+212A KELVIN SIGN, the one code point besides `A`–`Z` that lower-cases to a single ASCII letter. */
  const KelvinSign: char := '\U{212A}'

  /** One code point lower-cased: `A`–`Z` and the Kelvin sign; every other code point is kept. */
  function LowerChar(c: char): (l: char)
    ensures IsAsciiUpper(c) ==> l == (c as int + 32) as char
    ensures c == KelvinSign ==> l == 'k'
    ensures !IsAsciiUpper(c) && c != KelvinSign ==> l == c
  {
    if IsAsciiUpper(c) then (c as int + 32) as char
    else if c == KelvinSign then 'k'
    else c
  }

  function UpperChar(c: char): char {
    if IsAsciiLower(c) then (c as int - 32) as char else c
  }

  /**
   * `s.toLowerCase()` as far as it can produce ASCII letters: `A`–`Z` and the
   * Kelvin sign. Other code points are kept.
   */
  function ToLower(s: string): (r: string)
    ensures |r| == |s|
    ensures forall k :: 0 <= k < |s| ==> r[k] == LowerChar(s[k])
    ensures forall k :: 0 <= k < |r| ==> !IsAsciiUpper(r[k])
  {
    if |s| == 0 then "" else [LowerChar(s[0])] + ToLower(s[1..])
  }

  /** Upper-casing of the ASCII letters, used to state that case does not matter; every other code point is kept. */
  function ToUpper(s: string): (r: string)
    ensures |r| == |s|
    ensures forall k :: 0 <= k < |s| ==> r[k] == UpperChar(s[k])
    ensures forall k :: 0 <= k < |r| ==> !IsAsciiLower(r[k])
  {
    if |s| == 0 then "" else [UpperChar(s[0])] + ToUpper(s[1..])
  }

  /** Lower-casing forgets any change of case. */
  lemma LowerForgetsCase(s: string)
    ensures ToLower(ToUpper(s)) == ToLower(s)
    ensures ToLower(ToLower(s)) == ToLower(s)
  {
    assert forall k :: 0 <= k < |s| ==> LowerChar(UpperChar(s[k])) == LowerChar(s[k]);
  }

  // ---------------------------------------------------------------------
  // includes / endsWith
  // ---------------------------------------------------------------------

  /** `s.includes(k)`. */
  function Contains(s: string, k: string): (b: bool)
    ensures k <= s ==> b
    ensures b ==> |k| <= |s|
    decreases |s|
  {
    k <= s || (|s| > 0 && Contains(s[1..], k))
  }

  /** An occurrence of `k` in `s` at offset `i`. */
  ghost predicate OccursAt(s: string, k: string, i: int) {
    0 <= i && i + |k| <= |s| && s[i..i + |k|] == k
  }

  lemma {:induction false} ContainsIff(s: string, k: string)
    ensures Contains(s, k) <==> exists i :: OccursAt(s, k, i)
    decreases |s|
  {
    if k <= s {
      assert OccursAt(s, k, 0);
    } else if |s| == 0 {
    } else {
      ContainsIff(s[1..], k);
      if Contains(s[1..], k) {
        var t := s[1..];
        var i :| OccursAt(t, k, i);
        var u, v := t[i..i + |k|], s[i + 1..i + 1 + |k|];
        assert forall j :: 0 <= j < |u| ==> u[j] == v[j];
        assert u == v;
        assert OccursAt(s, k, i + 1);
      }
      if i :| OccursAt(s, k, i) {
        if i > 0 {
          var t := s[1..];
          assert i - 1 + |k| <= |t|;
          var u, v := t[i - 1..i - 1 + |k|], s[i..i + |k|];
          assert forall j :: 0 <= j < |u| ==> u[j] == v[j];
          assert u == v;
          assert OccursAt(t, k, i - 1);
        }
      }
    }
  }

  /** `s.endsWith(c)` for a one-character suffix. */
  function EndsWith(s: string, c: char): (b: bool)
    ensures b <==> |s| > 0 && s == s[..|s| - 1] + [c]
  {
    |s| > 0 && s[|s| - 1] == c
  }

  // ---------------------------------------------------------------------
  // split / join
  // ---------------------------------------------------------------------

  /** `s.split(sep)` for a one-character separator: empty pieces are kept. */
  function Split(s: string, sep: char): (ws: seq<string>)
    ensures |ws| >= 1
    ensures forall k :: 0 <= k < |ws| ==> sep !in ws[k]
    ensures ws[0] <= s
    ensures |ws[0]| == |s| || s[|ws[0]|] == sep
  {
    if |s| == 0 then [""]
    else if s[0] == sep then [""] + Split(s[1..], sep)
    else
      var rest := Split(s[1..], sep);
      [[s[0]] + rest[0]] + rest[1..]
  }

  /** `ws.join(sep)`; the empty list joins to the empty string. */
  function Join(ws: seq<string>, sep: char): (s: string)
    ensures |ws| == 0 ==> s == ""
    ensures |ws| > 0 ==> ws[0] <= s
    ensures |ws| > 1 ==> |s| > |ws[0]| && s[|ws[0]|] == sep
  {
    if |ws| == 0 then ""
    else if |ws| == 1 then ws[0]
    else ws[0] + [sep] + Join(ws[1..], sep)
  }

  /** Splitting and re-joining gives back the original string. */
  lemma {:induction false} JoinSplit(s: string, sep: char)
    ensures Join(Split(s, sep), sep) == s
  {
    if |s| == 0 {
    } else if s[0] == sep {
      JoinSplit(s[1..], sep);
      var rest := Split(s[1..], sep);
      assert Split(s, sep) == [""] + rest;
      assert ([""] + rest)[1..] == rest;
      assert s == [sep] + s[1..];
    } else {
      JoinSplit(s[1..], sep);
      var rest := Split(s[1..], sep);
      var ws := [[s[0]] + rest[0]] + rest[1..];
      assert Split(s, sep) == ws;
      if |rest| == 1 {
        assert s == [s[0]] + s[1..];
      } else {
        assert ws[1..] == rest[1..];
        assert Join(rest, sep) == rest[0] + [sep] + Join(rest[1..], sep);
        assert s == [s[0]] + s[1..];
      }
    }
  }

  /** A first character other than the separator starts the first piece. */
  lemma SplitCons(h: char, s: string, sep: char)
    requires h != sep
    ensures Split([h] + s, sep) == [[h] + Split(s, sep)[0]] + Split(s, sep)[1..]
  {
    assert ([h] + s)[0] == h && ([h] + s)[1..] == s;
  }

  /** Splitting `w + t` where `w` holds no separator extends the first piece of `t`. */
  lemma {:induction false} SplitPrefix(w: string, t: string, sep: char)
    requires sep !in w
    ensures Split(w + t, sep) == [w + Split(t, sep)[0]] + Split(t, sep)[1..]
  {
    if |w| == 0 {
      var tail := Split(t, sep);
      assert w + t == t;
      assert w + tail[0] == tail[0];
      assert [tail[0]] + tail[1..] == tail;
    } else {
      var tail := Split(t, sep);
      var h, u := w[0], w[1..];
      assert w + t == [h] + (u + t);
      SplitCons(h, u + t, sep);
      SplitPrefix(u, t, sep);
      var rest := Split(u + t, sep);
      assert rest[0] == u + tail[0] && rest[1..] == tail[1..];
      assert w == [h] + u;
      assert [h] + (u + tail[0]) == w + tail[0];
    }
  }

  /** Joining pieces free of the separator and splitting again gives the pieces back. */
  lemma {:induction false} SplitJoin(ws: seq<string>, sep: char)
    requires |ws| >= 1
    requires forall k :: 0 <= k < |ws| ==> sep !in ws[k]
    ensures Split(Join(ws, sep), sep) == ws
  {
    if |ws| == 1 {
      SplitPrefix(ws[0], "", sep);
      assert ws[0] + "" == ws[0];
    } else {
      var rest := Join(ws[1..], sep);
      SplitJoin(ws[1..], sep);
      SplitPrefix(ws[0], [sep] + rest, sep);
      assert ws[0] + [sep] + rest == ws[0] + ([sep] + rest);
      assert ([sep] + rest)[1..] == rest;
      assert Split([sep] + rest, sep) == [""] + ws[1..];
      assert ws[0] + "" == ws[0];
    }
  }

  /** The truthy strings among `parts`, in order: `parts.filter(Boolean)`. */
  function TruthyParts(parts: seq<Option<string>>): (ws: seq<string>)
    ensures |ws| <= |parts|
    ensures forall k :: 0 <= k < |ws| ==> ws[k] != ""
    ensures forall k :: 0 <= k < |parts| && Truthy(parts[k]) ==> parts[k].value in ws
    ensures forall w :: w in ws ==> Some(w) in parts
    ensures |ws| == 0 <==> forall k :: 0 <= k < |parts| ==> !Truthy(parts[k])
  {
    if |parts| == 0 then []
    else
      var rest := TruthyParts(parts[1..]);
      assert forall k :: 1 <= k < |parts| ==> parts[k] == parts[1..][k - 1];
      if Truthy(parts[0]) then [parts[0].value] + rest else rest
  }

  /** What one part contributes to `parts.filter(Boolean)`: its string when truthy, nothing otherwise. */
  function Keep(p: Option<string>): (ws: seq<string>)
    ensures |ws| <= 1 && (|ws| == 1 <==> Truthy(p))
    ensures Truthy(p) ==> ws == [p.value]
  {
    if Truthy(p) then [p.value] else []
  }

  /** `parts.filter(Boolean)` written as a concatenation of what each part keeps. */
  function Kept(parts: seq<Option<string>>): seq<string>
    decreases |parts|
  {
    if |parts| == 0 then [] else Keep(parts[0]) + Kept(parts[1..])
  }

  lemma {:induction false} TruthyPartsIsKept(parts: seq<Option<string>>)
    ensures TruthyParts(parts) == Kept(parts)
    decreases |parts|
  {
    if |parts| > 0 {
      TruthyPartsIsKept(parts[1..]);
      if !Truthy(parts[0]) {
        assert Keep(parts[0]) + Kept(parts[1..]) == Kept(parts[1..]);
      }
    }
  }

  lemma {:induction false} KeptAppend(a: seq<Option<string>>, b: seq<Option<string>>)
    ensures Kept(a + b) == Kept(a) + Kept(b)
    decreases |a|
  {
    if |a| == 0 {
      assert a + b == b;
    } else {
      assert (a + b)[0] == a[0] && (a + b)[1..] == a[1..] + b;
      KeptAppend(a[1..], b);
      var x, y, z := Keep(a[0]), Kept(a[1..]), Kept(b);
      assert x + (y + z) == (x + y) + z;
    }
  }

  /** Filtering distributes over concatenation, so the truthy parts keep their order and multiplicity. */
  lemma TruthyPartsAppend(a: seq<Option<string>>, b: seq<Option<string>>)
    ensures TruthyParts(a + b) == TruthyParts(a) + TruthyParts(b)
  {
    KeptAppend(a, b);
    TruthyPartsIsKept(a + b);
    TruthyPartsIsKept(a);
    TruthyPartsIsKept(b);
  }

  /** A single part is kept exactly when it is truthy. */
  lemma TruthyPartsSingle(p: Option<string>)
    ensures TruthyParts([p]) == Keep(p)
  {
    TruthyPartsIsKept([p]);
    KeptSingle(p);
  }

  lemma KeptSingle(p: Option<string>)
    ensures Kept([p]) == Keep(p)
  {
    assert [p][1..] == [];
    assert Keep(p) + [] == Keep(p);
  }

  /** The three address levels: `[a, b, c].filter(Boolean)` keeps the truthy ones, in that order. */
  lemma TruthyPartsThree(a: Option<string>, b: Option<string>, c: Option<string>)
    ensures TruthyParts([a, b, c]) == Keep(a) + Keep(b) + Keep(c)
  {
    var bc: seq<Option<string>> := [b, c];
    assert [a, b, c] == [a] + bc;
    assert bc == [b] + [c];
    KeptAppend([a], bc);
    KeptAppend([b], [c]);
    KeptSingle(a);
    KeptSingle(b);
    KeptSingle(c);
    var x, y, z := Keep(a), Keep(b), Keep(c);
    assert x + (y + z) == x + y + z;
    TruthyPartsIsKept([a, b, c]);
  }

  /** Joining non-empty pieces gives the empty string exactly when there are no pieces. */
  lemma {:induction false} JoinEmptyIff(ws: seq<string>, sep: char)
    requires forall k :: 0 <= k < |ws| ==> ws[k] != ""
    ensures Join(ws, sep) == "" <==> |ws| == 0
  {
    if |ws| >= 2 {
      assert |Join(ws, sep)| >= |ws[0]| + 1;
    }
  }

  /** `parts.filter(Boolean).join(' ')`: empty exactly when no part is truthy. */
  function JoinTruthy(parts: seq<Option<string>>): (s: string)
    ensures s == "" <==> forall k :: 0 <= k < |parts| ==> !Truthy(parts[k])
  {
    JoinEmptyIff(TruthyParts(parts), ' ');
    Join(TruthyParts(parts), ' ')
  }

  /** The label of three parts is the space-join of the truthy ones, in order. */
  lemma JoinTruthyOfThree(a: Option<string>, b: Option<string>, c: Option<string>)
    ensures JoinTruthy([a, b, c]) == Join(Keep(a) + Keep(b) + Keep(c), ' ')
  {
    TruthyPartsThree(a, b, c);
  }

  /** Three pieces joined with one separator character between neighbours. */
  lemma JoinOfThree(a: string, b: string, c: string, sep: char)
    ensures Join([a, b, c], sep) == a + [sep] + b + [sep] + c
  {
    var ws := [a, b, c];
    assert ws[1..] == [b, c];
    assert [b, c][1..] == [c];
    assert Join([b, c], sep) == b + [sep] + c;
    assert Join(ws, sep) == a + [sep] + (b + [sep] + c);
  }

  /** Three truthy parts are joined with single spaces, in order. */
  lemma JoinTruthyThree(a: string, b: string, c: string)
    requires a != "" && b != "" && c != ""
    ensures JoinTruthy([Some(a), Some(b), Some(c)]) == a + " " + b + " " + c
  {
    TruthyPartsThree(Some(a), Some(b), Some(c));
    assert TruthyParts([Some(a), Some(b), Some(c)]) == [a, b, c];
    JoinOfThree(a, b, c, ' ');
  }

  /** When the parts hold no spaces, splitting the label on spaces recovers the truthy parts. */
  lemma SplitJoinTruthy(parts: seq<Option<string>>)
    requires exists k :: 0 <= k < |parts| && Truthy(parts[k])
    requires forall k :: 0 <= k < |parts| && parts[k].Some? ==> ' ' !in parts[k].value
    ensures Split(JoinTruthy(parts), ' ') == TruthyParts(parts)
  {
    var ws := TruthyParts(parts);
    forall k | 0 <= k < |ws| ensures ' ' !in ws[k] {
      assert Some(ws[k]) in parts;
    }
    SplitJoin(ws, ' ');
  }

  // ---------------------------------------------------------------------
  // numbers
  // ---------------------------------------------------------------------

  predicate IsDigit(c: char) { '0' <= c <= '9' }

  predicate IsNonZeroDigit(c: char) { '1' <= c <= '9' }

  predicate AllDigits(s: string) {
    forall k :: 0 <= k < |s| ==> IsDigit(s[k])
  }

  function DigitValue(c: char): nat
    requires IsDigit(c)
  {
    c as int - '0' as int
  }

  function DigitChar(d: nat): (c: char)
    requires d < 10
    ensures IsDigit(c) && DigitValue(c) == d
  {
    (d + '0' as int) as char
  }

  /** The value of a run of decimal digits, most significant first. */
  function DigitsValue(s: string): nat
    requires AllDigits(s)
  {
    if |s| == 0 then 0 else 10 * DigitsValue(s[..|s| - 1]) + DigitValue(s[|s| - 1])
  }

  /** Digits that are all `0` are worth nothing. */
  lemma {:induction false} NonZeroValueHasNonZeroDigit(u: string)
    requires AllDigits(u) && DigitsValue(u) != 0
    ensures exists k :: 0 <= k < |u| && IsNonZeroDigit(u[k])
  {
    var init := u[..|u| - 1];
    if !IsNonZeroDigit(u[|u| - 1]) {
      NonZeroValueHasNonZeroDigit(init);
      var k :| 0 <= k < |init| && IsNonZeroDigit(init[k]);
      assert u[k] == init[k];
    }
  }

  /** `String(n)` for a non-negative integer below 10^21: its decimal digits. */
  function NatToString(n: nat): (s: string)
    ensures |s| >= 1 && AllDigits(s)
    ensures s[0] == '0' ==> s == "0"
  {
    if n < 10 then [DigitChar(n)] else NatToString(n / 10) + [DigitChar(n % 10)]
  }

  /** Reading back the digits of `String(n)` gives `n`. */
  lemma {:induction false} NatToStringRoundTrip(n: nat)
    ensures DigitsValue(NatToString(n)) == n
  {
    if n >= 10 {
      NatToStringRoundTrip(n / 10);
      var s := NatToString(n);
      assert s[..|s| - 1] == NatToString(n / 10);
    }
  }

  /** A JavaScript number as far as this client stores them: NaN or an integer. */
  datatype JsNumber = NaN | Finite(value: int) {
    /** JavaScript truthiness: neither NaN nor zero. */
    predicate IsTruthy() { Finite? && value != 0 }
  }

  /**
   * `Number(s)` on decimal integer text: surrounding whitespace is ignored, a
   * blank string is 0, an optional sign is followed by one or more digits, and
   * anything else is NaN.
   */
  function ToNumber(s: string): (r: JsNumber)
    ensures AllWhitespace(s) ==> r == Finite(0)
    ensures r.NaN? ==> Trim(s) != ""
    ensures r.Finite? && !AllWhitespace(s) ==> exists k :: 0 <= k < |s| && IsDigit(s[k])
    ensures r.IsTruthy() ==> exists k :: 0 <= k < |s| && IsNonZeroDigit(s[k])
  {
    var t := Trim(s);
    TrimEmptyIff(s);
    if t == "" then Finite(0)
    else if AllDigits(t) then
      assert t[0..] == t;
      NumeralDigits(s, 0);
      Finite(DigitsValue(t))
    else if |t| > 1 && t[0] == '-' && AllDigits(t[1..]) then
      NumeralDigits(s, 1);
      Finite(-(DigitsValue(t[1..]) as int))
    else if |t| > 1 && t[0] == '+' && AllDigits(t[1..]) then
      NumeralDigits(s, 1);
      Finite(DigitsValue(t[1..]))
    else NaN
  }

  /** The digits of a numeral after a sign of length `o` sit somewhere in the untrimmed text. */
  lemma NumeralDigits(s: string, o: nat)
    requires o < |Trim(s)| && AllDigits(Trim(s)[o..])
    ensures exists j :: 0 <= j < |s| && IsDigit(s[j])
    ensures DigitsValue(Trim(s)[o..]) != 0 ==> exists j :: 0 <= j < |s| && IsNonZeroDigit(s[j])
  {
    var t := Trim(s);
    var u := t[o..];
    var i :| 0 <= i <= |s| - |t| && s[i..i + |t|] == t
             && AllWhitespace(s[..i]) && AllWhitespace(s[i + |t|..]);
    assert s[i + o] == u[0];
    if DigitsValue(u) != 0 {
      NonZeroValueHasNonZeroDigit(u);
      var k :| 0 <= k < |u| && IsNonZeroDigit(u[k]);
      assert s[i + o + k] == u[k];
    }
  }

  /** `Number(String(n)) == n`. */
  lemma NumberOfString(n: nat)
    ensures ToNumber(NatToString(n)) == Finite(n)
  {
    var s := NatToString(n);
    TrimNoWhitespace(s);
    NatToStringRoundTrip(n);
  }
}
