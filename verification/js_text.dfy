/** The JavaScript string and number built-ins the core leans on:
    `String.prototype.trim`, `replace(/[$,]/g, '')`, `split('_')[0]`,
    `endsWith`, `parseFloat`, `parseInt(_, 10)` and `Number(_)` on text.
    Only decimal notation is modelled: exponents, `Infinity` and hex,
    octal or binary prefixes are not. */
module JsText {
  import opened Wrappers

  /** A JavaScript number: a finite value or NaN. */
  datatype JsNum = Finite(value: real) | NotANumber

  /** `isNaN(x) ? 0 : x`, and equally `x || 0` for a number. */
  function OrZero(n: JsNum): real {
    if n.Finite? then n.value else 0.0
  }

  /** ECMAScript WhiteSpace and LineTerminator code points, the set that
      `trim` removes and `parseFloat`/`parseInt` skip. */
  predicate IsWhite(c: char) {
    || c == ' ' || c == '\t' || c == '\n' || c == '\r'
    || c == '\U{000B}' || c == '\U{000C}' || c == '\U{00A0}' || c == '\U{FEFF}'
    || c == '\U{1680}' || ('\U{2000}' <= c <= '\U{200A}')
    || c == '\U{2028}' || c == '\U{2029}' || c == '\U{202F}' || c == '\U{205F}'
    || c == '\U{3000}'
  }

  predicate IsDigit(c: char) {
    '0' <= c <= '9'
  }

  predicate AllDigits(s: string) {
    forall i :: 0 <= i < |s| ==> IsDigit(s[i])
  }

  predicate IsBlank(s: string) {
    forall i :: 0 <= i < |s| ==> IsWhite(s[i])
  }

  /** `r` sits in `s` at offset `a` with nothing but white space before
      and after it. */
  predicate BlankAround(s: string, a: int, r: string) {
    0 <= a && a + |r| <= |s| && r == s[a..a + |r|] && IsBlank(s[..a]) && IsBlank(s[a + |r|..])
  }

  /** Drops leading white space. */
  function TrimStart(s: string): (r: string)
    ensures |r| <= |s| && r == s[|s| - |r|..]
    ensures IsBlank(s[..|s| - |r|])
    ensures r == [] || !IsWhite(r[0])
  {
    if |s| > 0 && IsWhite(s[0]) then
      var r := TrimStart(s[1..]);
      assert s[..|s| - |r|] == [s[0]] + s[1..][..|s| - 1 - |r|];
      r
    else s
  }

  /** Drops trailing white space. */
  function TrimEnd(s: string): (r: string)
    ensures |r| <= |s| && r == s[..|r|]
    ensures IsBlank(s[|r|..])
    ensures r == [] || !IsWhite(r[|r| - 1])
  {
    if |s| > 0 && IsWhite(s[|s| - 1]) then
      var r := TrimEnd(s[..|s| - 1]);
      assert s[|r|..] == s[..|s| - 1][|r|..] + [s[|s| - 1]];
      r
    else s
  }

  /** `s.trim()`: the longest slice of `s` that neither starts nor ends
      with white space, obtained by dropping only white space. */
  function Trim(s: string): (r: string)
    ensures |r| <= |s|
    ensures r == [] || (!IsWhite(r[0]) && !IsWhite(r[|r| - 1]))
    ensures r == [] <==> IsBlank(s)
    ensures exists a :: BlankAround(s, a, r)
  {
    var t := TrimStart(s);
    var r := TrimEnd(t);
    TrimSlice(s, t, r);
    r
  }

  /** What `Trim` keeps is a slice of the text with only white space on
      either side of it. */
  lemma {:induction false} TrimSlice(s: string, t: string, r: string)
    requires |t| <= |s| && t == s[|s| - |t|..] && IsBlank(s[..|s| - |t|])
    requires |r| <= |t| && r == t[..|r|] && IsBlank(t[|r|..])
    requires t == [] || !IsWhite(t[0])
    requires r == [] || !IsWhite(r[|r| - 1])
    ensures r == [] || (!IsWhite(r[0]) && !IsWhite(r[|r| - 1]))
    ensures r == [] <==> IsBlank(s)
    ensures exists a :: BlankAround(s, a, r)
  {
    var a := |s| - |t|;
    assert s[a + |r|..] == t[|r|..];
    assert r == s[a..a + |r|];
    if r == [] {
      assert s == s[..a] + t[|r|..];
    }
    assert BlankAround(s, a, r);
  }

  /** Text that neither starts nor ends with white space is left alone. */
  lemma TrimUnchanged(s: string)
    requires s == [] || (!IsWhite(s[0]) && !IsWhite(s[|s| - 1]))
    ensures Trim(s) == s
  {
    assert TrimStart(s) == s;
    assert TrimEnd(s) == s;
  }

  /** `!s.trim()`: the text is empty or white space only. */
  lemma TrimEmptyIffBlank(s: string)
    ensures Trim(s) == [] <==> IsBlank(s)
  {
  }

  /** `s.replace(/[$,]/g, '')`: every dollar sign and comma removed. */
  function StripCurrency(s: string): (r: string)
    ensures |r| <= |s|
    ensures forall i :: 0 <= i < |r| ==> r[i] != '$' && r[i] != ','
    ensures (forall i :: 0 <= i < |s| ==> s[i] != '$' && s[i] != ',') ==> r == s
    ensures |s| == 1 ==> r == (if s[0] == '$' || s[0] == ',' then [] else s)
  {
    if |s| == 0 then []
    else if s[0] == '$' || s[0] == ',' then StripCurrency(s[1..])
    else [s[0]] + StripCurrency(s[1..])
  }

  /** Stripping works piecewise: what is removed from one part of the text
      does not depend on the rest. */
  lemma {:induction false} StripCurrencyAppend(a: string, b: string)
    ensures StripCurrency(a + b) == StripCurrency(a) + StripCurrency(b)
    decreases |a|
  {
    if |a| == 0 {
      assert a + b == b;
    } else {
      assert (a + b)[1..] == a[1..] + b;
      StripCurrencyAppend(a[1..], b);
    }
  }

  /** Stripping one character ahead of the rest: a dollar sign or comma
      goes, anything else is kept in front of the stripped rest. Together
      with the one-character case of the contract this fixes the result
      for every text. */
  lemma StripCurrencyCons(c: char, s: string)
    ensures StripCurrency([c] + s) == (if c == '$' || c == ',' then [] else [c]) + StripCurrency(s)
  {
    StripCurrencyAppend([c], s);
  }

  /** Stripping twice strips nothing more. */
  lemma StripCurrencyIdempotent(s: string)
    ensures StripCurrency(StripCurrency(s)) == StripCurrency(s)
  {
  }

  /** `s.endsWith(suffix)`. */
  predicate EndsWith(s: string, suffix: string) {
    |suffix| <= |s| && s[|s| - |suffix|..] == suffix
  }

  /** `s.split(c)[0]`: the text before the first `c`, or all of `s`. */
  function BeforeFirst(s: string, c: char): (r: string)
    ensures |r| <= |s| && r == s[..|r|]
    ensures forall i :: 0 <= i < |r| ==> r[i] != c
    ensures |r| < |s| ==> s[|r|] == c
  {
    if |s| == 0 || s[0] == c then [] else [s[0]] + BeforeFirst(s[1..], c)
  }

  /** Text that does not contain `c` is recovered in front of any suffix
      that starts with `c`. */
  lemma {:induction false} BeforeFirstOfJoin(a: string, c: char, rest: string)
    requires forall i :: 0 <= i < |a| ==> a[i] != c
    ensures BeforeFirst(a + [c] + rest, c) == a
    decreases |a|
  {
    var s := a + [c] + rest;
    if |a| > 0 {
      assert s[1..] == a[1..] + [c] + rest;
      BeforeFirstOfJoin(a[1..], c, rest);
      assert a == [a[0]] + a[1..];
    }
  }

  // ---- decimal digits ------------------------------------------------------

  function DigitValue(c: char): nat
    requires IsDigit(c)
  {
    c as int - '0' as int
  }

  function DigitChar(d: nat): (c: char)
    requires d < 10
    ensures IsDigit(c) && DigitValue(c) == d
  {
    ('0' as int + d) as char
  }

  function Pow10(n: nat): nat {
    if n == 0 then 1 else 10 * Pow10(n - 1)
  }

  /** Length of the longest run of decimal digits at the start of `s`. */
  function DigitRun(s: string): (n: nat)
    ensures n <= |s|
    ensures AllDigits(s[..n])
    ensures n < |s| ==> !IsDigit(s[n])
  {
    if |s| > 0 && IsDigit(s[0]) then 1 + DigitRun(s[1..]) else 0
  }

  /** Value of a run of digits read as a base-10 integer. */
  function NatValue(ds: string): (v: nat)
    requires AllDigits(ds)
    ensures v < Pow10(|ds|)
  {
    if |ds| == 0 then 0
    else NatValue(ds[..|ds| - 1]) * 10 + DigitValue(ds[|ds| - 1])
  }

  /** Value of the digits after a decimal point: `0.d1d2d3...`. */
  function FracValue(ds: string): (v: real)
    requires AllDigits(ds)
    ensures 0.0 <= v < 1.0
  {
    if |ds| == 0 then 0.0
    else (DigitValue(ds[0]) as real + FracValue(ds[1..])) / 10.0
  }

  /** Decimal rendering of a natural number, most significant digit first. */
  function ShowNat(n: nat): (s: string)
    ensures |s| > 0 && AllDigits(s)
  {
    if n < 10 then [DigitChar(n)] else ShowNat(n / 10) + [DigitChar(n % 10)]
  }

  /** Reading back a rendered number gives the number. */
  lemma {:induction false} NatValueShowNat(n: nat)
    ensures NatValue(ShowNat(n)) == n
  {
    if n >= 10 {
      var s := ShowNat(n);
      assert s[..|s| - 1] == ShowNat(n / 10);
      NatValueShowNat(n / 10);
    }
  }

  /** The digit run of a rendered number stops exactly where the rendering
      ends, provided the following text does not start with a digit. */
  lemma {:induction false} DigitRunOfJoin(ds: string, rest: string)
    requires AllDigits(ds)
    requires rest == [] || !IsDigit(rest[0])
    ensures DigitRun(ds + rest) == |ds|
    decreases |ds|
  {
    if |ds| == 0 {
      assert ds + rest == rest;
    } else {
      assert (ds + rest)[1..] == ds[1..] + rest;
      DigitRunOfJoin(ds[1..], rest);
    }
  }

  /** A run made of digits only is read to its end. */
  lemma {:induction false} DigitRunOfDigits(ds: string)
    requires AllDigits(ds)
    ensures DigitRun(ds) == |ds| && ds[..|ds|] == ds
    decreases |ds|
  {
    if |ds| > 0 {
      DigitRunOfDigits(ds[1..]);
    }
  }

  // ---- number scanning -----------------------------------------------------

  /** Some character of `s` is a decimal digit. */
  predicate HasDigit(s: string) {
    exists i :: 0 <= i < |s| && IsDigit(s[i])
  }

  /** A number read from the front of a text, and how many characters it used. */
  datatype Scan = Scan(value: real, length: nat)

  function SignLength(s: string): nat {
    if |s| > 0 && (s[0] == '-' || s[0] == '+') then 1 else 0
  }

  function Signed(s: string, magnitude: real): real {
    if |s| > 0 && s[0] == '-' then -magnitude else magnitude
  }

  predicate HasPoint(body: string, at: nat) {
    at < |body| && body[at] == '.'
  }

  /** The digits after a decimal point standing at position `at`, if any. */
  function FractionDigits(body: string, at: nat): (f: string)
    requires at <= |body|
    ensures AllDigits(f)
    ensures !HasPoint(body, at) ==> f == []
  {
    if HasPoint(body, at) then body[at + 1..][..DigitRun(body[at + 1..])] else []
  }

  /** The longest prefix of the form `[+|-] digits [. digits]` with at least
      one digit, the grammar of a decimal StrDecimalLiteral. */
  function ScanDecimal(s: string): (r: Option<Scan>)
    ensures r.Some? ==> 0 < r.value.length <= |s|
    ensures r.Some? ==> HasDigit(s)
  {
    var signLen := SignLength(s);
    var body := s[signLen..];
    var intLen := DigitRun(body);
    var frac := FractionDigits(body, intLen);
    if intLen + |frac| == 0 then None
    else
      var magnitude := NatValue(body[..intLen]) as real + FracValue(frac);
      var used := signLen + intLen + (if HasPoint(body, intLen) then 1 + |frac| else 0);
      assert HasDigit(s) by {
        if intLen > 0 {
          assert body[..intLen][0] == s[signLen];
        } else {
          assert frac[0] == s[signLen + intLen + 1];
        }
      }
      Some(Scan(Signed(s, magnitude), used))
  }

  /** The longest prefix of the form `[+|-] digits` with at least one digit. */
  function ScanInteger(s: string): (r: Option<Scan>)
    ensures r.Some? ==> 0 < r.value.length <= |s|
    ensures r.Some? ==> r.value.value.Floor as real == r.value.value
    ensures r.Some? ==> HasDigit(s)
  {
    var signLen := SignLength(s);
    var body := s[signLen..];
    var intLen := DigitRun(body);
    if intLen == 0 then None
    else
      var n: int := NatValue(body[..intLen]);
      var v := if |s| > 0 && s[0] == '-' then -n else n;
      assert HasDigit(s) by {
        assert body[..intLen][0] == s[signLen];
      }
      Some(Scan(v as real, signLen + intLen))
  }

  /** Blank text is trimmed away entirely, and nothing scans from it. */
  lemma BlankScansNothing(s: string)
    ensures IsBlank(s) ==> TrimStart(s) == []
    ensures ScanDecimal([]) == None && ScanInteger([]) == None
  {
  }

  /** Trimming the start keeps only characters of the text. */
  lemma TrimStartDigit(s: string)
    requires HasDigit(TrimStart(s))
    ensures HasDigit(s)
  {
    var r := TrimStart(s);
    var i :| 0 <= i < |r| && IsDigit(r[i]);
    assert r[i] == s[|s| - |r| + i];
  }

  /** Trimming both ends keeps only characters of the text. */
  lemma TrimDigit(s: string)
    requires HasDigit(Trim(s))
    ensures HasDigit(s)
  {
    var t := TrimStart(s);
    var r := TrimEnd(t);
    assert Trim(s) == r;
    var i :| 0 <= i < |r| && IsDigit(r[i]);
    assert r[i] == t[i];
    TrimStartDigit(s);
  }

  /** `parseFloat(s)`: skip leading white space, then read the longest
      decimal prefix; NaN when there is none. */
  function ParseFloat(s: string): JsNum {
    match ScanDecimal(TrimStart(s))
    case None => NotANumber
    case Some(sc) => Finite(sc.value)
  }

  /** `parseInt(s, 10)`: skip leading white space, then read the longest
      integer prefix; NaN when there is none. */
  function ParseInt(s: string): JsNum {
    match ScanInteger(TrimStart(s))
    case None => NotANumber
    case Some(sc) => Finite(sc.value)
  }

  /** `Number(s)` for a string: white space around the text is ignored, blank
      text is 0, and otherwise the whole text must be a decimal literal. */
  function NumberOf(s: string): JsNum {
    var t := Trim(s);
    if t == [] then Finite(0.0)
    else match ScanDecimal(t)
      case Some(sc) => if sc.length == |t| then Finite(sc.value) else NotANumber
      case None => NotANumber
  }

  /** `parseFloat` gives NaN on blank text, and a number only from text
      holding a digit. */
  lemma ParseFloatNeedsDigit(s: string)
    ensures IsBlank(s) ==> ParseFloat(s) == NotANumber
    ensures ParseFloat(s).Finite? ==> HasDigit(s)
  {
    BlankScansNothing(s);
    if ParseFloat(s).Finite? {
      TrimStartDigit(s);
    }
  }

  /** `parseInt` gives NaN on blank text, and a whole number only from text
      holding a digit. */
  lemma ParseIntNeedsDigit(s: string)
    ensures IsBlank(s) ==> ParseInt(s) == NotANumber
    ensures ParseInt(s).Finite? ==> HasDigit(s)
    ensures ParseInt(s).Finite? ==> ParseInt(s).value.Floor as real == ParseInt(s).value
  {
    BlankScansNothing(s);
    if ParseInt(s).Finite? {
      TrimStartDigit(s);
    }
  }

  /** `Number` gives 0 on blank text, and otherwise a number only from text
      holding a digit. */
  lemma NumberOfNeedsDigit(s: string)
    ensures IsBlank(s) ==> NumberOf(s) == Finite(0.0)
    ensures !IsBlank(s) && NumberOf(s).Finite? ==> HasDigit(s)
  {
    if !IsBlank(s) && NumberOf(s).Finite? {
      TrimDigit(s);
    }
  }

  /** The pieces `ScanDecimal` looks at, for a run of digits followed by
      neither a digit nor a decimal point. */
  lemma DigitsThenStop(ds: string, rest: string)
    requires |ds| > 0 && AllDigits(ds)
    requires rest == [] || (!IsDigit(rest[0]) && rest[0] != '.')
    ensures SignLength(ds + rest) == 0
    ensures (ds + rest)[0..] == ds + rest
    ensures DigitRun(ds + rest) == |ds|
    ensures (ds + rest)[..|ds|] == ds
    ensures !HasPoint(ds + rest, |ds|)
    ensures Signed(ds + rest, NatValue(ds) as real) == NatValue(ds) as real
  {
    var s := ds + rest;
    assert s[0] == ds[0];
    DigitRunOfJoin(ds, rest);
    if |ds| < |s| {
      assert s[|ds|] == rest[0];
    }
  }

  /** A run of digits followed by neither a digit nor a decimal point scans
      as exactly that run. */
  lemma ScanDecimalOfDigits(ds: string, rest: string)
    requires |ds| > 0 && AllDigits(ds)
    requires rest == [] || (!IsDigit(rest[0]) && rest[0] != '.')
    ensures ScanDecimal(ds + rest) == Some(Scan(NatValue(ds) as real, |ds|))
  {
    var s := ds + rest;
    DigitsThenStop(ds, rest);
    assert FractionDigits(s, |ds|) == [];
    assert FracValue([]) == 0.0;
  }

  /** A run of digits with nothing after it scans to its end. */
  lemma ScanDecimalOfAllDigits(ds: string)
    requires |ds| > 0 && AllDigits(ds)
    ensures ScanDecimal(ds) == Some(Scan(NatValue(ds) as real, |ds|))
  {
    ScanDecimalOfDigits(ds, []);
    assert ds + [] == ds;
  }

  /** `parseInt` reads a rendered natural number back, whatever non-digit
      text follows it; a thousands separator therefore cuts the number short. */
  lemma ParseIntShowNat(n: nat, rest: string)
    requires rest == [] || !IsDigit(rest[0])
    ensures ParseInt(ShowNat(n) + rest) == Finite(n as real)
  {
    var s := ShowNat(n) + rest;
    assert TrimStart(s) == s;
    assert SignLength(s) == 0;
    assert s[0..] == s;
    DigitRunOfJoin(ShowNat(n), rest);
    assert s[..|ShowNat(n)|] == ShowNat(n);
    NatValueShowNat(n);
  }

  /** `parseFloat` reads a rendered natural number back when no decimal point
      or digit follows it. */
  lemma ParseFloatShowNat(n: nat, rest: string)
    requires rest == [] || (!IsDigit(rest[0]) && rest[0] != '.')
    ensures ParseFloat(ShowNat(n) + rest) == Finite(n as real)
  {
    ParseFloatDigits(ShowNat(n), rest);
    NatValueShowNat(n);
  }

  /** `parseFloat` reads a run of digits up to a character that cannot
      continue the number. */
  lemma ParseFloatDigits(ds: string, rest: string)
    requires |ds| > 0 && AllDigits(ds)
    requires rest == [] || (!IsDigit(rest[0]) && rest[0] != '.')
    ensures ParseFloat(ds + rest) == Finite(NatValue(ds) as real)
  {
    var s := ds + rest;
    assert IsDigit(s[0]);
    TrimStartKeeps(s);
    ScanDecimalOfDigits(ds, rest);
  }

  /** Text that starts with something other than white space is not
      trimmed at the start. */
  lemma TrimStartKeeps(s: string)
    requires s == [] || !IsWhite(s[0])
    ensures TrimStart(s) == s
  {
  }

  /** `Number` accepts a rendered natural number. */
  lemma NumberOfShowNat(n: nat)
    ensures NumberOf(ShowNat(n)) == Finite(n as real)
  {
    var s := ShowNat(n);
    assert TrimStart(s) == s;
    assert TrimEnd(s) == s;
    assert Trim(s) == s;
    ScanDecimalOfAllDigits(s);
    NumberOfWhole(s);
    NatValueShowNat(n);
  }

  // ---- decimal literals ----------------------------------------------------

  /** An optional sign in front of a number. */
  predicate IsSign(sign: string) {
    sign == "" || sign == "+" || sign == "-"
  }

  /** How `ScanDecimal` splits `sign digits . digits rest`. */
  lemma {:induction false} PointLiteralPieces(s: string, sign: string, ds: string, fs: string, rest: string)
    requires IsSign(sign) && AllDigits(ds) && AllDigits(fs) && |ds| + |fs| > 0
    requires s == sign + ds + "." + fs + rest
    ensures SignLength(s) == |sign|
    ensures (|s| > 0 && s[0] == '-') <==> sign == "-"
    ensures s[|sign|..] == ds + ("." + fs + rest)
  {
    assert s == sign + (ds + ("." + fs + rest));
    if sign == [] {
      assert s[0] == (ds + ("." + fs + rest))[0];
    } else {
      assert s[0] == sign[0];
    }
  }

  /** How `ScanDecimal` splits a number body `digits . digits rest`. */
  lemma {:induction false} PointBodyPieces(ds: string, fs: string, rest: string)
    requires AllDigits(ds) && AllDigits(fs)
    requires rest == [] || !IsDigit(rest[0])
    ensures var body := ds + ("." + fs + rest);
      && DigitRun(body) == |ds|
      && body[..|ds|] == ds
      && HasPoint(body, |ds|)
      && FractionDigits(body, |ds|) == fs
  {
    var body := ds + ("." + fs + rest);
    DigitRunOfJoin(ds, "." + fs + rest);
    assert body[|ds|] == '.';
    assert body[|ds| + 1..] == fs + rest;
    DigitRunOfJoin(fs, rest);
    assert (fs + rest)[..|fs|] == fs;
  }

  /** The pieces `ScanDecimal` looks at in `sign digits . digits rest`. */
  lemma {:induction false} PointLiteralScan(s: string, sign: string, ds: string, fs: string, rest: string)
    requires IsSign(sign) && AllDigits(ds) && AllDigits(fs) && |ds| + |fs| > 0
    requires rest == [] || !IsDigit(rest[0])
    requires s == sign + ds + "." + fs + rest
    ensures var body := s[SignLength(s)..];
      && SignLength(s) == |sign|
      && DigitRun(body) == |ds|
      && body[..|ds|] == ds
      && HasPoint(body, |ds|)
      && FractionDigits(body, |ds|) == fs
      && Signed(s, NatValue(ds) as real + FracValue(fs)) == Signed(sign, NatValue(ds) as real + FracValue(fs))
  {
    PointLiteralPieces(s, sign, ds, fs, rest);
    PointBodyPieces(ds, fs, rest);
  }

  /** A text whose sign, integer digits, point and fraction digits are
      known scans as their value. */
  lemma {:induction false} ScanPointed(s: string, signLen: nat, ds: string, fs: string)
    requires AllDigits(ds) && AllDigits(fs) && |ds| + |fs| > 0
    requires SignLength(s) == signLen
    requires DigitRun(s[signLen..]) == |ds| && s[signLen..][..|ds|] == ds
    requires HasPoint(s[signLen..], |ds|) && FractionDigits(s[signLen..], |ds|) == fs
    ensures ScanDecimal(s) == Some(Scan(Signed(s, NatValue(ds) as real + FracValue(fs)), signLen + |ds| + 1 + |fs|))
  {
    assert ScanDecimal(s).Some?;
    assert ScanDecimal(s).value.length == signLen + |ds| + 1 + |fs|;
    assert ScanDecimal(s).value.value == Signed(s, NatValue(ds) as real + FracValue(fs));
  }

  /** `sign digits . digits` followed by a non-digit scans as exactly that
      literal, with the value its digits denote: the decimal grammar read
      back. */
  lemma {:induction false} ScanDecimalOfLiteral(sign: string, ds: string, fs: string, rest: string)
    requires IsSign(sign) && AllDigits(ds) && AllDigits(fs) && |ds| + |fs| > 0
    requires rest == [] || !IsDigit(rest[0])
    ensures ScanDecimal(sign + ds + "." + fs + rest)
         == Some(Scan(Signed(sign, NatValue(ds) as real + FracValue(fs)), |sign| + |ds| + 1 + |fs|))
  {
    var s := sign + ds + "." + fs + rest;
    PointLiteralScan(s, sign, ds, fs, rest);
    ScanPointed(s, |sign|, ds, fs);
  }

  /** `parseFloat` reads such a literal back whatever non-digit follows it. */
  lemma {:induction false} ParseFloatOfLiteral(sign: string, ds: string, fs: string, rest: string)
    requires IsSign(sign) && AllDigits(ds) && AllDigits(fs) && |ds| + |fs| > 0
    requires rest == [] || !IsDigit(rest[0])
    ensures ParseFloat(sign + ds + "." + fs + rest)
         == Finite(Signed(sign, NatValue(ds) as real + FracValue(fs)))
  {
    var s := sign + ds + "." + fs + rest;
    assert s[0] == if sign != [] then sign[0] else if ds != [] then ds[0] else '.';
    TrimStartKeeps(s);
    ScanDecimalOfLiteral(sign, ds, fs, rest);
  }

  /** Such a literal, and one followed by text not ending in white space,
      is left alone by `trim`. */
  lemma {:induction false} PointLiteralTrimmed(s: string, sign: string, ds: string, fs: string, rest: string)
    requires IsSign(sign) && AllDigits(ds) && AllDigits(fs) && |ds| + |fs| > 0
    requires rest == [] || !IsWhite(rest[|rest| - 1])
    requires s == sign + ds + "." + fs + rest
    ensures Trim(s) == s
  {
    assert s[0] == if sign != [] then sign[0] else if ds != [] then ds[0] else '.';
    assert s[|s| - 1] == if rest != [] then rest[|rest| - 1] else if fs != [] then fs[|fs| - 1] else '.';
    assert ds != [] ==> IsDigit(ds[0]);
    assert fs != [] ==> IsDigit(fs[|fs| - 1]);
    TrimUnchanged(s);
  }

  /** `Number` of trimmed text that scans as a whole is the scanned value. */
  lemma NumberOfWhole(s: string)
    requires Trim(s) == s && ScanDecimal(s).Some? && ScanDecimal(s).value.length == |s|
    ensures NumberOf(s) == Finite(ScanDecimal(s).value.value)
  {
  }

  /** `Number` of trimmed text that scans only in part is NaN. */
  lemma NumberOfPartial(s: string, sc: Scan)
    requires Trim(s) == s && ScanDecimal(s) == Some(sc) && sc.length != |s|
    ensures NumberOf(s) == NotANumber
  {
  }

  /** How `ScanDecimal` splits `sign digits . digits` with nothing after it. */
  lemma {:induction false} PointAlonePieces(s: string, sign: string, ds: string, fs: string)
    requires IsSign(sign) && AllDigits(ds) && AllDigits(fs) && |ds| + |fs| > 0
    requires s == sign + ds + "." + fs
    ensures SignLength(s) == |sign|
    ensures (|s| > 0 && s[0] == '-') <==> sign == "-"
    ensures s[|sign|..] == ds + ("." + fs)
  {
    assert s == sign + (ds + ("." + fs));
    if sign == [] {
      assert s[0] == (ds + ("." + fs))[0];
    } else {
      assert s[0] == sign[0];
    }
  }

  /** How `ScanDecimal` splits a number body `digits . digits` with nothing
      after it. */
  lemma {:induction false} PointAloneBody(ds: string, fs: string)
    requires AllDigits(ds) && AllDigits(fs)
    ensures var body := ds + ("." + fs);
      && DigitRun(body) == |ds|
      && body[..|ds|] == ds
      && HasPoint(body, |ds|)
      && FractionDigits(body, |ds|) == fs
  {
    var body := ds + ("." + fs);
    DigitRunOfJoin(ds, "." + fs);
    assert body[|ds|] == '.';
    assert body[|ds| + 1..] == fs;
    DigitRunOfDigits(fs);
  }

  /** The pieces `ScanDecimal` looks at in `sign digits . digits`. */
  lemma {:induction false} PointAloneScan(s: string, sign: string, ds: string, fs: string)
    requires IsSign(sign) && AllDigits(ds) && AllDigits(fs) && |ds| + |fs| > 0
    requires s == sign + ds + "." + fs
    ensures var body := s[SignLength(s)..];
      && SignLength(s) == |sign|
      && DigitRun(body) == |ds|
      && body[..|ds|] == ds
      && HasPoint(body, |ds|)
      && FractionDigits(body, |ds|) == fs
      && Signed(s, NatValue(ds) as real + FracValue(fs)) == Signed(sign, NatValue(ds) as real + FracValue(fs))
  {
    PointAlonePieces(s, sign, ds, fs);
    PointAloneBody(ds, fs);
  }

  /** Such a literal standing alone is left alone by `trim`. */
  lemma {:induction false} PointAloneTrimmed(s: string, sign: string, ds: string, fs: string)
    requires IsSign(sign) && AllDigits(ds) && AllDigits(fs) && |ds| + |fs| > 0
    requires s == sign + ds + "." + fs
    ensures Trim(s) == s
  {
    assert s[0] == if sign != [] then sign[0] else if ds != [] then ds[0] else '.';
    assert s[|s| - 1] == if fs != [] then fs[|fs| - 1] else '.';
    assert ds != [] ==> IsDigit(ds[0]);
    assert fs != [] ==> IsDigit(fs[|fs| - 1]);
    TrimUnchanged(s);
  }

  /** `ScanDecimal` reads such a literal standing alone to its end. */
  lemma {:induction false} ScanDecimalOfAlone(s: string, sign: string, ds: string, fs: string)
    requires IsSign(sign) && AllDigits(ds) && AllDigits(fs) && |ds| + |fs| > 0
    requires s == sign + ds + "." + fs
    ensures ScanDecimal(s) == Some(Scan(Signed(sign, NatValue(ds) as real + FracValue(fs)), |sign| + |ds| + 1 + |fs|))
  {
    PointAloneScan(s, sign, ds, fs);
    ScanPointed(s, |sign|, ds, fs);
  }

  /** `Number` accepts such a literal standing alone. */
  lemma {:induction false} NumberOfLiteralAlone(sign: string, ds: string, fs: string)
    requires IsSign(sign) && AllDigits(ds) && AllDigits(fs) && |ds| + |fs| > 0
    ensures NumberOf(sign + ds + "." + fs) == Finite(Signed(sign, NatValue(ds) as real + FracValue(fs)))
  {
    var s := sign + ds + "." + fs;
    PointAloneTrimmed(s, sign, ds, fs);
    ScanDecimalOfAlone(s, sign, ds, fs);
    NumberOfWhole(s);
  }

  /** `Number` rejects such a literal followed by anything that neither
      continues its digits nor ends in white space. */
  lemma {:induction false} NumberOfLiteralTrailing(sign: string, ds: string, fs: string, rest: string)
    requires IsSign(sign) && AllDigits(ds) && AllDigits(fs) && |ds| + |fs| > 0
    requires rest != [] && !IsDigit(rest[0]) && !IsWhite(rest[|rest| - 1])
    ensures NumberOf(sign + ds + "." + fs + rest) == NotANumber
  {
    var s := sign + ds + "." + fs + rest;
    PointLiteralTrimmed(s, sign, ds, fs, rest);
    ScanDecimalOfLiteral(sign, ds, fs, rest);
    NumberOfPartial(s, ScanDecimal(s).value);
  }

  /** `parseInt` reads `sign digits` back whatever non-digit follows, so
      it stops at a decimal point. */
  lemma {:induction false} ParseIntOfLiteral(sign: string, ds: string, rest: string)
    requires IsSign(sign) && AllDigits(ds) && |ds| > 0
    requires rest == [] || !IsDigit(rest[0])
    ensures ParseInt(sign + ds + rest) == Finite(Signed(sign, NatValue(ds) as real))
  {
    var s := sign + ds + rest;
    WholeLiteralPieces(sign, ds, rest);
    TrimStartKeeps(s);
    ScanWhole(s, |sign|, ds);
  }

  /** How `ScanInteger` splits `sign digits rest`. */
  lemma {:induction false} WholeLiteralPieces(sign: string, ds: string, rest: string)
    requires IsSign(sign) && AllDigits(ds) && |ds| > 0
    requires rest == [] || !IsDigit(rest[0])
    ensures var s := sign + ds + rest;
      && !IsWhite(s[0])
      && SignLength(s) == |sign|
      && DigitRun(s[|sign|..]) == |ds|
      && s[|sign|..][..|ds|] == ds
      && ((|s| > 0 && s[0] == '-') <==> sign == "-")
  {
    var s := sign + ds + rest;
    assert s == sign + (ds + rest);
    assert s[0] == if sign != [] then sign[0] else ds[0];
    assert s[|sign|..] == ds + rest;
    DigitRunOfJoin(ds, rest);
    assert (ds + rest)[..|ds|] == ds;
  }

  /** A text whose sign and digits are known scans as their value. */
  lemma {:induction false} ScanWhole(s: string, signLen: nat, ds: string)
    requires AllDigits(ds) && |ds| > 0
    requires SignLength(s) == signLen
    requires DigitRun(s[signLen..]) == |ds| && s[signLen..][..|ds|] == ds
    ensures ScanInteger(s) == Some(Scan(Signed(s, NatValue(ds) as real), signLen + |ds|))
  {
  }
}
