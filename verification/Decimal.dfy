/** Exact decimals: the units+nano pair, its printer and its parser. */
module Decimal {
  import opened Numerals
  import opened Wrappers

  const BILLION := 1_000_000_000
  const MAX_INT64 := 0x7fff_ffff_ffff_ffff
  const MIN_INT64 := -0x8000_0000_0000_0000

  predicate InInt64(n: int) { MIN_INT64 <= n <= MAX_INT64 }

  function Abs(n: int): nat { if n < 0 then -n else n }

  datatype Quotation = Quotation(units: int, nano: int) {
    // The exact value, in billionths.
    function Value(): int { units * BILLION + nano }

    // The contract's form: units and nano share a sign and nano stays below one unit.
    predicate Proper() {
      InInt64(units) && Abs(nano) < BILLION && (units > 0 ==> nano >= 0) && (units < 0 ==> nano <= 0)
    }
  }

  // Proper pairs compare componentwise exactly as their values do.
  lemma ProperIsUnique(a: Quotation, b: Quotation)
    requires a.Proper() && b.Proper()
    ensures a == b <==> a.Value() == b.Value()
  {
    if a.Value() == b.Value() {
      assert (a.units - b.units) * BILLION == b.nano - a.nano;
    }
  }

  // ---- digits ----

  function Zeros(n: nat): (s: string)
    ensures |s| == n && AllDigits(s) && forall i :: 0 <= i < n ==> s[i] == '0'
  {
    seq(n, _ => '0')
  }

  lemma {:induction false} ValLess(s: string)
    requires AllDigits(s)
    ensures Val(s) < Pow10(|s|)
  {
    if s != "" {
      ValLess(s[..|s|-1]);
    }
  }

  lemma {:induction false} DigitsLength(n: nat, k: nat)
    requires n < Pow10(k) && k >= 1
    ensures |Digits(n)| <= k
  {
    if n >= 10 {
      DigitsLength(n / 10, k - 1);
    }
  }

  lemma {:induction false} ValLeadingZeros(k: nat, s: string)
    requires AllDigits(s)
    ensures Val(Zeros(k) + s) == Val(s)
  {
    if s == "" {
      if k > 0 {
        ValLeadingZeros(k - 1, "");
        assert (Zeros(k) + "")[..k-1] == Zeros(k - 1) + "";
      }
    } else {
      var n := |s| - 1;
      ValLeadingZeros(k, s[..n]);
      assert (Zeros(k) + s)[..k + n] == Zeros(k) + s[..n];
    }
  }

  // Nine digits, zero-padded on the left; the caller keeps n below one unit, where the
  // pad count would be negative otherwise.
  function Pad9(n: nat): (s: string)
    requires n < BILLION
    ensures |s| == 9
  {
    assert |Digits(n)| <= 9 by { assert Pow10(9) == BILLION; DigitsLength(n, 9); }
    Zeros(9 - |Digits(n)|) + Digits(n)
  }

  lemma Pad9Val(n: nat)
    requires n < BILLION
    ensures AllDigits(Pad9(n)) && Val(Pad9(n)) == n
  {
    DigitsVal(n);
    assert Pow10(9) == BILLION;
    DigitsLength(n, 9);
    ValLeadingZeros(9 - |Digits(n)|, Digits(n));
  }

  function TrimZeros(s: string): (t: string)
    ensures |t| <= |s| && t == s[..|t|] && s == t + Zeros(|s| - |t|)
    ensures t != "" ==> t[|t|-1] != '0'
  {
    if s != "" && s[|s|-1] == '0' then TrimZeros(s[..|s|-1]) else s
  }

  lemma {:induction false} ValZeros(n: nat)
    ensures Val(Zeros(n)) == 0
  {
    if n > 0 {
      assert Zeros(n)[..n-1] == Zeros(n - 1);
      ValZeros(n - 1);
    }
  }

  // ---- the printer ----

  // The one canonical text of an exact value: a minus sign only for negative values, no
  // leading zeros, no trailing fractional zeros.
  function Canonical(v: int): string {
    (if v < 0 then "-" else "") + Digits(Abs(v) / BILLION) + Fraction(Abs(v) % BILLION)
  }

  function Fraction(n: nat): string
    requires n < BILLION
  {
    if n == 0 then "" else "." + TrimZeros(Pad9(n))
  }

  // The fraction's digits, padded back to nine, denote the nano part.
  lemma FractionVal(n: nat)
    requires 0 < n < BILLION
    ensures var fp := TrimZeros(Pad9(n));
            1 <= |fp| <= 9 && AllDigits(fp) && fp[|fp|-1] != '0' && Val(fp + Zeros(9 - |fp|)) == n
  {
    Pad9Val(n);
    var fp := TrimZeros(Pad9(n));
    ValZeros(9);
    assert "" + Zeros(9) == Zeros(9);
    assert forall i :: 0 <= i < |fp| ==> fp[i] == Pad9(n)[i];
  }

  // The value the printer shows for a pair: the sign is emitted once for both parts.
  function Shown(units: int, nano: int): int {
    if units < 0 || nano < 0 then -(Abs(units) * BILLION + Abs(nano)) else units * BILLION + nano
  }

  // Prints a pair as the canonical text of its value; the printer panics on a nano of a
  // whole unit or more, so those are no input.
  method DecimalString(units: int, nano: int) returns (s: string)
    requires InInt64(units) && Abs(nano) < BILLION
    ensures s == Canonical(Shown(units, nano))
    ensures Quotation(units, nano).Proper() ==> s == Canonical(Quotation(units, nano).Value())
  {
    var negative := units < 0 || nano < 0;
    var whole := WholeString(units);
    var frac := FractionString(nano);
    s := if negative && (units != 0 || nano != 0) then "-" else "";
    CanonicalParts(units, nano, s);
    s := s + whole + frac;
    if Quotation(units, nano).Proper() {
      ShownProper(Quotation(units, nano));
    }
  }

  // Negating the least int64 leaves it unchanged.
  function Negate(x: int): int {
    if x == MIN_INT64 then x else -x
  }

  // The integer digits.
  method WholeString(units: int) returns (s: string)
    requires InInt64(units)
    ensures s == Digits(Abs(units))
  {
    if units == MIN_INT64 {
      LeastInt64Digits();
      return "9223372036854775808";
    }
    var absUnits := units;
    if absUnits < 0 {
      absUnits := Negate(absUnits);
    }
    s := Digits(absUnits);
  }

  // The fraction, with its dot, when there is one.
  method FractionString(nano: int) returns (s: string)
    requires Abs(nano) < BILLION
    ensures s == Fraction(Abs(nano))
  {
    var absNano := if nano < 0 then -nano else nano;
    s := "";
    if absNano != 0 {
      s := s + ".";
      s := s + TrimZeros(Pad9(absNano));
    }
  }

  lemma CanonicalParts(units: int, nano: int, sign: string)
    requires Abs(nano) < BILLION
    requires sign == if (units < 0 || nano < 0) && (units != 0 || nano != 0) then "-" else ""
    ensures Canonical(Shown(units, nano)) == sign + Digits(Abs(units)) + Fraction(Abs(nano))
  {
    var m := Abs(units) * BILLION + Abs(nano);
    SplitValue(Abs(units), Abs(nano));
    var v := Shown(units, nano);
    assert Abs(v) == m;
    assert v < 0 <==> (units < 0 || nano < 0) && (units != 0 || nano != 0);
    assert Abs(v) / BILLION == Abs(units) && Abs(v) % BILLION == Abs(nano);
  }

  lemma ShownProper(q: Quotation)
    requires q.Proper()
    ensures Shown(q.units, q.nano) == q.Value()
  {}

  lemma SplitValue(u: nat, n: nat)
    requires n < BILLION
    ensures (u * BILLION + n) / BILLION == u && (u * BILLION + n) % BILLION == n
  {}

  // ---- the parser ----

  // unicode.IsSpace
  predicate IsSpace(c: char) {
    || '\t' <= c <= '\r' || c == ' ' || c == '\U{85}' || c == '\U{A0}' || c == '\U{1680}'
    || '\U{2000}' <= c <= '\U{200a}' || c == '\U{2028}' || c == '\U{2029}' || c == '\U{202f}'
    || c == '\U{205f}' || c == '\U{3000}'
  }

  function TrimSpace(s: string): (t: string)
    ensures t != "" ==> !IsSpace(t[0]) && !IsSpace(t[|t|-1])
  {
    if s != "" && IsSpace(s[0]) then TrimSpace(s[1..])
    else if s != "" && IsSpace(s[|s|-1]) then TrimSpace(s[..|s|-1])
    else s
  }

  function IndexOf(s: string, c: char): (i: int)
    ensures -1 <= i < |s|
    ensures i >= 0 ==> s[i] == c && forall j :: 0 <= j < i ==> s[j] != c
    ensures i < 0 ==> forall j :: 0 <= j < |s| ==> s[j] != c
  {
    if s == "" then -1
    else if s[0] == c then 0
    else
      var i := IndexOf(s[1..], c);
      if i < 0 then -1 else i + 1
  }

  // What a decimal text may look like once trimmed: an optional sign, digits, and
  // optionally a dot with at most nine more digits; at least one digit in all.
  datatype Numeral = Numeral(sign: string, int_: string, dotted: bool, frac: string) {
    ghost predicate Valid() {
      && (sign == "" || sign == "+" || sign == "-")
      && AllDigits(int_) && AllDigits(frac) && |frac| <= 9
      && (!dotted ==> frac == "") && int_ + frac != ""
    }

    // The text after the sign.
    function Body(): string {
      if dotted then int_ + "." + frac else int_
    }

    function Text(): string { sign + Body() }

    // The integer digits, with the zero a bare fraction leaves out.
    function Whole(): string { if int_ == "" then "0" else int_ }

    // The denoted value in billionths.
    function Value(): int
      requires AllDigits(int_) && AllDigits(frac) && |frac| <= 9
    {
      var m := Val(int_) * BILLION + Val(frac + Zeros(9 - |frac|));
      if sign == "-" then -m else m
    }
  }

  function Pair(neg: bool, intPart: string, frac: string): Option<Quotation> {
    if !AllDigits(intPart) || |frac| > 9 || !AllDigits(frac) then None
    else
      var units: int := Val(intPart);
      var nano: int := Val(frac + Zeros(9 - |frac|));
      if units > MAX_INT64 then None
      else Some(if neg then Quotation(-units, -nano) else Quotation(units, nano))
  }

  function ParseBody(neg: bool, u: string): Option<Quotation> {
    var dot := IndexOf(u, '.');
    var intPart := if dot < 0 then u else u[..dot];
    var frac := if dot < 0 then "" else u[dot+1..];
    if intPart == "" && frac == "" then None
    else Pair(neg, if intPart == "" then "0" else intPart, frac)
  }

  function ParseTrimmed(t: string): Option<Quotation> {
    if t == "" then None
    else ParseBody(t[0] == '-', if t[0] == '+' || t[0] == '-' then t[1..] else t)
  }

  // The result of parsing, as a function of the text.
  function Parse(s: string): Option<Quotation> {
    ParseTrimmed(TrimSpace(s))
  }

  method ParseQuotation(s: string) returns (r: Option<Quotation>)
    ensures r == Parse(s)
  {
    var trimmed := TrimSpace(s);
    if trimmed == "" {
      return None;
    }
    var negative := false;
    if trimmed[0] == '+' {
      trimmed := trimmed[1..];
    } else if trimmed[0] == '-' {
      negative := true;
      trimmed := trimmed[1..];
    }
    r := ParseUnsigned(negative, trimmed);
  }

  // The part of the parser after the sign.
  method ParseUnsigned(negative: bool, trimmed: string) returns (r: Option<Quotation>)
    ensures r == ParseBody(negative, trimmed)
  {
    if trimmed == "" {
      return None;
    }
    var intPart, fracPart := trimmed, "";
    var dot := IndexOf(trimmed, '.');
    if dot >= 0 {
      intPart, fracPart := trimmed[..dot], trimmed[dot+1..];
    }
    if intPart == "" {
      if fracPart == "" {
        return None;
      }
      intPart := "0";
    }
    var intOK := DigitsOnly(intPart);
    if !intOK || |fracPart| > 9 {
      return None;
    }
    var fracOK := DigitsOnly(fracPart);
    if !fracOK {
      return None;
    }
    r := Combine(negative, intPart, fracPart);
  }

  method Combine(negative: bool, intPart: string, fracPart: string) returns (r: Option<Quotation>)
    requires AllDigits(intPart) && AllDigits(fracPart) && |fracPart| <= 9
    ensures r == Pair(negative, intPart, fracPart)
  {
    var units: int := Val(intPart);
    if units > MAX_INT64 {
      return None;
    }
    var nano: int := 0;
    if fracPart != "" {
      nano := Val(fracPart + Zeros(9 - |fracPart|));
    } else {
      ValZeros(9);
      assert fracPart + Zeros(9) == Zeros(9);
    }
    r := Some(if negative then Quotation(-units, -nano) else Quotation(units, nano));
  }

  method DigitsOnly(s: string) returns (ok: bool)
    ensures ok <==> AllDigits(s)
  {
    for i := 0 to |s|
      invariant forall j :: 0 <= j < i ==> IsDigit(s[j])
    {
      if s[i] < '0' || s[i] > '9' {
        return false;
      }
    }
    ok := true;
  }

  // ---- what parsing means ----

  lemma FracBound(frac: string)
    requires AllDigits(frac) && |frac| <= 9
    ensures Val(frac + Zeros(9 - |frac|)) < BILLION
  {
    ValLess(frac + Zeros(9 - |frac|));
    assert Pow10(9) == BILLION;
  }

  lemma BodySplits(n: Numeral)
    requires n.Valid()
    ensures IndexOf(n.Body(), '.') == if n.dotted then |n.int_| else -1
    ensures n.dotted ==> n.Body()[..|n.int_|] == n.int_ && n.Body()[|n.int_|+1..] == n.frac
    ensures n.Body() != "" && n.Body()[0] != '+' && n.Body()[0] != '-'
  {
    var u := n.Body();
    if n.dotted {
      assert u[|n.int_|] == '.';
      assert forall j :: 0 <= j < |n.int_| ==> u[j] == n.int_[j];
    }
  }

  lemma BodyParses(neg: bool, n: Numeral)
    requires n.Valid()
    ensures ParseBody(neg, n.Body()) == Pair(neg, n.Whole(), n.frac)
  {
    BodySplits(n);
  }

  // A parse result is in range and has the value the numeral denotes.
  ghost predicate Denotes(r: Option<Quotation>, n: Numeral)
    requires n.Valid()
  {
    && (r.Some? <==> Val(n.int_) <= MAX_INT64)
    && (r.Some? ==> r.value.Proper() && r.value.units > MIN_INT64 && r.value.Value() == n.Value())
  }

  lemma PairValue(n: Numeral)
    requires n.Valid() && AllDigits(n.Whole()) && Val(n.Whole()) == Val(n.int_)
    ensures Denotes(Pair(n.sign == "-", n.Whole(), n.frac), n)
  {
    FracBound(n.frac);
  }

  lemma SignSplits(n: Numeral)
    requires n.Valid()
    ensures ParseTrimmed(n.Text()) == ParseBody(n.sign == "-", n.Body())
  {
    BodySplits(n);
    var t := n.Text();
    assert n.sign == "" ==> t == n.Body();
    assert n.sign != "" ==> t[0] == n.sign[0] && t[1..] == n.Body();
  }

  lemma TextParses(n: Numeral)
    requires n.Valid()
    ensures ParseTrimmed(n.Text()) == Pair(n.sign == "-", n.Whole(), n.frac)
    ensures AllDigits(n.Whole()) && Val(n.Whole()) == Val(n.int_)
  {
    SignSplits(n);
    BodyParses(n.sign == "-", n);
    ZeroIsEmpty();
  }

  // Every well-formed text in range is accepted, with exactly the value it denotes.
  lemma WellFormedParses(n: Numeral)
    requires n.Valid()
    ensures Denotes(ParseTrimmed(n.Text()), n)
  {
    TextParses(n);
    PairValue(n);
  }

  lemma ZeroIsEmpty()
    ensures Val("0") == Val("")
  {
    assert "0"[..0] == "";
  }

  // The parts of an accepted text.
  ghost function Parts(t: string): Numeral
    requires t != ""
  {
    var signed := t[0] == '+' || t[0] == '-';
    var u := if signed then t[1..] else t;
    var dot := IndexOf(u, '.');
    if dot < 0 then Numeral(if signed then t[..1] else "", u, false, "")
    else Numeral(if signed then t[..1] else "", u[..dot], true, u[dot+1..])
  }

  lemma PartsText(t: string)
    requires t != ""
    ensures Parts(t).Text() == t
  {
    var u := if t[0] == '+' || t[0] == '-' then t[1..] else t;
    assert Parts(t).Body() == u;
  }

  lemma PartsValid(t: string)
    requires ParseTrimmed(t).Some?
    ensures Parts(t).Valid()
  {
    var n := Parts(t);
    assert AllDigits(n.int_) && AllDigits(n.frac);
  }

  // Nothing but a well-formed text in range is accepted.
  lemma AcceptedIsWellFormed(s: string)
    requires Parse(s).Some?
    ensures var n := Parts(TrimSpace(s));
            n.Valid() && TrimSpace(s) == n.Text() && Denotes(Parse(s), n)
  {
    PartsText(TrimSpace(s));
    PartsValid(TrimSpace(s));
    WellFormedParses(Parts(TrimSpace(s)));
  }

  // Nothing but white space: the 25 code points of that Unicode property.
  predicate Spaces(s: string) {
    forall i :: 0 <= i < |s| ==>
      var c := s[i] as int;
      || 9 <= c <= 13 || c == 32 || c == 133 || c == 160 || c == 5760 || 8192 <= c <= 8202 || c == 8232 || c == 8233
      || c == 8239 || c == 8287 || c == 12288
  }

  // Up to white space around it the text is a decimal of exactly the amount's value, and the
  // amount is in proper form.
  ghost predicate Spells(text: string, q: Quotation) {
    q.Proper() && exists before: string, n: Numeral, after: string :: SpelledBy(text, q, before, n, after)
  }

  lemma SpaceCodes(s: string)
    ensures Spaces(s) <==> forall i :: 0 <= i < |s| ==> IsSpace(s[i])
  {}

  lemma {:induction false} TrimParts(s: string) returns (before: string, after: string)
    ensures s == before + TrimSpace(s) + after
    ensures forall i :: 0 <= i < |before| ==> IsSpace(before[i])
    ensures forall i :: 0 <= i < |after| ==> IsSpace(after[i])
    decreases |s|
  {
    before, after := "", "";
    if s != "" && IsSpace(s[0]) {
      var rest, tail := TrimParts(s[1..]);
      before, after := [s[0]] + rest, tail;
      Regroup(s, s[0], rest, TrimSpace(s), tail);
    } else if s != "" && IsSpace(s[|s|-1]) {
      var lead, rest := TrimParts(s[..|s|-1]);
      before, after := lead, rest + [s[|s|-1]];
    }
  }

  lemma Regroup(s: string, c: char, rest: string, core: string, tail: string)
    requires s != "" && s[0] == c && s[1..] == rest + core + tail
    ensures s == ([c] + rest) + core + tail
  {}

  lemma DropSpace(s: string)
    requires s != ""
    ensures IsSpace(s[0]) ==> TrimSpace(s) == TrimSpace(s[1..])
    ensures !IsSpace(s[0]) && IsSpace(s[|s|-1]) ==> TrimSpace(s) == TrimSpace(s[..|s|-1])
  {}

  lemma {:induction false} TrimPadded(before: string, core: string, after: string)
    requires forall i :: 0 <= i < |before| ==> IsSpace(before[i])
    requires forall i :: 0 <= i < |after| ==> IsSpace(after[i])
    requires core != "" && !IsSpace(core[0]) && !IsSpace(core[|core|-1])
    ensures TrimSpace(before + core + after) == core
    decreases |before| + |after|
  {
    var s := before + core + after;
    DropSpace(s);
    if before != "" {
      assert s[0] == before[0];
      assert s[1..] == before[1..] + core + after;
      TrimPadded(before[1..], core, after);
    } else if after != "" {
      assert s[0] == core[0] && s[|s|-1] == after[|after|-1];
      assert s[..|s|-1] == before + core + after[..|after|-1];
      TrimPadded(before, core, after[..|after|-1]);
    } else {
      assert s == core;
      NotTrimmed(core);
    }
  }

  lemma NumeralEnds(n: Numeral)
    requires n.Valid()
    ensures var t := n.Text(); t != "" && !IsSpace(t[0]) && !IsSpace(t[|t|-1])
  {
    var t := n.Text();
    assert t[|t|-1] == if n.frac != "" then n.frac[|n.frac|-1] else if n.dotted then '.' else n.int_[|n.int_|-1];
    assert t[0] == if n.sign != "" then n.sign[0] else if n.int_ != "" then n.int_[0] else '.';
  }

  ghost predicate SpelledBy(text: string, q: Quotation, before: string, n: Numeral, after: string) {
    && n.Valid() && text == before + n.Text() + after && Spaces(before) && Spaces(after)
    && n.Value() == q.Value() && Val(n.int_) <= MAX_INT64
  }

  lemma ParsedIsSpelled(text: string, q: Quotation) returns (before: string, n: Numeral, after: string)
    requires Parse(text) == Some(q)
    ensures q.Proper() && SpelledBy(text, q, before, n, after)
  {
    ParseThenPrint(text);
    AcceptedIsWellFormed(text);
    before, after := TrimParts(text);
    n := Parts(TrimSpace(text));
    SpaceCodes(before);
    SpaceCodes(after);
  }

  lemma SpelledIsParsed(text: string, q: Quotation, before: string, n: Numeral, after: string)
    requires q.Proper() && SpelledBy(text, q, before, n, after)
    ensures Parse(text) == Some(q)
  {
    SpaceCodes(before);
    SpaceCodes(after);
    NumeralEnds(n);
    TrimPadded(before, n.Text(), after);
    NumeralParses(text, q, n);
  }

  lemma NumeralParses(text: string, q: Quotation, n: Numeral)
    requires q.Proper() && n.Valid() && TrimSpace(text) == n.Text()
    requires n.Value() == q.Value() && Val(n.int_) <= MAX_INT64
    ensures Parse(text) == Some(q)
  {
    NumeralEnds(n);
    NotTrimmed(n.Text());
    WellFormedParses(n);
    ProperIsUnique(Parse(text).value, q);
  }

  // A text parses to an amount exactly when it spells it.
  lemma SpellsIff(text: string, q: Quotation)
    ensures Parse(text) == Some(q) <==> Spells(text, q)
  {
    if Parse(text) == Some(q) {
      var before, n, after := ParsedIsSpelled(text, q);
    }
    if Spells(text, q) {
      var before: string, n: Numeral, after: string :| SpelledBy(text, q, before, n, after);
      SpelledIsParsed(text, q, before, n, after);
    }
  }

  ghost function CanonicalNumeral(v: int): Numeral {
    NumeralOf(v < 0, Abs(v) / BILLION, Abs(v) % BILLION)
  }

  function NumeralOf(negative: bool, units: nat, nano: nat): Numeral
    requires nano < BILLION
  {
    Numeral(if negative then "-" else "", Digits(units), nano != 0, if nano == 0 then "" else TrimZeros(Pad9(nano)))
  }

  lemma CanonicalShape(v: int)
    ensures var n := CanonicalNumeral(v);
            && n.Valid() && n.int_ != "" && (|n.int_| > 1 ==> n.int_[0] != '0')
            && (n.dotted <==> n.frac != "") && (n.frac != "" ==> n.frac[|n.frac|-1] != '0')
  {
    DigitsVal(Abs(v) / BILLION);
    FractionParts(Abs(v) % BILLION);
  }

  lemma CanonicalText(v: int)
    ensures Canonical(v) == CanonicalNumeral(v).Text()
  {
    var nano := Abs(v) % BILLION;
    FractionParts(nano);
    BodyIs(CanonicalNumeral(v), Digits(Abs(v) / BILLION), Fraction(nano));
  }

  lemma BodyIs(n: Numeral, whole: string, fraction: string)
    requires n.int_ == whole && fraction == if n.dotted then "." + n.frac else ""
    ensures n.Text() == n.sign + whole + fraction
  {
    assert n.Body() == whole + fraction;
  }

  lemma CanonicalValue(v: int)
    requires CanonicalNumeral(v).Valid()
    ensures CanonicalNumeral(v).Value() == v && Val(CanonicalNumeral(v).int_) == Abs(v) / BILLION
  {
    var n := NumeralDigits(v < 0, Abs(v) / BILLION, Abs(v) % BILLION);
    PartsValue(n, v);
  }

  lemma NumeralDigits(negative: bool, units: nat, nano: nat) returns (n: Numeral)
    requires nano < BILLION
    ensures n == NumeralOf(negative, units, nano) && (n.sign == "-" <==> negative)
    ensures AllDigits(n.int_) && Val(n.int_) == units
    ensures |n.frac| <= 9 && AllDigits(n.frac) && Val(n.frac + Zeros(9 - |n.frac|)) == nano
  {
    n := NumeralOf(negative, units, nano);
    DigitsVal(units);
    FractionValue(nano);
  }

  lemma PartsValue(n: Numeral, v: int)
    requires n.Valid() && Val(n.int_) == Abs(v) / BILLION && Val(n.frac + Zeros(9 - |n.frac|)) == Abs(v) % BILLION
    requires n.sign == "-" <==> v < 0
    ensures n.Value() == v
  {
    NumeralValue(n, Abs(v) / BILLION, Abs(v) % BILLION);
    Rejoined(Abs(v));
  }

  lemma Rejoined(n: nat)
    ensures n / BILLION * BILLION + n % BILLION == n
  {}

  // The part of FractionParts that is about the value.
  lemma FractionValue(nano: nat)
    requires nano < BILLION
    ensures var frac := if nano == 0 then "" else TrimZeros(Pad9(nano));
            |frac| <= 9 && AllDigits(frac) && Val(frac + Zeros(9 - |frac|)) == nano
  {
    FractionParts(nano);
  }

  lemma NumeralValue(n: Numeral, units: nat, nano: nat)
    requires n.Valid() && Val(n.int_) == units && Val(n.frac + Zeros(9 - |n.frac|)) == nano
    ensures n.Value() == if n.sign == "-" then -(units * BILLION + nano) else units * BILLION + nano
  {}

  // The canonical text is a numeral of that value without a plus sign, without leading
  // zeros, with a minus sign only for a negative value and no trailing fractional zero.
  lemma CanonicalIsNumeral(v: int)
    ensures var n := CanonicalNumeral(v);
            && n.Valid() && Canonical(v) == n.Text() && n.Value() == v && Val(n.int_) == Abs(v) / BILLION
            && n.int_ != "" && (|n.int_| > 1 ==> n.int_[0] != '0')
            && (n.sign == if v < 0 then "-" else "")
            && (n.dotted <==> n.frac != "") && (n.frac != "" ==> n.frac[|n.frac|-1] != '0')
  {
    CanonicalShape(v);
    CanonicalText(v);
    CanonicalValue(v);
  }

  lemma FractionParts(nano: nat)
    requires nano < BILLION
    ensures var frac := if nano == 0 then "" else TrimZeros(Pad9(nano));
            && |frac| <= 9 && AllDigits(frac) && Val(frac + Zeros(9 - |frac|)) == nano
            && (nano != 0 <==> frac != "") && (frac != "" ==> frac[|frac|-1] != '0')
            && Fraction(nano) == if nano != 0 then "." + frac else ""
  {
    if nano == 0 {
      ValZeros(9);
      assert "" + Zeros(9) == Zeros(9);
    } else {
      FractionVal(nano);
    }
  }

  lemma NotTrimmed(s: string)
    requires s != "" && !IsSpace(s[0]) && !IsSpace(s[|s|-1])
    ensures TrimSpace(s) == s
  {}

  // The parser inverts the printer on every proper pair except those whose units are the
  // least int64, whose digits overflow before the sign is applied.
  lemma PrintThenParse(q: Quotation)
    requires q.Proper()
    ensures Parse(Canonical(q.Value())) == Some(q) <==> q.units > MIN_INT64
    ensures Parse(Canonical(q.Value())).None? <==> q.units == MIN_INT64
  {
    var v := q.Value();
    CanonicalIsNumeral(v);
    CanonicalUntouched(v);
    WellFormedParses(CanonicalNumeral(v));
    ProperSplits(q);
    if Parse(Canonical(v)).Some? {
      ProperIsUnique(Parse(Canonical(v)).value, q);
    }
  }

  lemma ProperSplits(q: Quotation)
    requires q.Proper()
    ensures Abs(q.Value()) / BILLION == Abs(q.units)
  {
    SplitValue(Abs(q.units), Abs(q.nano));
    assert Abs(q.Value()) == Abs(q.units) * BILLION + Abs(q.nano);
  }

  // The canonical text has no surrounding space to trim.
  lemma CanonicalUntouched(v: int)
    ensures TrimSpace(Canonical(v)) == Canonical(v)
  {
    CanonicalIsNumeral(v);
    NumeralUntouched(CanonicalNumeral(v));
  }

  lemma NumeralUntouched(n: Numeral)
    requires n.Valid() && n.int_ != "" && (n.dotted ==> n.frac != "")
    ensures TrimSpace(n.Text()) == n.Text()
  {
    var s := n.Text();
    assert s[0] == if n.sign != "" then n.sign[0] else n.int_[0];
    assert s[|s|-1] == if n.dotted then n.frac[|n.frac|-1] else n.int_[|n.int_|-1];
    NotTrimmed(s);
  }

  // Printing what was parsed gives the canonical text of the same value, and that text
  // parses back to the same pair: equivalent spellings share one canonical form.
  lemma ParseThenPrint(s: string)
    requires Parse(s).Some?
    ensures Parse(s).value.Proper() && Parse(s).value.units > MIN_INT64
    ensures Parse(Canonical(Parse(s).value.Value())) == Parse(s)
  {
    AcceptedIsWellFormed(s);
    PrintThenParse(Parse(s).value);
  }

  // Two accepted texts parse to the same pair exactly when they denote the same value.
  lemma SamePairIffSameValue(a: string, b: string)
    requires Parse(a).Some? && Parse(b).Some?
    ensures Parse(a) == Parse(b) <==> Parse(a).value.Value() == Parse(b).value.Value()
  {
    ParseThenPrint(a);
    ParseThenPrint(b);
    ProperIsUnique(Parse(a).value, Parse(b).value);
  }

  lemma DigitsGrow(n: nat, text: string, d: nat)
    requires n > 0 && Digits(n) == text && d < 10
    ensures Digits(n * 10 + d) == text + [DigitOf(d)]
  {}

  // The digits of the magnitude of the least int64.
  lemma LeastInt64Digits()
    ensures Digits(9223372036854775808) == "9223372036854775808"
  {
    DigitsGrow(9, "9", 2); DigitsGrow(92, "92", 2); DigitsGrow(922, "922", 3);
    DigitsGrow(9223, "9223", 3); DigitsGrow(92233, "92233", 7); DigitsGrow(922337, "922337", 2);
    DigitsGrow(9223372, "9223372", 0); DigitsGrow(92233720, "92233720", 3); DigitsGrow(922337203, "922337203", 6);
    DigitsGrow(9223372036, "9223372036", 8); DigitsGrow(92233720368, "92233720368", 5);
    DigitsGrow(922337203685, "922337203685", 4); DigitsGrow(9223372036854, "9223372036854", 7);
    DigitsGrow(92233720368547, "92233720368547", 7); DigitsGrow(922337203685477, "922337203685477", 5);
    DigitsGrow(9223372036854775, "9223372036854775", 8); DigitsGrow(92233720368547758, "92233720368547758", 0);
    DigitsGrow(922337203685477580, "922337203685477580", 8);
  }
}
