/** Numbers in JSON text, by the grammar of section 6 of RFC 8259: a sign, an integer
    part without leading zeros, then a fraction, an exponent, both or neither. */
module Numerals {
  import opened Text
  import opened Options

  /** How many digits a text begins with. */
  function Digits(s: string): (n: nat)
    ensures n <= |s|
    ensures forall i :: 0 <= i < n ==> IsDigit(s[i])
    ensures n < |s| ==> !IsDigit(s[n])
  {
    if s == "" || !IsDigit(s[0]) then 0 else 1 + Digits(s[1..])
  }

  /** Where the integer part ends that begins at `i`. */
  function IntegerEnd(s: string, i: nat): (e: Option<nat>)
    requires i <= |s|
    ensures e.Some? ==> i < e.value <= |s|
  {
    var n := Digits(s[i..]);
    if n == 0 then None else if s[i] == '0' then Some(i + 1) else Some(i + n)
  }

  /** Where a fraction ends that begins at `i`, or `i` if none does. */
  function FractionEnd(s: string, i: nat): (e: Option<nat>)
    requires i <= |s|
    ensures e.Some? ==> i <= e.value <= |s|
  {
    if i == |s| || s[i] != '.' then Some(i)
    else if Digits(s[i + 1..]) == 0 then None
    else Some(i + 1 + Digits(s[i + 1..]))
  }

  predicate IsExponent(c: char) { c == 'e' || c == 'E' }

  predicate IsSign(c: char) { c == '+' || c == '-' }

  /** Where an exponent ends that begins at `i`, or `i` if none does. */
  function ExponentEnd(s: string, i: nat): (e: Option<nat>)
    requires i <= |s|
    ensures e.Some? ==> i <= e.value <= |s|
  {
    if i == |s| || !IsExponent(s[i]) then Some(i)
    else
      var j := if i + 1 < |s| && IsSign(s[i + 1]) then i + 2 else i + 1;
      if Digits(s[j..]) == 0 then None else Some(j + Digits(s[j..]))
  }

  function SignEnd(s: string): nat { if s != "" && s[0] == '-' then 1 else 0 }

  /** Where the number ends that a text begins with. */
  function NumberEnd(s: string): (e: Option<nat>)
    ensures e.Some? ==> 0 < e.value <= |s|
  {
    var i := IntegerEnd(s, SignEnd(s));
    if i == None then None
    else
      var f := FractionEnd(s, i.value);
      if f == None then None else ExponentEnd(s, f.value)
  }

  /** How JavaScript writes a finite number that it does not write in digits alone. */
  predicate IsNumeral(t: string) { NumberEnd(t) == Some(|t|) && ('.' in t || 'e' in t) && 'E' !in t }

  predicate InNumeral(c: char) { IsDigit(c) || IsSign(c) || c == '.' || IsExponent(c) }

  // ------------------------------------------------------------- what is in one

  lemma DigitsOfTail(s: string, i: nat, n: nat)
    requires i <= |s| && n == Digits(s[i..])
    ensures i + n <= |s| && forall k :: i <= k < i + n ==> IsDigit(s[k])
  {
    forall k | i <= k < i + n ensures IsDigit(s[k]) { assert s[i..][k - i] == s[k]; }
  }

  predicate AllIn(s: string, i: nat, e: nat) { i <= e <= |s| && forall k :: i <= k < e ==> InNumeral(s[k]) }

  lemma IntegerChars(s: string, i: nat)
    requires i <= |s| && IntegerEnd(s, i).Some?
    ensures i < |s| && IsDigit(s[i]) && AllIn(s, i, IntegerEnd(s, i).value)
  {
    hide Digits;
    DigitsOfTail(s, i, Digits(s[i..]));
  }

  lemma FractionChars(s: string, i: nat)
    requires i <= |s| && FractionEnd(s, i).Some?
    ensures AllIn(s, i, FractionEnd(s, i).value)
  {
    hide Digits;
    if i < |s| && s[i] == '.' { DigitsOfTail(s, i + 1, Digits(s[i + 1..])); }
  }

  lemma ExponentChars(s: string, i: nat)
    requires i <= |s| && ExponentEnd(s, i).Some?
    ensures AllIn(s, i, ExponentEnd(s, i).value)
  {
    hide Digits;
    if i < |s| && IsExponent(s[i]) {
      var j := if i + 1 < |s| && IsSign(s[i + 1]) then i + 2 else i + 1;
      DigitsOfTail(s, j, Digits(s[j..]));
    }
  }

  /** All characters up to the end are a number's, and the first is a digit or a minus. */
  lemma NumberChars(s: string)
    requires NumberEnd(s).Some?
    ensures AllIn(s, 0, NumberEnd(s).value)
    ensures s != "" && (IsDigit(s[0]) || s[0] == '-')
  {
    hide IntegerEnd, FractionEnd, ExponentEnd;
    var i := SignEnd(s);
    IntegerChars(s, i);
    FractionChars(s, IntegerEnd(s, i).value);
    ExponentChars(s, FractionEnd(s, IntegerEnd(s, i).value).value);
  }

  lemma NumeralChars(t: string)
    requires IsNumeral(t)
    ensures t != "" && (IsDigit(t[0]) || t[0] == '-') && forall k :: 0 <= k < |t| ==> InNumeral(t[k])
  {
    hide NumberEnd;
    NumberChars(t);
  }

  // ------------------------------------------------ a number ends where it ends

  /** What a number cannot go on with. */
  predicate Stops(rest: string) {
    rest == "" || (!IsDigit(rest[0]) && rest[0] != '.' && !IsExponent(rest[0]))
  }

  lemma {:induction false} DigitsStop(s: string, rest: string)
    requires rest == "" || !IsDigit(rest[0])
    ensures Digits(s + rest) == Digits(s)
  {
    if s == "" {
      assert s + rest == rest;
    } else {
      assert (s + rest)[1..] == s[1..] + rest;
      DigitsStop(s[1..], rest);
    }
  }

  lemma DigitsStopAt(s: string, rest: string, i: nat)
    requires i <= |s| && Stops(rest)
    ensures Digits((s + rest)[i..]) == Digits(s[i..])
  {
    assert (s + rest)[i..] == s[i..] + rest;
    DigitsStop(s[i..], rest);
  }

  lemma IntegerStops(s: string, rest: string, i: nat)
    requires i <= |s| && Stops(rest)
    ensures IntegerEnd(s, i).Some? ==> IntegerEnd(s + rest, i) == IntegerEnd(s, i)
  {
    hide Digits;
    DigitsStopAt(s, rest, i);
    DigitsOfNothing();
  }

  lemma FractionStops(s: string, rest: string, i: nat)
    requires i <= |s| && Stops(rest)
    ensures FractionEnd(s, i).Some? ==> FractionEnd(s + rest, i) == FractionEnd(s, i)
  {
    hide Digits;
    if i < |s| { DigitsStopAt(s, rest, i + 1); }
  }

  lemma ExponentStops(s: string, rest: string, i: nat)
    requires i <= |s| && Stops(rest)
    ensures ExponentEnd(s, i).Some? ==> ExponentEnd(s + rest, i) == ExponentEnd(s, i)
  {
    hide Digits;
    if i < |s| { DigitsStopAt(s, rest, i + 1); }
    if i + 1 < |s| { DigitsStopAt(s, rest, i + 2); }
    DigitsOfNothing();
  }

  lemma DigitsOfNothing()
    ensures Digits("") == 0
  {}

  /** A number before anything it cannot go on with is taken whole and no further. */
  lemma NumberStops(s: string, rest: string)
    requires NumberEnd(s).Some? && Stops(rest)
    ensures NumberEnd(s + rest) == NumberEnd(s)
  {
    hide IntegerEnd, FractionEnd, ExponentEnd, Stops;
    var i := SignEnd(s);
    assert s != "" && SignEnd(s + rest) == i by { IntegerNeedsText(s, i); }
    IntegerStops(s, rest, i);
    FractionStops(s, rest, IntegerEnd(s, i).value);
    ExponentStops(s, rest, FractionEnd(s, IntegerEnd(s, i).value).value);
  }

  lemma IntegerNeedsText(s: string, i: nat)
    requires i <= |s| && IntegerEnd(s, i).Some?
    ensures s != ""
  {}

  lemma {:induction false} DigitsOfPrefix(s: string, n: nat)
    requires n <= |s|
    ensures Digits(s[..n]) == if Digits(s) < n then Digits(s) else n
  {
    if n > 0 && IsDigit(s[0]) {
      assert s[..n][1..] == s[1..][..n - 1];
      DigitsOfPrefix(s[1..], n - 1);
    }
  }

  lemma DigitsWithin(s: string, n: nat, i: nat)
    requires i <= n <= |s|
    ensures Digits(s[..n][i..]) == if i + Digits(s[i..]) < n then Digits(s[i..]) else n - i
  {
    hide Digits;
    assert s[..n][i..] == s[i..][..n - i];
    DigitsOfPrefix(s[i..], n - i);
  }

  lemma IntegerWithin(s: string, n: nat, i: nat)
    requires i <= n <= |s| && IntegerEnd(s, i).Some? && IntegerEnd(s, i).value <= n
    ensures IntegerEnd(s[..n], i) == IntegerEnd(s, i)
  {
    hide Digits;
    DigitsWithin(s, n, i);
    DigitsOfNothing();
  }

  lemma FractionWithin(s: string, n: nat, i: nat)
    requires i <= n <= |s| && FractionEnd(s, i).Some? && FractionEnd(s, i).value <= n
    ensures FractionEnd(s[..n], i) == FractionEnd(s, i)
  {
    hide Digits;
    if i < n { DigitsWithin(s, n, i + 1); }
  }

  lemma ExponentWithin(s: string, n: nat, i: nat)
    requires i <= n <= |s| && ExponentEnd(s, i) == Some(n)
    ensures ExponentEnd(s[..n], i) == Some(n)
  {
    hide Digits;
    if i < n { DigitsWithin(s, n, i + 1); }
    if i + 1 < n { DigitsWithin(s, n, i + 2); }
    DigitsOfNothing();
  }

  /** What is taken for a number is one. */
  lemma NumberAlone(s: string)
    requires NumberEnd(s).Some?
    ensures NumberEnd(s[..NumberEnd(s).value]) == NumberEnd(s)
  {
    hide IntegerEnd, FractionEnd, ExponentEnd;
    var n, i := NumberEnd(s).value, SignEnd(s);
    assert SignEnd(s[..n]) == i;
    IntegerWithin(s, n, i);
    FractionWithin(s, n, IntegerEnd(s, i).value);
    ExponentWithin(s, n, FractionEnd(s, IntegerEnd(s, i).value).value);
  }

  // ------------------------------------------------------------------- integers

  lemma {:induction false} AllAreDigits(s: string)
    requires forall i :: 0 <= i < |s| ==> IsDigit(s[i])
    ensures Digits(s) == |s|
  {
    if s != "" { AllAreDigits(s[1..]); }
  }

  /** The text of an integer is a number without a fraction or an exponent. */
  lemma IntegerIsNumber(n: int)
    ensures NumberEnd(IntText(n)) == Some(|IntText(n)|) && !IsNumeral(IntText(n))
    ensures forall k :: 0 <= k < |IntText(n)| ==> InNumeral(IntText(n)[k])
  {
    hide Digits;
    var t := IntText(n);
    var i := SignEnd(t);
    AllAreDigits(t[i..]);
    DigitsOfNothing();
    ZeroAlone(if n < 0 then -n else n);
  }

  lemma ZeroAlone(n: nat)
    ensures NatText(n)[0] == '0' ==> |NatText(n)| == 1
  {}

  /** Without fraction and exponent a number is its sign and its digits. */
  lemma IntegerDigits(t: string)
    requires NumberEnd(t) == Some(|t|) && '.' !in t && 'e' !in t && 'E' !in t
    ensures t != "" && forall k :: SignEnd(t) <= k < |t| ==> IsDigit(t[k])
    ensures forall i :: 0 <= i < |t[SignEnd(t)..]| ==> IsDigit(t[SignEnd(t)..][i])
  {
    hide Digits;
    var i := SignEnd(t);
    var e := IntegerEnd(t, i).value;
    DigitsOfTail(t, i, Digits(t[i..]));
    assert forall k :: 0 <= k < |t| ==> t[k] != '.' && !IsExponent(t[k]);
  }
}
