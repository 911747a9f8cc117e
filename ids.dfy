/**
 * Vehicle identifiers: the `carId` field as it arrives on the socket, the key
 * the dashboard's `Map` objects are indexed by, and the text forms JavaScript
 * gives both.
 */
module Ids {
  import opened Wrappers

  /** The `carId` of an inbound event, by its JavaScript type. */
  datatype RawId =
    | RawNum(n: int)           // typeof carId === 'number' (integral ids)
    | RawStr(s: string)        // typeof carId === 'string'
    | RawOther(shown: string)  // null, undefined, a boolean, ...; `shown` is what String() renders

  /** A `Map` key: a number or a string. `5` and `"5"` are different keys. */
  datatype CarKey = NumKey(n: int) | StrKey(s: string)

  predicate IsDigit(c: char) {
    '0' as int <= c as int <= '9' as int
  }

  function DigitChar(d: nat): (c: char)
    requires d < 10
    ensures IsDigit(c)
  {
    (48 + d) as char
  }

  /** Decimal text of a natural number, as `String(n)` writes it. */
  function NatText(n: nat): (s: string)
    ensures |s| > 0
    decreases n
  {
    if n < 10 then [DigitChar(n)] else NatText(n / 10) + [DigitChar(n % 10)]
  }

  /** `String(n)` for an integral number. */
  function NumberText(n: int): string {
    if n < 0 then "-" + NatText(-n) else NatText(n)
  }

  /** What `String(carId)` and a template literal make of a raw id. */
  function Shown(raw: RawId): string {
    match raw
    case RawNum(n) => NumberText(n)
    case RawStr(s) => s
    case RawOther(shown) => shown
  }

  /** The text of a key inside `${carId}`. */
  function KeyText(k: CarKey): string {
    match k
    case NumKey(n) => NumberText(n)
    case StrKey(s) => s
  }

  /**
   * `typeof car.carId === 'number' ? car.carId : String(car.carId)`:
   * numbers stay numbers, everything else becomes its string form.
   */
  function Normalise(raw: RawId): (k: CarKey)
    ensures k.NumKey? <==> raw.RawNum?
    ensures KeyText(k) == Shown(raw)
  {
    match raw
    case RawNum(n) => NumKey(n)
    case RawStr(s) => StrKey(s)
    case RawOther(shown) => StrKey(shown)
  }

  /**
   * The key `Map.prototype.delete(carId)` removes when handed the raw id:
   * a number or a string is its own key, and any other value is equal to no
   * number or string key, so it removes nothing. The raw id and its
   * normalised key address the same entry exactly for numbers and strings.
   */
  function DeleteKey(raw: RawId): (k: Option<CarKey>)
    ensures k.Some? <==> !raw.RawOther?
    ensures k.Some? ==> k.value == Normalise(raw)
  {
    match raw
    case RawNum(n) => Some(NumKey(n))
    case RawStr(s) => Some(StrKey(s))
    case RawOther(_) => None
  }

  /** Normalisation never merges a numeric id with a textual one, whatever their digits. */
  lemma NormaliseKeepsTypesApart(n: int, s: string)
    ensures Normalise(RawNum(n)) != Normalise(RawStr(s))
  {
  }

  predicate AllDigits(s: string) {
    |s| > 0 && forall i :: 0 <= i < |s| ==> IsDigit(s[i])
  }

  function DigitsValue(s: string): nat
    requires forall i :: 0 <= i < |s| ==> IsDigit(s[i])
  {
    if s == [] then 0
    else
      assert IsDigit(s[|s| - 1]);
      DigitsValue(s[..|s| - 1]) * 10 + (s[|s| - 1] as int - '0' as int)
  }

  /**
   * `Number(s)` for the strings read here as numbers: optional minus sign,
   * then decimal digits. `None` stands for NaN.
   */
  function NumericValue(s: string): Option<int> {
    if AllDigits(s) then Some(DigitsValue(s))
    else if |s| > 1 && s[0] == '-' && AllDigits(s[1..]) then Some(0 - DigitsValue(s[1..]) as int)
    else None
  }

  lemma {:induction false} NatTextRoundTrip(n: nat)
    ensures AllDigits(NatText(n))
    ensures DigitsValue(NatText(n)) == n
    decreases n
  {
    if n >= 10 {
      NatTextRoundTrip(n / 10);
      var s := NatText(n);
      assert s[..|s| - 1] == NatText(n / 10);
    }
  }

  /** Reading back the text of a number gives the number: `Number(String(n)) === n`. */
  lemma NumberTextRoundTrip(n: int)
    ensures NumericValue(NumberText(n)) == Some(n)
  {
    if n < 0 {
      NatTextRoundTrip(-n);
      var s := NumberText(n);
      assert s[1..] == NatText(-n);
      assert !AllDigits(s) by { assert !IsDigit(s[0]); }
    } else {
      NatTextRoundTrip(n);
    }
  }
}
