/**
 * Task identifiers as dictionary keys. The stores accept a task id either as a `bigint` or as a
 * `string` and always key their dictionaries by `taskId.toString()`.
 */
module TaskKeys {

  /** A `string | bigint` argument. */
  datatype TaskRef = Big(n: int) | Str(s: string)

  function DigitChar(d: nat): (c: char)
    requires d < 10
    ensures '0' <= c <= '9'
  {
    (48 + d) as char
  }

  /** The decimal digits of `n`, most significant first, without leading zeros. */
  function Digits(n: nat): (s: string)
    ensures |s| >= 1
    ensures n >= 10 ==> |s| >= 2
    ensures forall i :: 0 <= i < |s| ==> '0' <= s[i] <= '9'
  {
    if n < 10 then [DigitChar(n)] else Digits(n / 10) + [DigitChar(n % 10)]
  }

  /** `BigInt.prototype.toString()`: decimal, with a leading minus sign for negative values. */
  function DecimalString(n: int): (r: string)
    ensures |r| >= 1 && (r[0] == '-' <==> n < 0)
  {
    if n < 0 then "-" + Digits(-n) else Digits(n)
  }

  /** The key `taskId.toString()` under which a store files the task. */
  function KeyOf(ref: TaskRef): string {
    match ref
    case Big(n) => DecimalString(n)
    case Str(s) => s
  }

  lemma {:induction false} DigitsInjective(a: nat, b: nat)
    requires Digits(a) == Digits(b)
    ensures a == b
  {
    if a < 10 && b < 10 {
      assert Digits(a)[0] == DigitChar(a) && Digits(b)[0] == DigitChar(b);
    } else if a >= 10 && b >= 10 {
      var da, db := Digits(a), Digits(b);
      assert da[|da| - 1] == DigitChar(a % 10) && db[|db| - 1] == DigitChar(b % 10);
      assert da[..|da| - 1] == Digits(a / 10) && db[..|db| - 1] == Digits(b / 10);
      DigitsInjective(a / 10, b / 10);
    }
  }

  /** Distinct ids are filed under distinct keys. */
  lemma DecimalStringInjective(a: int, b: int)
    requires DecimalString(a) == DecimalString(b)
    ensures a == b
  {
    if a < 0 {
      assert Digits(-a) == DecimalString(a)[1..] && Digits(-b) == DecimalString(b)[1..];
      DigitsInjective(-a, -b);
    } else {
      DigitsInjective(a, b);
    }
  }

  /** A bigint id and its decimal string address the same entry. */
  lemma SameEntry(n: int)
    ensures KeyOf(Big(n)) == KeyOf(Str(DecimalString(n)))
  {
  }

  lemma DistinctIdsDistinctKeys(a: int, b: int)
    requires a != b
    ensures KeyOf(Big(a)) != KeyOf(Big(b))
  {
    if KeyOf(Big(a)) == KeyOf(Big(b)) {
      DecimalStringInjective(a, b);
    }
  }
}
