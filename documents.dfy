/**
 * The document record shared by retrieval and generation: a text and a
 * metadata dictionary whose values are the scalar payload values the vector
 * store holds.
 */
module Documents {

  /** A metadata or payload value. `NoneValue` is Python's `None`. */
  datatype Value = NoneValue | Bool(b: bool) | Int(i: int) | Str(s: string)

  type Metadata = map<string, Value>

  /** A retrieved passage: `page_content` plus its metadata. */
  datatype Doc = Doc(page_content: string, metadata: Metadata)

  /** The value under `key`, or none when the key is missing. */
  function Get(m: Metadata, key: string): Value {
    if key in m then m[key] else NoneValue
  }

  /**
   * The string form Python gives each value: `"None"` for none, `"True"` or
   * `"False"`, the decimal numeral of an integer, a string itself.
   */
  function Stringify(v: Value): (r: string)
    ensures v.NoneValue? ==> r == "None"
    ensures v.Bool? ==> r == (if v.b then "True" else "False")
    ensures v.Str? ==> r == v.s
    ensures v.Int? && v.i < 0 ==> r != [] && r[0] == '-' && IsNumeral(r[1..]) && DecimalValue(r[1..]) == -v.i
    ensures v.Int? && v.i >= 0 ==> IsNumeral(r) && DecimalValue(r) == v.i
  {
    match v
    case NoneValue => "None"
    case Bool(b) => if b then "True" else "False"
    case Int(i) =>
      if i < 0 then
        NatToDecimalValue(-i);
        var r := "-" + NatToDecimal(-i);
        assert r[1..] == NatToDecimal(-i);
        r
      else
        NatToDecimalValue(i);
        NatToDecimal(i)
    case Str(s) => s
  }

  /** A non-empty run of decimal digits with no leading zero (except `"0"` itself). */
  predicate IsNumeral(s: string) {
    && s != []
    && (forall i | 0 <= i < |s| :: '0' <= s[i] <= '9')
    && (s[0] == '0' ==> |s| == 1)
  }

  /** The number a run of decimal digits stands for, most significant digit first. */
  function DecimalValue(s: string): nat
    requires forall i | 0 <= i < |s| :: '0' <= s[i] <= '9'
  {
    if s == [] then 0
    else 10 * DecimalValue(s[..|s| - 1]) + DigitValue(s[|s| - 1])
  }

  function DigitValue(c: char): nat
    requires '0' <= c <= '9'
  {
    c as int - '0' as int
  }

  /** Decimal digits of `n`, most significant first, without leading zeros. */
  function NatToDecimal(n: nat): (r: string)
    ensures IsNumeral(r)
    ensures (r == "0") <==> n == 0
    decreases n
  {
    if n < 10 then [DigitChar(n)] else NatToDecimal(n / 10) + [DigitChar(n % 10)]
  }

  function DigitChar(d: nat): (c: char)
    requires d < 10
    ensures '0' <= c <= '9' && (c == '0' <==> d == 0)
    ensures DigitValue(c) == d
  {
    "0123456789"[d]
  }

  /** The digits of `n` read back as a number give `n`: they are its decimal form. */
  lemma {:induction false} NatToDecimalValue(n: nat)
    ensures DecimalValue(NatToDecimal(n)) == n
    decreases n
  {
    var r := NatToDecimal(n);
    if n >= 10 {
      NatToDecimalValue(n / 10);
      assert r[..|r| - 1] == NatToDecimal(n / 10);
    }
  }
}
