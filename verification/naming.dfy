/**
 Event file naming: `<location>/<name>-<event>.<format>`, with the event
 number written in decimal as `%d` does.
 */
module Naming {

  predicate IsDigit(ch: char)
  {
    '0' <= ch <= '9'
  }

  predicate IsDigits(s: string)
  {
    forall i :: 0 <= i < |s| ==> IsDigit(s[i])
  }

  function DigitChar(d: nat): (ch: char)
    requires d < 10
    ensures IsDigit(ch)
  {
    ('0' as int + d) as char
  }

  function DigitValue(ch: char): (d: nat)
    requires IsDigit(ch)
    ensures d < 10
  {
    ch as int - '0' as int
  }

  /** Decimal rendering of a non-negative count, without leading zeros. */
  function Decimal(n: nat): (s: string)
    ensures |s| > 0 && IsDigits(s)
    ensures s[0] == '0' ==> s == "0"
    decreases n
  {
    if n < 10 then [DigitChar(n)] else Decimal(n / 10) + [DigitChar(n % 10)]
  }

  /** The reading of a digit string, most significant digit first. */
  function ParseDecimal(s: string): nat
    requires IsDigits(s)
    decreases |s|
  {
    if s == [] then 0 else ParseDecimal(s[..|s| - 1]) * 10 + DigitValue(s[|s| - 1])
  }

  lemma {:induction false} ParseDecimalInverse(n: nat)
    ensures ParseDecimal(Decimal(n)) == n
    decreases n
  {
    var s := Decimal(n);
    if n >= 10 {
      assert s[..|s| - 1] == Decimal(n / 10);
      ParseDecimalInverse(n / 10);
    }
  }

  lemma DecimalInjective(a: nat, b: nat)
    ensures Decimal(a) == Decimal(b) ==> a == b
  {
    ParseDecimalInverse(a);
    ParseDecimalInverse(b);
  }

  /** The output path of event number `event`. */
  function FileName(location: string, name: string, event: nat, format: string): string
  {
    location + "/" + name + "-" + Decimal(event) + "." + format
  }

  /** Distinct events of one recorder are written to distinct files. */
  lemma FileNameInjective(location: string, name: string, format: string, a: nat, b: nat)
    ensures FileName(location, name, a, format) == FileName(location, name, b, format) <==> a == b
  {
    var prefix := location + "/" + name + "-";
    var suffix := "." + format;
    var pa := FileName(location, name, a, format);
    var pb := FileName(location, name, b, format);
    assert pa == prefix + (Decimal(a) + suffix);
    assert pb == prefix + (Decimal(b) + suffix);
    if pa == pb {
      var ta := Decimal(a) + suffix;
      var tb := Decimal(b) + suffix;
      assert ta == pa[|prefix|..];
      assert tb == pb[|prefix|..];
      assert |Decimal(a)| == |Decimal(b)|;
      assert Decimal(a) == ta[..|Decimal(a)|];
      assert Decimal(b) == tb[..|Decimal(b)|];
      DecimalInjective(a, b);
    }
  }
}
