/**
 * The label a benchmark reports to the plotter (BenchmarkHelper.h): a title
 * followed by the decimal rendering of itemCount * itemSize, computed in
 * size_t after itemCount (an int) is converted to unsigned.
 */
module BenchmarkHelper {
  import opened MathFunctions

  /** The conversion of an int to size_t: the value modulo 2^64. */
  function ToSizeT(i: int): (r: nat)
    ensures r < SizeTModulus
    ensures 0 <= i < SizeTModulus ==> r == i
    ensures -(SizeTModulus as int) <= i < 0 ==> r == SizeTModulus + i
  {
    i % SizeTModulus
  }

  predicate IsDigit(c: char) {
    '0' <= c <= '9'
  }

  /** std::to_string of an unsigned value: its decimal digits, most significant first. */
  function ToDecimal(n: nat): (s: string)
    ensures |s| > 0
    ensures forall i :: 0 <= i < |s| ==> IsDigit(s[i])
    ensures |s| > 1 ==> s[0] != '0'
  {
    if n < 10 then [Digit(n)] else ToDecimal(n / 10) + [Digit(n % 10)]
  }

  function Digit(d: nat): (c: char)
    requires d < 10
    ensures IsDigit(c)
    ensures d == 0 <==> c == '0'
  {
    ('0' as int + d) as char
  }

  /** The value of a string of decimal digits. */
  function DecimalValue(s: string): nat
    requires forall i :: 0 <= i < |s| ==> IsDigit(s[i])
  {
    if s == [] then 0
    else
      var last := s[|s| - 1];
      assert IsDigit(last);
      10 * DecimalValue(s[..|s| - 1]) + (last as int - '0' as int)
  }

  /** The rendering reads back as the number it renders. */
  lemma {:induction false} ToDecimalRoundTrip(n: nat)
    ensures DecimalValue(ToDecimal(n)) == n
  {
    var s := ToDecimal(n);
    if n >= 10 {
      ToDecimalRoundTrip(n / 10);
      assert s[..|s| - 1] == ToDecimal(n / 10);
    }
  }

  /** getLabelString: the title followed by the size_t product of count and size, in decimal. */
  function GetLabelString(functionTitle: string, itemCount: int, itemSize: nat): (r: string)
    requires itemSize < SizeTModulus
    ensures |r| > |functionTitle|
    ensures r[..|functionTitle|] == functionTitle
    ensures forall i :: |functionTitle| <= i < |r| ==> IsDigit(r[i])
  {
    functionTitle + ToDecimal((ToSizeT(itemCount) * itemSize) % SizeTModulus)
  }

  /** The number a label ends with, read back from its digits. */
  function LabelNumber(functionTitle: string, rendered: string): nat
    requires |rendered| >= |functionTitle|
    requires forall i :: |functionTitle| <= i < |rendered| ==> IsDigit(rendered[i])
  {
    DecimalValue(rendered[|functionTitle|..])
  }

  /** `rendered` is `title` followed by the decimal digits of `count`. */
  predicate IsLabel(rendered: string, title: string, count: nat)
  {
    |rendered| > |title| && rendered[..|title|] == title
    && (forall i :: |title| <= i < |rendered| ==> IsDigit(rendered[i]))
    && LabelNumber(title, rendered) == count
  }

  /**
   * With item size 1, as every caller passes, a non-negative count below
   * 2^64 is what the label ends with; a negative count is rendered as its
   * size_t image 2^64 + itemCount instead.
   */
  lemma LabelOfCount(functionTitle: string, itemCount: int)
    requires -(SizeTModulus as int) <= itemCount < SizeTModulus
    ensures var rendered := GetLabelString(functionTitle, itemCount, 1);
            LabelNumber(functionTitle, rendered) == if itemCount >= 0 then itemCount else SizeTModulus + itemCount
  {
    var rendered := GetLabelString(functionTitle, itemCount, 1);
    assert rendered[|functionTitle|..] == ToDecimal(ToSizeT(itemCount));
    ToDecimalRoundTrip(ToSizeT(itemCount));
  }

  /**
   * The label holds the size_t product of count and size: the count is
   * converted to size_t and the product is reduced modulo 2^64, for every
   * int count, negative ones included.
   */
  lemma LabelOfProduct(functionTitle: string, itemCount: int, itemSize: nat)
    requires itemSize < SizeTModulus
    ensures LabelNumber(functionTitle, GetLabelString(functionTitle, itemCount, itemSize))
            == (ToSizeT(itemCount) * itemSize) % SizeTModulus
  {
    var product := (ToSizeT(itemCount) * itemSize) % SizeTModulus;
    var rendered := GetLabelString(functionTitle, itemCount, itemSize);
    assert rendered[|functionTitle|..] == ToDecimal(product);
    ToDecimalRoundTrip(product);
  }

  /** When a non-negative count times the size fits in 64 bits, no wrap happens: the label holds the product itself. */
  lemma LabelOfSmallProduct(functionTitle: string, itemCount: nat, itemSize: nat)
    requires itemCount * itemSize < SizeTModulus && itemSize < SizeTModulus && itemCount < SizeTModulus
    ensures LabelNumber(functionTitle, GetLabelString(functionTitle, itemCount, itemSize)) == itemCount * itemSize
  {
    LabelOfProduct(functionTitle, itemCount, itemSize);
    var product := itemCount * itemSize;
    assert ToSizeT(itemCount) == itemCount;
    assert 0 <= product < SizeTModulus;
    assert product % SizeTModulus == product;
  }
}
