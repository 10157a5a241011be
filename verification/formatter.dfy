/** The display formatters of app.js: magnitude buckets for money and token
    amounts, and the shortened wallet address. The digits that `toFixed`
    would print are not modelled; a format records the choice the code makes
    (currency sign, divisor, suffix, number of decimals), from which the text
    is `$`? + toFixed(value / divisor, decimals) + suffix. */
module Formatter {
  import opened Text

  const Thousand: real := 1_000.0
  const Million: real := 1_000_000.0
  const Billion: real := 1_000_000_000.0

  datatype Suffix = NoSuffix | K | M | B

  /** What a suffix stands for: the number the value is divided by. */
  function Magnitude(s: Suffix): real {
    match s
    case NoSuffix => 1.0
    case K => Thousand
    case M => Million
    case B => Billion
  }

  datatype NumberFormat = NumberFormat(currency: bool, divisor: real, suffix: Suffix, decimals: nat)
  {
    /** The number `toFixed` is applied to. */
    function Scaled(n: real): real
      requires divisor > 0.0
    {
      n / divisor
    }
  }

  /** `formatLargeNumber`: market cap and volume, always in dollars, one
      decimal with a B/M/K suffix and two decimals without one. */
  function FormatLargeNumber(n: real): (r: NumberFormat)
    ensures r.currency
    ensures r.divisor > 0.0
    ensures r.divisor == Magnitude(r.suffix)
    ensures r.suffix == B <==> n >= Billion
    ensures r.suffix == M <==> Million <= n < Billion
    ensures r.suffix == K <==> Thousand <= n < Million
    ensures r.suffix == NoSuffix <==> n < Thousand
    ensures r.decimals == (if r.suffix == NoSuffix then 2 else 1)
    ensures r.suffix != NoSuffix ==> r.Scaled(n) >= 1.0
    ensures r.suffix != B ==> r.Scaled(n) < 1000.0
  {
    if n >= Billion then NumberFormat(true, Billion, B, 1)
    else if n >= Million then NumberFormat(true, Million, M, 1)
    else if n >= Thousand then NumberFormat(true, Thousand, K, 1)
    else NumberFormat(true, 1.0, NoSuffix, 2)
  }

  /** `formatAmount`: token amounts, no currency sign, M with two decimals,
      K with one, and two decimals below a thousand. There is no B bucket:
      amounts of a billion and more are shown in millions. */
  function FormatAmount(n: real): (r: NumberFormat)
    ensures !r.currency
    ensures r.divisor > 0.0
    ensures r.divisor == Magnitude(r.suffix)
    ensures r.suffix != B
    ensures r.suffix == M <==> n >= Million
    ensures r.suffix == K <==> Thousand <= n < Million
    ensures r.suffix == NoSuffix <==> n < Thousand
    ensures r.decimals == (if r.suffix == K then 1 else 2)
    ensures r.suffix != NoSuffix ==> r.Scaled(n) >= 1.0
    ensures r.suffix != M ==> r.Scaled(n) < 1000.0
  {
    if n >= Million then NumberFormat(false, Million, M, 2)
    else if n >= Thousand then NumberFormat(false, Thousand, K, 1)
    else NumberFormat(false, 1.0, NoSuffix, 2)
  }

  /** Below a billion both formatters choose the same bucket and divisor;
      they differ in the currency sign and in the decimals of the M bucket. */
  lemma FormattersShareBucketsBelowBillion(n: real)
    requires n < Billion
    ensures FormatLargeNumber(n).suffix == FormatAmount(n).suffix
    ensures FormatLargeNumber(n).divisor == FormatAmount(n).divisor
    ensures FormatLargeNumber(n).decimals == FormatAmount(n).decimals <==> FormatAmount(n).suffix != M
  {
  }

  /** The worked examples: 1.25e9 dollars is shown as 1.25 billions with one
      decimal; 1.25e6 tokens as 1.25 millions with two; 500 tokens as 500
      with two. */
  lemma FormatExamples()
    ensures var f := FormatLargeNumber(1_250_000_000.0);
      f.currency && f.suffix == B && f.decimals == 1 && f.Scaled(1_250_000_000.0) == 1.25
    ensures var f := FormatAmount(1_250_000.0);
      !f.currency && f.suffix == M && f.decimals == 2 && f.Scaled(1_250_000.0) == 1.25
    ensures var f := FormatAmount(500.0);
      !f.currency && f.suffix == NoSuffix && f.decimals == 2 && f.Scaled(500.0) == 500.0
  {
  }

  /** `truncateAddress`: the first 12 characters, "...", the last 8, with
      `substring` clamping both ends when the address is short. */
  function TruncateAddress(address: string): (r: string)
    ensures var n := |address|;
      r == address[..Min(12, n)] + "..." + address[Max(0, n - 8)..]
    ensures |r| == Min(12, |address|) + 3 + Min(8, |address|)
    ensures |address| >= 20 ==>
      && |r| == 23
      && r[..12] == address[..12]
      && r[12..15] == "..."
      && r[15..] == address[|address| - 8..]
  {
    Substring(address, 0, 12) + "..." + Substring(address, |address| - 8, |address|)
  }

  /** Long addresses that agree on their first 12 and last 8 characters
      are displayed identically. */
  lemma TruncationKeepsOnlyEnds(a: string, b: string)
    requires |a| >= 20 && |b| >= 20
    ensures TruncateAddress(a) == TruncateAddress(b) <==>
      a[..12] == b[..12] && a[|a| - 8..] == b[|b| - 8..]
  {
    var ta, tb := TruncateAddress(a), TruncateAddress(b);
    if ta == tb {
      assert a[..12] == ta[..12];
      assert a[|a| - 8..] == ta[15..];
    }
  }

  lemma TruncateExample()
    ensures TruncateAddress("EQCabcdefghijklmnopqrstuvwxyz0123") == "EQCabcdefghi...wxyz0123"
  {
  }
}
