/** The course card's display helpers (`CourseCard.tsx`): the price label, the level badge
    colour, and the choice of subscriber label. The one-decimal digits of the `M` and `K`
    labels are floating-point formatting and are represented by the count they are made from. */
module CourseCard {
  import opened Basics
  import opened Text

  /** `formatPrice`: "Free" for a price that reads `free` in any case, otherwise the price
      behind a dollar sign. */
  function FormatPrice(price: string): (r: string)
    ensures r == "Free" <==> Lower(price) == "free"
    ensures Lower(price) != "free" ==> |r| == |price| + 1 && r[0] == '$' && r[1..] == price
  {
    if Lower(price) == "free" then "Free"
    else
      var r := "$" + price;
      assert r[0] != "Free"[0];
      r
  }

  datatype BadgeColor = Green | Yellow | Red | Blue | Gray

  const KnownLevels: seq<string> := ["beginner level", "intermediate level", "expert level", "all levels"]

  /** `getLevelColor`: the `switch` on the lowercased level. */
  function LevelColor(level: string): (color: BadgeColor)
    ensures color == Gray <==> Lower(level) !in KnownLevels
    ensures color == Green <==> Lower(level) == "beginner level"
    ensures color == Yellow <==> Lower(level) == "intermediate level"
    ensures color == Red <==> Lower(level) == "expert level"
    ensures color == Blue <==> Lower(level) == "all levels"
  {
    var l := Lower(level);
    if l == "beginner level" then Green
    else if l == "intermediate level" then Yellow
    else if l == "expert level" then Red
    else if l == "all levels" then Blue
    else Gray
  }

  /** The class names the badge receives. */
  function BadgeClasses(color: BadgeColor): string {
    match color
    case Green => "bg-green-100 text-green-800"
    case Yellow => "bg-yellow-100 text-yellow-800"
    case Red => "bg-red-100 text-red-800"
    case Blue => "bg-blue-100 text-blue-800"
    case Gray => "bg-gray-100 text-gray-800"
  }

  /** The level labels are matched whatever the case of their letters. */
  lemma LevelColorIgnoresCase(a: string, b: string)
    requires Lower(a) == Lower(b)
    ensures LevelColor(a) == LevelColor(b)
  {
  }

  /** Which label `formatSubscribers` produces: millions or thousands with the `M` or `K`
      suffix, the plain decimal text of the count, or `NaN` when the text does not parse. */
  datatype SubscriberLabel = Millions(count: int) | Thousands(count: int) | Plain(text: string) | NotANumber

  const Million: int := 1000000
  const Thousand: int := 1000

  /** `formatSubscribers`: the branches on `parseInt(subscribers)`. */
  function FormatSubscribers(subscribers: string): (shown: SubscriberLabel)
    ensures shown.Millions? <==> ParseInt(subscribers).Some? && ParseInt(subscribers).value >= Million
    ensures shown.Thousands? <==> ParseInt(subscribers).Some? && Thousand <= ParseInt(subscribers).value < Million
    ensures shown.Plain? <==> ParseInt(subscribers).Some? && ParseInt(subscribers).value < Thousand
    ensures shown.NotANumber? <==> ParseInt(subscribers).None?
    ensures shown.Millions? || shown.Thousands? ==> Some(shown.count) == ParseInt(subscribers)
    ensures shown.Plain? ==> ParseInt(shown.text) == ParseInt(subscribers)
  {
    match ParseInt(subscribers)
    case None => NotANumber
    case Some(n) =>
      if n >= Million then Millions(n)
      else if n >= Thousand then Thousands(n)
      else IntToStringParses(n); Plain(IntToString(n))
  }

  /** The suffix each label ends with. */
  function Suffix(shown: SubscriberLabel): string {
    match shown
    case Millions(_) => "M"
    case Thousands(_) => "K"
    case Plain(_) => ""
    case NotANumber => ""
  }

  function DigitChar(d: int): (c: char)
    requires 0 <= d < 10
    ensures IsDecimalDigit(c) && DigitValue(c, 10) == d
  {
    ('0' as int + d) as char
  }

  /** `n.toString()` for a non-negative integer: its decimal digits, most significant first. */
  function DecimalString(n: nat): (s: string)
    ensures s != [] && forall k :: 0 <= k < |s| ==> IsDecimalDigit(s[k])
    decreases n
  {
    if n < 10 then [DigitChar(n)] else DecimalString(n / 10) + [DigitChar(n % 10)]
  }

  /** `n.toString()`. */
  function IntToString(n: int): string {
    if n < 0 then "-" + DecimalString(-n) else DecimalString(n)
  }

  /** Reading back the decimal digits of `n` gives `n`. */
  lemma {:induction false} DecimalStringValue(n: nat)
    ensures DigitsValue(DecimalString(n), 10) == n
    decreases n
  {
    var s := DecimalString(n);
    if n >= 10 {
      DecimalStringValue(n / 10);
      assert s[..|s| - 1] == DecimalString(n / 10);
    }
  }

  /** `parseInt(n.toString())` is `n`. */
  lemma IntToStringParses(n: int)
    ensures ParseInt(IntToString(n)) == Some(n)
  {
    var ds := DecimalString(if n < 0 then -n else n);
    DecimalStringValue(if n < 0 then -n else n);
    if n < 0 {
      var s := IntToString(n);
      assert s == "-" + ds;
      assert !IsJsSpace(s[0]);
      assert JsLeadingSpaces(s, 0) == 0;
      assert s[0..] == s && s[1..] == ds;
      ParseIntDecimal(ds);
      assert !IsDecimalDigit('x') && !IsDecimalDigit('X');
      assert ParseUnsigned(ds) == ParseDigits(ds, 10);
      assert DigitRun(ds, 10) == |ds|;
      assert ds[..|ds|] == ds;
    } else {
      ParseIntDecimal(ds);
    }
  }
}
