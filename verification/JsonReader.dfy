/**
 A reader of JSON (RFC 8259) without insignificant white space, over UTF-16 code units. It takes
 a value off the front of a text and says what follows it.
 */
module JsonReader {
  import opened Basics
  import opened Ordering

  /** What is still to be read. */
  datatype Units = End | Unit(head: int, tail: Units)

  /** A text to be read, and then `rest`. */
  function Onto(t: Text, rest: Units): Units {
    if t == [] then rest else Unit(t[0], Onto(t[1..], rest))
  }

  /** The parts of a number's text: its sign, the digits of its parts, the sign of its exponent. */
  datatype Numeral = Numeral(negative: bool, whole: Text, fraction: Text, down: bool, exponent: Text)

  /**
   The number 0.d1..dk times ten to the power `point`, with its sign. The first and the last digit
   are not zero, and zero itself has no digits.
   */
  datatype Decimal = Decimal(negative: bool, digits: seq<int>, point: int)

  /** A value as read: numbers by their parts, the members of an object in the order of the text. */
  datatype Value =
    | Nothing
    | Boolean(b: bool)
    | Number(n: Numeral)
    | String(units: Text)
    | List(items: seq<Value>)
    | Record(members: seq<(Text, Value)>)

  predicate Starts(t: Units, u: int) { t.Unit? && t.head == u }

  // ---- Numbers ---------------------------------------------------------------------------

  predicate IsDigit(u: int) { 48 <= u <= 57 }

  /** The digits a text begins with, and the rest. */
  function ReadDigits(t: Units): (r: (Text, Units))
    ensures r.0 != [] ==> r.1 < t
    ensures r.0 == [] ==> r.1 == t
  {
    if t.Unit? && IsDigit(t.head) then
      var (digits, rest) := ReadDigits(t.tail);
      ([t.head] + digits, rest)
    else ([], t)
  }

  /** The digits after a decimal point, if there is one. */
  function ReadFraction(t: Units): (r: Option<(Text, Units)>)
    ensures r.Some? ==> r.value.1 == t || r.value.1 < t
  {
    if !Starts(t, 46) then Some(([], t))
    else
      var (digits, rest) := ReadDigits(t.tail);
      if digits == [] then None else Some((digits, rest))
  }

  /** The sign and digits after an e, if there is one. */
  function ReadExponent(t: Units): (r: Option<(bool, Text, Units)>)
    ensures r.Some? ==> r.value.2 == t || r.value.2 < t
  {
    if !Starts(t, 101) && !Starts(t, 69) then Some((false, [], t))
    else
      var signed := Starts(t.tail, 43) || Starts(t.tail, 45);
      var (digits, rest) := ReadDigits(if signed then t.tail.tail else t.tail);
      if digits == [] then None else Some((Starts(t.tail, 45), digits, rest))
  }

  /** An integer part without leading zeros, a fraction, an exponent. */
  function ReadMagnitude(t: Units): (r: Option<(Numeral, Units)>)
    ensures r.Some? ==> r.value.1 < t
  {
    var (whole, afterWhole) := ReadDigits(t);
    if whole == [] || (Starts(t, 48) && |whole| > 1) then None
    else
      match ReadFraction(afterWhole)
      case None => None
      case Some((fraction, afterFraction)) =>
        match ReadExponent(afterFraction)
        case None => None
        case Some((down, exponent, rest)) => Some((Numeral(false, whole, fraction, down, exponent), rest))
  }

  function ReadNumber(t: Units): (r: Option<(Numeral, Units)>)
    ensures r.Some? ==> r.value.1 < t
  {
    if Starts(t, 45) then
      match ReadMagnitude(t.tail)
      case None => None
      case Some((n, rest)) => Some((n.(negative := true), rest))
    else ReadMagnitude(t)
  }

  /** The number that the first `n` of some decimal digits denote. */
  function DigitsValue(t: Text, n: nat): int
    requires n <= |t|
  {
    if n == 0 then 0 else DigitsValue(t, n - 1) * 10 + (t[n - 1] - 48)
  }

  /** Where the first unit from `i` on stands that is not a zero. */
  function First(t: Text, i: nat): (n: nat)
    requires i <= |t|
    ensures i <= n <= |t| && (n < |t| ==> t[n] != 48)
    ensures forall k :: i <= k < n ==> t[k] == 48
    decreases |t| - i
  {
    if i < |t| && t[i] == 48 then First(t, i + 1) else i
  }

  /** Where the zeros begin that the first `i` units end with. */
  function Last(t: Text, i: nat): (n: nat)
    requires i <= |t|
    ensures n <= i && (n > 0 ==> t[n - 1] != 48)
    ensures forall k :: n <= k < i ==> t[k] == 48
  {
    if i > 0 && t[i - 1] == 48 then Last(t, i - 1) else i
  }

  /** The number a numeral denotes: its digits without zeros at either end, and where the point is. */
  function Denoted(n: Numeral): Decimal {
    Placed(n.negative, n.whole + n.fraction,
           |n.whole| + if n.down then -DigitsValue(n.exponent, |n.exponent|) else DigitsValue(n.exponent, |n.exponent|))
  }

  function Placed(negative: bool, t: Text, point: int): Decimal {
    var first, last := First(t, 0), Last(t, |t|);
    if last <= first then Decimal(false, [], 0)
    else Decimal(negative, seq(last - first, i requires 0 <= i < last - first => t[first + i] - 48), point - first)
  }

  // ---- Strings -----------------------------------------------------------------------------

  function HexValue(u: int): Option<nat> {
    if 48 <= u <= 57 then Some(u - 48)
    else if 97 <= u <= 102 then Some(u - 87)
    else if 65 <= u <= 70 then Some(u - 55)
    else None
  }

  /** Four hexadecimal digits. */
  function ReadHex(t: Units): (r: Option<(int, Units)>)
    ensures r.Some? ==> r.value.1 < t
  {
    match t
    case Unit(a, Unit(b, Unit(c, Unit(d, rest)))) =>
      (match (HexValue(a), HexValue(b), HexValue(c), HexValue(d))
       case (Some(w), Some(x), Some(y), Some(z)) => Some((w * 0x1000 + x * 0x100 + y * 0x10 + z, rest))
       case _ => None)
    case _ => None
  }

  /** The unit an escape of two units stands for. */
  function Unescaped(u: int): Option<int> {
    match u
    case 34 => Some(34)   // "
    case 92 => Some(92)   // \
    case 47 => Some(47)   // /
    case 98 => Some(8)    // b
    case 102 => Some(12)  // f
    case 110 => Some(10)  // n
    case 114 => Some(13)  // r
    case 116 => Some(9)   // t
    case _ => None
  }

  /** One unit of a string, escaped or as it is. */
  function ReadUnit(t: Units): (r: Option<(int, Units)>)
    ensures r.Some? ==> r.value.1 < t
  {
    match t
    case End => None
    case Unit(92, Unit(117, more)) => ReadHex(more)
    case Unit(92, Unit(c, more)) =>
      (match Unescaped(c)
       case None => None
       case Some(u) => Some((u, more)))
    case Unit(92, End) => None
    case Unit(u, more) => if u < 32 then None else Some((u, more))
  }

  /** The rest of a string whose opening quote has been read. */
  function ReadUnits(t: Units): (r: Option<(Text, Units)>)
    ensures r.Some? ==> r.value.1 < t
  {
    if Starts(t, 34) then Some(([], t.tail))
    else
      match ReadUnit(t)
      case None => None
      case Some((u, more)) =>
        match ReadUnits(more)
        case None => None
        case Some((units, rest)) => Some(([u] + units, rest))
  }

  function ReadString(t: Units): (r: Option<(Text, Units)>)
    ensures r.Some? ==> r.value.1 < t
  {
    if Starts(t, 34) then ReadUnits(t.tail) else None
  }

  // ---- Values --------------------------------------------------------------------------------

  /** The value made of what was read, if anything was. */
  function As<T>(read: Option<(T, Units)>, make: T -> Value): (r: Option<(Value, Units)>)
    ensures r.Some? <==> read.Some?
    ensures r.Some? ==> r.value == (make(read.value.0), read.value.1)
  {
    match read
    case None => None
    case Some((x, rest)) => Some((make(x), rest))
  }

  function ReadValue(t: Units): (r: Option<(Value, Units)>)
    ensures r.Some? ==> r.value.1 < t
    decreases t, 0
  {
    match t
    case End => None
    case Unit(110, Unit(117, Unit(108, Unit(108, rest)))) => Some((Nothing, rest))
    case Unit(116, Unit(114, Unit(117, Unit(101, rest)))) => Some((Boolean(true), rest))
    case Unit(102, Unit(97, Unit(108, Unit(115, Unit(101, rest))))) => Some((Boolean(false), rest))
    case Unit(34, _) => As(ReadString(t), units => String(units))
    case Unit(91, Unit(93, rest)) => Some((List([]), rest))
    case Unit(91, more) => As(ReadItems(more), items => List(items))
    case Unit(123, Unit(125, rest)) => Some((Record([]), rest))
    case Unit(123, more) => As(ReadMembers(more), members => Record(members))
    case Unit(_, _) => As(ReadNumber(t), n => Number(n))
  }

  /** One or more items and the closing bracket. */
  function ReadItems(t: Units): (r: Option<(seq<Value>, Units)>)
    ensures r.Some? ==> r.value.1 < t
    decreases t, 1
  {
    match ReadValue(t)
    case None => None
    case Some((first, Unit(93, rest))) => Some(([first], rest))
    case Some((first, Unit(44, more))) =>
      (match ReadItems(more)
       case None => None
       case Some((items, rest)) => Some(([first] + items, rest)))
    case Some(_) => None
  }

  function ReadMember(t: Units): (r: Option<((Text, Value), Units)>)
    ensures r.Some? ==> r.value.1 < t
    decreases t, 1
  {
    match ReadString(t)
    case None => None
    case Some((key, Unit(58, more))) =>
      (match ReadValue(more)
       case None => None
       case Some((value, rest)) => Some(((key, value), rest)))
    case Some(_) => None
  }

  /** One or more members and the closing brace. */
  function ReadMembers(t: Units): (r: Option<(seq<(Text, Value)>, Units)>)
    ensures r.Some? ==> r.value.1 < t
    decreases t, 2
  {
    match ReadMember(t)
    case None => None
    case Some((first, Unit(125, rest))) => Some(([first], rest))
    case Some((first, Unit(44, more))) =>
      (match ReadMembers(more)
       case None => None
       case Some((members, rest)) => Some(([first] + members, rest)))
    case Some(_) => None
  }
}
