/** A reader for compact JSON, written from the grammar of RFC 8259 and knowing nothing of the
    writer.  It accepts one spelling of each value: no white space, members in strictly rising code
    point order, no leading zeros, and `\u` only where no shorter form exists. */
module JsonReader {
  import opened Hashing
  import opened Json

  datatype Got<+T> = Fail | Got(value: T, rest: string)

  /** A literal name (section 3). */
  function ReadName(text: string, name: string, value: Json): Got<Json> {
    if |name| <= |text| && text[..|name|] == name then Got(value, text[|name|..]) else Fail
  }

  // ----- numbers (section 6) -----------------------------------------------------------

  function DigitCount(text: string): (n: nat)
    ensures n <= |text|
    ensures forall i | 0 <= i < n :: '0' <= text[i] <= '9'
    ensures n < |text| ==> !('0' <= text[n] <= '9')
  {
    if text == "" || !('0' <= text[0] <= '9') then 0 else DigitCount(text[1..]) + 1
  }

  function DigitsValue(text: string): int {
    if text == "" then 0 else DigitsValue(text[..|text| - 1]) * 10 + (text[|text| - 1] as int - '0' as int)
  }

  function ReadNumeral(text: string): (got: Got<int>)
    ensures got.Got? ==> |got.rest| < |text|
  {
    var n := DigitCount(text);
    if n == 0 || (n > 1 && text[0] == '0') then Fail else Got(DigitsValue(text[..n]), text[n..])
  }

  function ReadInt(text: string): (got: Got<Json>)
    ensures got.Got? ==> |got.rest| < |text|
  {
    if text != "" && text[0] == '-' then
      match ReadNumeral(text[1..])
      case Fail => Fail
      case Got(n, rest) => if n == 0 then Fail else Got(Int(-n), rest)
    else
      match ReadNumeral(text)
      case Fail => Fail
      case Got(n, rest) => Got(Int(n), rest)
  }

  // ----- strings (section 7) -----------------------------------------------------------

  /** A backslash, `u` and four hexadecimal digits. */
  function ReadUnit(text: string): (got: Got<int>)
    ensures got.Got? ==> 0 <= got.value < 0x1_0000 && |got.rest| < |text|
  {
    if |text| < 6 || text[0] != '\\' || text[1] != 'u' then Fail else
    var a, b, c, d := HexValue(text[2]), HexValue(text[3]), HexValue(text[4]), HexValue(text[5]);
    if a < 0 || b < 0 || c < 0 || d < 0 then Fail else Got(4096 * a + 256 * b + 16 * c + d, text[6..])
  }

  function ShortEscape(c: char): Got<char> {
    if c == '"' then Got('"', "") else if c == '\\' then Got('\\', "")
    else if c == 'b' then Got('\U{08}', "") else if c == 't' then Got('\U{09}', "") else if c == 'n' then Got('\U{0A}', "")
    else if c == 'f' then Got('\U{0C}', "") else if c == 'r' then Got('\U{0D}', "") else Fail
  }

  /** Whether a character has no other spelling than `\u`. */
  predicate OnlyUnicode(c: char) {
    (c < ' ' && c !in ['\U{08}', '\U{09}', '\U{0A}', '\U{0C}', '\U{0D}']) || c > '~'
  }

  /** One unit, or two that make up a character beyond the basic plane. */
  function ReadUnicode(text: string): (got: Got<char>)
    ensures got.Got? ==> |got.rest| < |text|
  {
    match ReadUnit(text)
    case Fail => Fail
    case Got(high, rest) =>
      if 0xD800 <= high < 0xDC00 then
        match ReadUnit(rest)
        case Fail => Fail
        case Got(low, after) =>
          if 0xDC00 <= low < 0xE000 then Got((0x1_0000 + (high - 0xD800) * 0x400 + (low - 0xDC00)) as char, after) else Fail
      else if 0xDC00 <= high < 0xE000 then Fail
      else if OnlyUnicode(high as char) then Got(high as char, rest) else Fail
  }

  function ReadChar(text: string): (got: Got<char>)
    ensures got.Got? ==> |got.rest| < |text|
  {
    if text == "" || text[0] == '"' then Fail
    else if text[0] != '\\' then if ' ' <= text[0] <= '~' then Got(text[0], text[1..]) else Fail
    else if |text| > 1 && ShortEscape(text[1]).Got? then Got(ShortEscape(text[1]).value, text[2..])
    else ReadUnicode(text)
  }

  /** The characters after an opening quote, up to and including the closing one. */
  function ReadChars(text: string): (got: Got<string>)
    ensures got.Got? ==> |got.rest| < |text|
    decreases |text|
  {
    if text != "" && text[0] == '"' then Got("", text[1..]) else
    match ReadChar(text)
    case Fail => Fail
    case Got(c, rest) =>
      match ReadChars(rest)
      case Fail => Fail
      case Got(more, after) => Got([c] + more, after)
  }

  // ----- values (sections 3 to 5) ------------------------------------------------------

  function ReadValue(text: string): (got: Got<Json>)
    ensures got.Got? ==> |got.rest| < |text|
    decreases |text|, 0
  {
    if text == "" then Fail
    else if text[0] == 'n' then ReadName(text, "null", Null)
    else if text[0] == 't' then ReadName(text, "true", Bool(true))
    else if text[0] == 'f' then ReadName(text, "false", Bool(false))
    else if text[0] == '"' then
      match ReadChars(text[1..])
      case Fail => Fail
      case Got(s, rest) => Got(Str(s), rest)
    else if text[0] == '[' then
      if |text| > 1 && text[1] == ']' then Got(Arr([]), text[2..]) else
      match ReadItems(text[1..])
      case Fail => Fail
      case Got(items, rest) => Got(Arr(items), rest)
    else if text[0] == '{' then
      if |text| > 1 && text[1] == '}' then Got(Obj(map[]), text[2..]) else
      match ReadMembers(text[1..])
      case Fail => Fail
      case Got(members, rest) => Got(Obj(members.fields), rest)
    else ReadInt(text)
  }

  /** Items after an opening bracket, up to and including the closing one. */
  function ReadItems(text: string): (got: Got<seq<Json>>)
    ensures got.Got? ==> |got.rest| < |text|
    decreases |text|, 1
  {
    match ReadValue(text)
    case Fail => Fail
    case Got(item, rest) =>
      if rest == "" then Fail
      else if rest[0] == ']' then Got([item], rest[1..])
      else if rest[0] != ',' then Fail
      else
        match ReadItems(rest[1..])
        case Fail => Fail
        case Got(more, after) => Got([item] + more, after)
  }

  /** Two keys agree up to a place where the first ends or has the lower character. */
  predicate RisesAt(a: string, b: string, i: nat) {
    i <= |a| && i < |b| && a[..i] == b[..i] && (i == |a| || a[i] < b[i])
  }

  predicate KeyBefore(a: string, b: string) {
    exists i: nat | i <= |a| :: RisesAt(a, b, i)
  }

  datatype Members = Members(first: string, fields: map<string, Json>)

  /** Members after an opening brace, up to and including the closing one. */
  function ReadMembers(text: string): (got: Got<Members>)
    ensures got.Got? ==> |got.rest| < |text|
    decreases |text|, 1
  {
    if text == "" || text[0] != '"' then Fail else
    match ReadChars(text[1..])
    case Fail => Fail
    case Got(key, afterKey) =>
      if afterKey == "" || afterKey[0] != ':' then Fail else
      match ReadValue(afterKey[1..])
      case Fail => Fail
      case Got(value, rest) =>
        if rest == "" then Fail
        else if rest[0] == '}' then Got(Members(key, map[key := value]), rest[1..])
        else if rest[0] != ',' then Fail
        else
          match ReadMembers(rest[1..])
          case Fail => Fail
          case Got(more, after) =>
            if KeyBefore(key, more.first) then Got(Members(key, more.fields[key := value]), after) else Fail
  }
}
