/** The compact, key-sorted JSON text that the audit bundle hashes.

    `json.dumps(v, sort_keys=True, separators=(",", ":"))` over null, booleans, integers,
    strings, arrays and objects with string keys.  A Dafny `char` is a Unicode scalar value,
    so strings with lone surrogates do not arise. */
module Json {
  import opened Hashing

  datatype Json =
    | Null
    | Bool(b: bool)
    | Int(n: int)
    | Str(s: string)
    | Arr(items: seq<Json>)
    | Obj(fields: map<string, Json>)

  // ----- key order ---------------------------------------------------------------------

  /** Python's order on strings: by code point, a prefix first. */
  predicate LexLe(a: string, b: string) {
    a == "" || (b != "" && (a[0] < b[0] || (a[0] == b[0] && LexLe(a[1..], b[1..]))))
  }

  lemma {:induction false} LexLeTotal(a: string, b: string)
    ensures LexLe(a, b) || LexLe(b, a)
  {
    if a != "" && b != "" { LexLeTotal(a[1..], b[1..]); }
  }

  lemma {:induction false} LexLeTransitive(a: string, b: string, c: string)
    requires LexLe(a, b) && LexLe(b, c)
    ensures LexLe(a, c)
  {
    if a != "" && b != "" && c != "" && a[0] == b[0] == c[0] { LexLeTransitive(a[1..], b[1..], c[1..]); }
  }

  lemma {:induction false} LexLeAntisymmetric(a: string, b: string)
    requires LexLe(a, b) && LexLe(b, a)
    ensures a == b
  {
    if a != "" && b != "" {
      LexLeAntisymmetric(a[1..], b[1..]);
      assert a == [a[0]] + a[1..] && b == [b[0]] + b[1..];
    }
  }

  predicate IsLeastKey(least: string, keys: set<string>) {
    least in keys && forall k | k in keys :: LexLe(least, k)
  }

  lemma {:induction false} LeastKeyExists(keys: set<string>)
    requires keys != {}
    ensures exists least :: IsLeastKey(least, keys)
    decreases |keys|
  {
    var k :| k in keys;
    if keys == {k} {
      LexLeTotal(k, k);
      assert IsLeastKey(k, keys);
    } else {
      LeastKeyExists(keys - {k});
      var m :| IsLeastKey(m, keys - {k});
      LexLeTotal(k, m);
      var least := if LexLe(k, m) then k else m;
      forall x | x in keys ensures LexLe(least, x) {
        if x == k { LexLeTotal(k, k); } else if LexLe(k, m) { LexLeTransitive(k, m, x); }
      }
      assert IsLeastKey(least, keys);
    }
  }

  lemma {:induction false} LeastKeyUnique(keys: set<string>)
    ensures forall x, y | IsLeastKey(x, keys) && IsLeastKey(y, keys) :: x == y
  {
    forall x, y | IsLeastKey(x, keys) && IsLeastKey(y, keys) ensures x == y {
      LexLeAntisymmetric(x, y);
    }
  }

  /** The keys of an object in the order `sort_keys=True` writes them. */
  function SortedKeys(keys: set<string>): (sorted: seq<string>)
    ensures forall k :: k in sorted <==> k in keys
    ensures |sorted| == |keys|
    ensures forall i, j | 0 <= i < j < |sorted| :: LexLe(sorted[i], sorted[j]) && sorted[i] != sorted[j]
    decreases |keys|
  {
    if keys == {} then [] else
    LeastKeyExists(keys);
    LeastKeyUnique(keys);
    var least :| IsLeastKey(least, keys);
    [least] + SortedKeys(keys - {least})
  }

  // ----- the writer --------------------------------------------------------------------

  function DigitChar(n: int): (c: char)
    requires 0 <= n < 10
    ensures '0' <= c <= '9'
  {
    '0' + n as char
  }

  predicate IsDigit(c: char) { '0' <= c <= '9' }

  function Digits(n: nat): (text: string)
    ensures |text| > 0
    ensures forall i | 0 <= i < |text| :: IsDigit(text[i])
  {
    if n < 10 then [DigitChar(n)] else Digits(n / 10) + [DigitChar(n % 10)]
  }

  function IntText(n: int): (text: string)
    ensures |text| > 0
  {
    if n < 0 then "-" + Digits(-n) else Digits(n)
  }

  function Hex4(n: int): (text: string)
    requires 0 <= n < 0x1_0000
    ensures |text| == 4
  {
    [HexDigit(n / 4096), HexDigit(n / 256 % 16), HexDigit(n / 16 % 16), HexDigit(n % 16)]
  }

  function Unicode(n: int): (text: string)
    requires 0 <= n < 0x1_0000
    ensures |text| == 6
  {
    "\\u" + Hex4(n)
  }

  /** One character inside a string literal, with `ensure_ascii` on (section 7 of RFC 8259):
      short escapes, printable ASCII as itself, the rest as one `\u` escape or a surrogate pair. */
  function CharText(c: char): (text: string)
    ensures |text| > 0 && text[0] != '"'
  {
    if c == '"' then "\\\""
    else if c == '\\' then "\\\\"
    else if c == '\n' then "\\n"
    else if c == '\r' then "\\r"
    else if c == '\t' then "\\t"
    else if c == '\U{0C}' then "\\f"
    else if c == '\U{08}' then "\\b"
    else if ' ' <= c <= '~' then [c]
    else if c as int < 0x1_0000 then Unicode(c as int)
    else
      var v := c as int - 0x1_0000;
      Unicode(0xD800 + v / 1024) + Unicode(0xDC00 + v % 1024)
  }

  /** The characters of a string literal after its opening quote, closing quote included. */
  function CharsText(s: string): (text: string)
    ensures |text| > 0
  {
    if s == "" then "\"" else CharText(s[0]) + CharsText(s[1..])
  }

  function StrText(s: string): (text: string)
    ensures |text| > 0 && text[0] == '"'
  {
    "\"" + CharsText(s)
  }

  function Text(j: Json): (text: string)
    ensures |text| > 0
    decreases j, 1
  {
    match j
    case Null => "null"
    case Bool(b) => if b then "true" else "false"
    case Int(n) => IntText(n)
    case Str(s) => StrText(s)
    case Arr(items) => "[" + if items == [] then "]" else Text(items[0]) + ItemsText(items[1..])
    case Obj(fields) =>
      var keys := SortedKeys(fields.Keys);
      "{" + if keys == [] then "}" else MemberText(j, keys[0]) + MembersText(j, keys[1..])
  }

  /** The items of an array after its first, closing bracket included. */
  function ItemsText(items: seq<Json>): (text: string)
    ensures |text| > 0 && text[0] in ",]"
    decreases items, 0
  {
    if items == [] then "]" else "," + Text(items[0]) + ItemsText(items[1..])
  }

  function MemberText(j: Json, key: string): (text: string)
    requires j.Obj? && key in j.fields
    ensures |text| > 0
    decreases j, 0, 0
  {
    StrText(key) + ":" + Text(j.fields[key])
  }

  /** The members of an object after its first, closing brace included. */
  function MembersText(j: Json, keys: seq<string>): (text: string)
    requires j.Obj? && forall k | k in keys :: k in j.fields
    ensures |text| > 0 && text[0] in ",}"
    decreases j, 0, |keys| + 1
  {
    if keys == [] then "}" else "," + MemberText(j, keys[0]) + MembersText(j, keys[1..])
  }
}
