/** Compact JSON reads back: a text is cut off the front of a longer one in only one way and its
    value recovered, so texts may be written back to back with nothing between them. */
module JsonDecodability {
  import opened Hashing
  import opened Json
  import opened JsonReader

  lemma {:induction false} Regroup(x: string, y: string, r: string)
    ensures (x + y) + r == x + (y + r)
  {
  }

  // ----- numbers -----------------------------------------------------------------------

  /** Where a number ends: at the end of the text or before a character that is no digit. */
  predicate Delimited(rest: string) {
    rest == "" || !IsDigit(rest[0])
  }

  lemma {:induction false} DigitsRoundTrip(n: nat)
    ensures DigitsValue(Digits(n)) == n
    ensures Digits(n)[0] == '0' <==> n == 0
  {
    if n < 10 {
      assert Digits(n)[..0] == "";
    } else {
      DigitsRoundTrip(n / 10);
      assert Digits(n)[..|Digits(n)| - 1] == Digits(n / 10);
    }
  }

  lemma {:induction false} DigitRun(x: string, r: string)
    requires (forall i | 0 <= i < |x| :: IsDigit(x[i])) && Delimited(r)
    ensures DigitCount(x + r) == |x|
  {
    assert forall i | 0 <= i < |x| :: (x + r)[i] == x[i];
    assert r != "" ==> (x + r)[|x|] == r[0];
  }

  lemma {:induction false} NumeralBack(n: nat, r: string)
    requires Delimited(r)
    ensures ReadNumeral(Digits(n) + r) == Got(n, r)
  {
    var x := Digits(n);
    DigitRun(x, r);
    DigitsRoundTrip(n);
    assert (x + r)[0] == x[0] && (x + r)[..|x|] == x && (x + r)[|x|..] == r;
  }

  lemma {:induction false} IntBack(n: int, r: string)
    requires Delimited(r)
    ensures ReadInt(IntText(n) + r) == Got(Int(n), r)
  {
    var m := if n < 0 then -n else n;
    var x := Digits(m);
    NumeralBack(m, r);
    Regroup("-", x, r);
    assert (x + r)[0] == x[0];
  }

  // ----- strings -----------------------------------------------------------------------

  lemma {:induction false} Nibbles(n: int)
    requires 0 <= n < 0x1_0000
    ensures n == 4096 * (n / 4096) + 256 * (n / 256 % 16) + 16 * (n / 16 % 16) + n % 16
  {
    assert n / 16 / 16 == n / 256 && n / 256 / 16 == n / 4096;
  }

  lemma {:induction false} UnitBack(n: int, r: string)
    requires 0 <= n < 0x1_0000
    ensures ReadUnit(Unicode(n) + r) == Got(n, r)
  {
    var x := Unicode(n);
    assert x[0] == '\\' && x[1] == 'u';
    assert x[2] == Hex4(n)[0] && x[3] == Hex4(n)[1] && x[4] == Hex4(n)[2] && x[5] == Hex4(n)[3];
    HexDigitReadsBack(n / 4096);
    HexDigitReadsBack(n / 256 % 16);
    HexDigitReadsBack(n / 16 % 16);
    HexDigitReadsBack(n % 16);
    Nibbles(n);
    assert (x + r)[6..] == r;
    assert forall i | 0 <= i < 6 :: (x + r)[i] == x[i];
  }

  /** Two units in a row, as the reader takes them. */
  lemma {:induction false} PairRead(text: string, high: int, low: int, middle: string, r: string)
    requires ReadUnit(text) == Got(high, middle) && ReadUnit(middle) == Got(low, r)
    requires 0xD800 <= high < 0xDC00 && 0xDC00 <= low < 0xE000
    ensures ReadUnicode(text) == Got((0x1_0000 + (high - 0xD800) * 0x400 + (low - 0xDC00)) as char, r)
  {
  }

  lemma {:induction false} PairText(c: char, high: int, low: int)
    requires c as int >= 0x1_0000
    requires high == 0xD800 + (c as int - 0x1_0000) / 1024 && low == 0xDC00 + (c as int - 0x1_0000) % 1024
    ensures 0xD800 <= high < 0xDC00 && 0xDC00 <= low < 0xE000
    ensures CharText(c) == Unicode(high) + Unicode(low)
    ensures 0x1_0000 + (high - 0xD800) * 0x400 + (low - 0xDC00) == c as int
  {
  }

  lemma {:induction false} PairBack(c: char, r: string)
    requires c as int >= 0x1_0000
    ensures ReadUnicode(CharText(c) + r) == Got(c, r)
  {
    var high, low := 0xD800 + (c as int - 0x1_0000) / 1024, 0xDC00 + (c as int - 0x1_0000) % 1024;
    PairText(c, high, low);
    UnitBack(high, Unicode(low) + r);
    UnitBack(low, r);
    Regroup(Unicode(high), Unicode(low), r);
    PairRead(CharText(c) + r, high, low, Unicode(low) + r, r);
  }

  lemma {:induction false} UnicodeBack(c: char, r: string)
    requires OnlyUnicode(c)
    ensures ReadUnicode(CharText(c) + r) == Got(c, r)
  {
    if c as int < 0x1_0000 {
      UnitBack(c as int, r);
      assert CharText(c) == Unicode(c as int);
    } else {
      PairBack(c, r);
    }
  }

  lemma {:induction false} ShortText(c: char)
    requires !OnlyUnicode(c)
    ensures var x := CharText(c);
            || (x == [c] && ' ' <= c <= '~' && c != '\\' && c != '"')
            || (|x| == 2 && x[0] == '\\' && ShortEscape(x[1]).Got? && ShortEscape(x[1]).value == c)
  {
  }

  /** Reading undoes writing, character by character. */
  lemma {:induction false} CharBack(c: char, r: string)
    ensures ReadChar(CharText(c) + r) == Got(c, r)
  {
    var x := CharText(c);
    assert (x + r)[0] == x[0] && (|x| > 1 ==> (x + r)[1] == x[1]);
    assert (x + r)[|x|..] == r;
    if OnlyUnicode(c) {
      UnicodeBack(c, r);
    } else {
      ShortText(c);
    }
  }

  lemma {:induction false} CharsBack(s: string, r: string)
    ensures ReadChars(CharsText(s) + r) == Got(s, r)
  {
    if s == "" {
      assert ("\"" + r)[1..] == r;
    } else {
      Regroup(CharText(s[0]), CharsText(s[1..]), r);
      CharBack(s[0], CharsText(s[1..]) + r);
      CharsBack(s[1..], r);
      assert s == [s[0]] + s[1..];
    }
  }

  lemma {:induction false} StrBack(s: string, r: string)
    ensures (StrText(s) + r)[0] == '"' && ReadChars((StrText(s) + r)[1..]) == Got(s, r)
  {
    Regroup("\"", CharsText(s), r);
    assert ("\"" + (CharsText(s) + r))[1..] == CharsText(s) + r;
    CharsBack(s, r);
  }

  // ----- keys --------------------------------------------------------------------------

  lemma {:induction false} RisesLater(a: string, b: string, i: nat)
    requires a != "" && b != ""
    ensures RisesAt(a, b, i + 1) <==> a[0] == b[0] && RisesAt(a[1..], b[1..], i)
  {
    if i + 1 <= |a| && i + 1 < |b| {
      assert a[..i + 1] == [a[0]] + a[1..][..i] && b[..i + 1] == [b[0]] + b[1..][..i];
      assert a[1..][..i] == a[..i + 1][1..] && b[1..][..i] == b[..i + 1][1..];
    }
  }

  /** The order the keys are sorted in is the one that compares the first difference. */
  lemma {:induction false} LexLeIsKeyBefore(a: string, b: string)
    ensures LexLe(a, b) <==> a == b || KeyBefore(a, b)
  {
    assert b != "" && (a == "" || a[0] < b[0]) ==> RisesAt(a, b, 0);
    if a != "" && b != "" {
      LexLeIsKeyBefore(a[1..], b[1..]);
      assert a == [a[0]] + a[1..] && b == [b[0]] + b[1..];
      if KeyBefore(a[1..], b[1..]) {
        var i: nat :| i <= |a[1..]| && RisesAt(a[1..], b[1..], i);
        RisesLater(a, b, i);
        assert a[0] == b[0] ==> RisesAt(a, b, i + 1);
      }
      if KeyBefore(a, b) {
        var i: nat :| i <= |a| && RisesAt(a, b, i);
        if i > 0 { RisesLater(a, b, i - 1); }
      }
    }
  }

  // ----- values ------------------------------------------------------------------------

  /** A number needs a delimiter after it; every other value ends by itself. */
  predicate Ends(j: Json, rest: string) {
    j.Int? ==> Delimited(rest)
  }

  lemma {:induction false} NamesBack(r: string)
    ensures ReadValue("null" + r) == Got(Null, r)
    ensures ReadValue("true" + r) == Got(Bool(true), r)
    ensures ReadValue("false" + r) == Got(Bool(false), r)
  {
    assert ("null" + r)[..4] == "null" && ("null" + r)[4..] == r;
    assert ("true" + r)[..4] == "true" && ("true" + r)[4..] == r;
    assert ("false" + r)[..5] == "false" && ("false" + r)[5..] == r;
  }

  lemma {:induction false} NumberBack(n: int, r: string)
    requires Delimited(r)
    ensures ReadValue(IntText(n) + r) == Got(Int(n), r)
  {
    IntBack(n, r);
    var c := IntText(n)[0];
    assert (IntText(n) + r)[0] == c && (c == '-' || IsDigit(c));
  }

  /** Reading the text of any value, whatever follows it, gives the value back and leaves what
      follows. */
  lemma {:induction false} TextReadsBack(j: Json, r: string)
    requires Ends(j, r)
    ensures ReadValue(Text(j) + r) == Got(j, r)
    decreases j, 1
  {
    match j {
      case Null => NamesBack(r);
      case Bool(_) => NamesBack(r);
      case Int(n) => NumberBack(n, r);
      case Str(s) => StrBack(s, r);
      case Arr(_) => ArrBack(j, r);
      case Obj(_) => ObjBack(j, r);
    }
  }

  lemma {:induction false} ArrBack(j: Json, r: string)
    requires j.Arr?
    ensures ReadValue(Text(j) + r) == Got(j, r)
    decreases j, 0, |j.items| + 1
  {
    var x := j.items;
    if x == [] {
      assert ("[]" + r)[2..] == r;
      assert Text(j) == "[]";
    } else {
      var t, u := Text(x[0]), ItemsText(x[1..]);
      Regroup("[", t + u, r);
      Regroup(t, u, r);
      var text := "[" + (t + (u + r));
      assert text[1] == t[0] && text[1..] == t + (u + r);
      ItemsBack(x, r);
    }
  }

  lemma {:induction false} ItemsHead(x: seq<Json>, r: string)
    ensures (ItemsText(x) + r)[0] == if x == [] then ']' else ','
    ensures x == [] ==> (ItemsText(x) + r)[1..] == r
    ensures x != [] ==> (ItemsText(x) + r)[1..] == Text(x[0]) + (ItemsText(x[1..]) + r)
  {
    if x != [] {
      var t, u := Text(x[0]), ItemsText(x[1..]);
      Regroup("," + t, u, r);
      Regroup(",", t, u + r);
    }
  }

  lemma {:induction false} ItemsBack(x: seq<Json>, r: string)
    requires x != []
    ensures ReadItems(Text(x[0]) + (ItemsText(x[1..]) + r)) == Got(x, r)
    decreases x, 0
  {
    var rest := ItemsText(x[1..]) + r;
    ItemsHead(x[1..], r);
    TextReadsBack(x[0], rest);
    if x[1..] == [] {
      assert x == [x[0]];
    } else {
      ItemsBack(x[1..], r);
      assert x == [x[0]] + x[1..];
    }
  }

  /** The named fields of an object. */
  function Chosen(j: Json, keys: seq<string>): map<string, Json>
    requires j.Obj? && forall k | k in keys :: k in j.fields
  {
    map k | k in keys :: j.fields[k]
  }

  predicate Rising(keys: seq<string>) {
    forall i, j | 0 <= i < j < |keys| :: LexLe(keys[i], keys[j]) && keys[i] != keys[j]
  }

  lemma {:induction false} MembersHead(j: Json, keys: seq<string>, r: string)
    requires j.Obj? && forall k | k in keys :: k in j.fields
    ensures (MembersText(j, keys) + r)[0] == if keys == [] then '}' else ','
    ensures keys == [] ==> (MembersText(j, keys) + r)[1..] == r
    ensures keys != [] ==> (MembersText(j, keys) + r)[1..] == MemberText(j, keys[0]) + (MembersText(j, keys[1..]) + r)
  {
    if keys != [] {
      var t, u := MemberText(j, keys[0]), MembersText(j, keys[1..]);
      Regroup("," + t, u, r);
      Regroup(",", t, u + r);
    }
  }

  /** A member's text is its key's, a colon and its value's. */
  lemma {:induction false} MemberHead(j: Json, k: string, r: string)
    requires j.Obj? && k in j.fields
    ensures var value := ":" + (Text(j.fields[k]) + r);
            MemberText(j, k) + r == StrText(k) + value && value[0] == ':' && value[1..] == Text(j.fields[k]) + r
  {
    var t, u := StrText(k), Text(j.fields[k]);
    Regroup(t + ":", u, r);
    Regroup(t, ":", u + r);
  }

  lemma {:induction false} MemberBack(j: Json, k: string, rest: string)
    requires j.Obj? && k in j.fields && rest != ""
    requires ReadValue(Text(j.fields[k]) + rest) == Got(j.fields[k], rest)
    ensures var text := MemberText(j, k) + rest;
            && (rest[0] == '}' ==> ReadMembers(text) == Got(Members(k, map[k := j.fields[k]]), rest[1..]))
            && (rest[0] == ',' ==>
                  match ReadMembers(rest[1..])
                  case Fail => true
                  case Got(more, after) =>
                    KeyBefore(k, more.first) ==> ReadMembers(text) == Got(Members(k, more.fields[k := j.fields[k]]), after))
  {
    var colon := ":" + (Text(j.fields[k]) + rest);
    MemberHead(j, k, rest);
    StrBack(k, colon);
  }

  lemma {:induction false} ChosenStep(j: Json, keys: seq<string>)
    requires j.Obj? && keys != [] && Rising(keys) && forall k | k in keys :: k in j.fields
    ensures Rising(keys[1..]) && (keys[1..] != [] ==> KeyBefore(keys[0], keys[1..][0]))
    ensures Chosen(j, keys) == Chosen(j, keys[1..])[keys[0] := j.fields[keys[0]]]
    ensures keys[1..] == [] ==> Chosen(j, keys) == map[keys[0] := j.fields[keys[0]]]
  {
    if keys[1..] != [] { LexLeIsKeyBefore(keys[0], keys[1]); }
    assert Rising(keys[1..]);
  }

  lemma {:induction false} MembersBack(j: Json, keys: seq<string>, r: string)
    requires j.Obj? && keys != [] && Rising(keys) && forall k | k in keys :: k in j.fields
    ensures ReadMembers(MemberText(j, keys[0]) + (MembersText(j, keys[1..]) + r)) == Got(Members(keys[0], Chosen(j, keys)), r)
    decreases j, 0, |keys| + 1
  {
    var k, rest := keys[0], MembersText(j, keys[1..]) + r;
    MembersHead(j, keys[1..], r);
    TextReadsBack(j.fields[k], rest);
    MemberBack(j, k, rest);
    ChosenStep(j, keys);
    if keys[1..] != [] { MembersBack(j, keys[1..], r); }
  }

  lemma {:induction false} ObjRead(text: string, members: Members, r: string)
    requires text != "" && text[0] == '"' && ReadMembers(text) == Got(members, r)
    ensures ReadValue("{" + text) == Got(Obj(members.fields), r)
  {
    assert ("{" + text)[1] == text[0] && ("{" + text)[1..] == text;
  }

  /** The text of an object is its members in the order of their sorted keys. */
  lemma {:induction false} ObjHead(j: Json, keys: seq<string>, r: string)
    requires j.Obj? && keys == SortedKeys(j.fields.Keys)
    ensures keys == [] ==> j == Obj(map[]) && Text(j) == "{}"
    ensures keys != [] ==>
              var members := MemberText(j, keys[0]) + (MembersText(j, keys[1..]) + r);
              Text(j) + r == "{" + members && members[0] == '"'
    ensures Rising(keys) && Chosen(j, keys) == j.fields
  {
    if keys == [] {
      assert j.fields == map[];
    } else {
      var t, u := MemberText(j, keys[0]), MembersText(j, keys[1..]);
      Regroup("{", t + u, r);
      Regroup(t, u, r);
    }
  }

  lemma {:induction false} ObjBack(j: Json, r: string)
    requires j.Obj?
    ensures ReadValue(Text(j) + r) == Got(j, r)
    decreases j, 0, |j.fields| + 2
  {
    var keys := SortedKeys(j.fields.Keys);
    ObjHead(j, keys, r);
    if keys == [] {
    } else {
      MembersBack(j, keys, r);
      ObjRead(MemberText(j, keys[0]) + (MembersText(j, keys[1..]) + r), Members(keys[0], Chosen(j, keys)), r);
    }
  }

  /** So no value's text is a proper prefix of another's, and what follows is determined too. */
  lemma {:induction false} TextPrefixFree(a: Json, b: Json, r: string, s: string)
    requires Text(a) + r == Text(b) + s && Ends(a, r) && Ends(b, s)
    ensures a == b && r == s
  {
    TextReadsBack(a, r);
    TextReadsBack(b, s);
  }
}
