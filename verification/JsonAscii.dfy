/** The writer's texts are ASCII throughout, so their UTF-8 is one byte a character. */
module JsonAscii {
  import opened Hashing
  import opened Json

  lemma {:induction false} AsciiConcat(a: string, b: string)
    requires IsAscii(a) && IsAscii(b)
    ensures IsAscii(a + b)
  {
  }

  lemma {:induction false} CharsAscii(s: string)
    ensures IsAscii(CharsText(s))
  {
    if s != "" {
      CharsAscii(s[1..]);
      AsciiConcat(CharText(s[0]), CharsText(s[1..]));
    }
  }

  lemma {:induction false} TextAscii(j: Json)
    ensures IsAscii(Text(j))
    decreases j, 1
  {
    match j {
      case Null => case Bool(_) => case Int(_) =>
      case Str(s) => CharsAscii(s); AsciiConcat("\"", CharsText(s));
      case Arr(_) => ArrAscii(j);
      case Obj(_) => ObjAscii(j);
    }
  }

  lemma {:induction false} ArrAscii(j: Json)
    requires j.Arr?
    ensures IsAscii(Text(j))
    decreases j, 0
  {
    var items := j.items;
    if items != [] {
      TextAscii(items[0]);
      ItemsAscii(items[1..]);
      AsciiConcat(Text(items[0]), ItemsText(items[1..]));
      AsciiConcat("[", Text(items[0]) + ItemsText(items[1..]));
    }
  }

  lemma {:induction false} ObjAscii(j: Json)
    requires j.Obj?
    ensures IsAscii(Text(j))
    decreases j, 0, |j.fields| + 2
  {
    var keys := SortedKeys(j.fields.Keys);
    if keys != [] {
      MemberAscii(j, keys[0]);
      MembersAscii(j, keys[1..]);
      AsciiConcat(MemberText(j, keys[0]), MembersText(j, keys[1..]));
      AsciiConcat("{", MemberText(j, keys[0]) + MembersText(j, keys[1..]));
    }
  }

  lemma {:induction false} ItemsAscii(items: seq<Json>)
    ensures IsAscii(ItemsText(items))
    decreases items, 0
  {
    if items != [] {
      TextAscii(items[0]);
      ItemsAscii(items[1..]);
      AsciiConcat(",", Text(items[0]));
      AsciiConcat("," + Text(items[0]), ItemsText(items[1..]));
    }
  }

  lemma {:induction false} MemberAscii(j: Json, key: string)
    requires j.Obj? && key in j.fields
    ensures IsAscii(MemberText(j, key))
    decreases j, 0, 0
  {
    CharsAscii(key);
    TextAscii(j.fields[key]);
    AsciiConcat("\"", CharsText(key));
    AsciiConcat(StrText(key), ":");
    AsciiConcat(StrText(key) + ":", Text(j.fields[key]));
  }

  lemma {:induction false} MembersAscii(j: Json, keys: seq<string>)
    requires j.Obj? && forall k | k in keys :: k in j.fields
    ensures IsAscii(MembersText(j, keys))
    decreases j, 0, |keys| + 1
  {
    if keys != [] {
      MemberAscii(j, keys[0]);
      MembersAscii(j, keys[1..]);
      AsciiConcat(",", MemberText(j, keys[0]));
      AsciiConcat("," + MemberText(j, keys[0]), MembersText(j, keys[1..]));
    }
  }
}
