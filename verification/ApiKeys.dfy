/** API keys: the settings text, its two parsers, and the key manager. */
module ApiKeys {
  import opened Common
  import opened PyText

  /** What the settings say of one key. */
  datatype Setting = Setting(key: string, scopes: set<string>)

  const ADMIN: string := "admin"
  const READ: string := "read"

  function ScopesIn(pieces: seq<string>): set<string> {
    set p | p in pieces && Strip(p) != "" :: Strip(p)
  }

  /** What `from_settings` makes of one trimmed segment. */
  function SettingOf(segment: string): Setting {
    var k := Find(segment, ':');
    if k == |segment| then Setting(segment, {ADMIN})
    else Setting(segment[..k], ScopesIn(Split(segment[k + 1..], '|')))
  }

  /** What `valid_api_keys` makes of one trimmed segment. */
  function ListedKey(segment: string): string {
    var k := Find(segment, ':');
    if k == |segment| then segment else Strip(segment[..k])
  }

  function Settings(segments: seq<string>): seq<Setting> {
    if segments == [] then [] else
    var last := Strip(segments[|segments| - 1]);
    Settings(segments[..|segments| - 1]) + if last == "" then [] else [SettingOf(last)]
  }

  function ListedKeys(segments: seq<string>): seq<string> {
    if segments == [] then [] else
    var last := Strip(segments[|segments| - 1]);
    ListedKeys(segments[..|segments| - 1]) + if last == "" then [] else [ListedKey(last)]
  }

  /** The parsing loop of `from_settings`. */
  method ParseSettings(text: string) returns (settings: seq<Setting>)
    ensures settings == Settings(Split(text, ','))
  {
    settings := [];
    if Strip(text) == "" {
      return;
    }
    var segments := Split(text, ',');
    for i := 0 to |segments|
      invariant settings == Settings(segments[..i])
    {
      assert segments[..i + 1][..i] == segments[..i];
      var segment := Strip(segments[i]);
      if segment == "" {
        continue;
      }
      settings := settings + [SettingOf(segment)];
    }
    assert segments[..|segments|] == segments;
  }

  /** `valid_api_keys`. */
  method ValidApiKeys(text: string) returns (keys: seq<string>)
    ensures keys == ListedKeys(Split(text, ','))
  {
    keys := [];
    if text == "" {
      return;
    }
    var segments := Split(text, ',');
    for i := 0 to |segments|
      invariant keys == ListedKeys(segments[..i])
    {
      assert segments[..i + 1][..i] == segments[..i];
      var segment := Strip(segments[i]);
      if segment == "" {
        continue;
      }
      keys := keys + [ListedKey(segment)];
    }
    assert segments[..|segments|] == segments;
  }

  // ----- the two parsers ---------------------------------------------------------------

  /** White space right before the first colon of a segment. */
  predicate SpaceBeforeColon(segment: string) {
    var k := Find(segment, ':');
    0 < k < |segment| && IsSpace(segment[k - 1])
  }

  lemma {:induction false} PartsCorrespond(segment: string)
    requires IsTrimmed(segment)
    ensures ListedKey(segment) == Strip(SettingOf(segment).key)
    ensures ListedKey(segment) == SettingOf(segment).key <==> !SpaceBeforeColon(segment)
  {
    var key := SettingOf(segment).key;
    assert key != "" ==> key[0] == segment[0];
    if SpaceBeforeColon(segment) {
      assert IsSpace(key[|key| - 1]);
    } else {
      TrimmedStripsToItself(key);
    }
  }

  function KeysOf(settings: seq<Setting>): (keys: seq<string>)
    ensures |keys| == |settings|
  {
    if settings == [] then [] else KeysOf(settings[..|settings| - 1]) + [settings[|settings| - 1].key]
  }

  function Stripped(keys: seq<string>): (stripped: seq<string>)
    ensures |stripped| == |keys|
  {
    if keys == [] then [] else Stripped(keys[..|keys| - 1]) + [Strip(keys[|keys| - 1])]
  }

  /** For any text the two parsers find the same keys in the same order, but that the second
      strips each. */
  lemma {:induction false} ListedAreStripped(segments: seq<string>)
    ensures ListedKeys(segments) == Stripped(KeysOf(Settings(segments)))
  {
    if segments != [] {
      var n := |segments| - 1;
      ListedAreStripped(segments[..n]);
      var last := Strip(segments[n]);
      if last != "" {
        PartsCorrespond(last);
      } else {
        assert ListedKeys(segments) == ListedKeys(segments[..n]) && Settings(segments) == Settings(segments[..n]);
      }
    }
  }

  ghost predicate NoSpaceBeforeColons(segments: seq<string>) {
    forall i | 0 <= i < |segments| :: !SpaceBeforeColon(Strip(segments[i]))
  }

  lemma {:induction false} AppendedEqual(a: seq<string>, b: seq<string>, x: string, y: string)
    requires |a| == |b|
    ensures a + [x] == b + [y] <==> a == b && x == y
  {
    assert a + [x] == b + [y] ==> (a + [x])[..|a|] == (b + [y])[..|b|] && (a + [x])[|a|] == (b + [y])[|b|];
  }

  /** They agree if and only if no segment has white space right before its colon. */
  lemma {:induction false} ParsersAgreeWhen(segments: seq<string>)
    ensures ListedKeys(segments) == KeysOf(Settings(segments)) <==> NoSpaceBeforeColons(segments)
  {
    if segments != [] {
      var n := |segments| - 1;
      ParsersAgreeWhen(segments[..n]);
      LastSegment(segments);
      var last := Strip(segments[n]);
      if last != "" {
        PartsCorrespond(last);
        ListedAreStripped(segments[..n]);
        AppendedEqual(ListedKeys(segments[..n]), KeysOf(Settings(segments[..n])), ListedKey(last), SettingOf(last).key);
      } else {
        assert ListedKeys(segments) == ListedKeys(segments[..n]) && Settings(segments) == Settings(segments[..n]);
      }
    }
  }

  lemma {:induction false} LastSegment(segments: seq<string>)
    requires segments != []
    ensures var n := |segments| - 1;
            NoSpaceBeforeColons(segments) <==> NoSpaceBeforeColons(segments[..n]) && !SpaceBeforeColon(Strip(segments[n]))
  {
    var n := |segments| - 1;
    forall i | 0 <= i < n ensures segments[..n][i] == segments[i] {}
    assert NoSpaceBeforeColons(segments) ==> !SpaceBeforeColon(Strip(segments[n]));
  }

  // ----- white space and blank pieces --------------------------------------------------

  /** The same pieces but for white space at either end of each. */
  ghost predicate SameStripped(pieces: seq<string>, padded: seq<string>) {
    |pieces| == |padded| && forall i | 0 <= i < |pieces| :: Strip(pieces[i]) == Strip(padded[i])
  }

  /** White space around segments makes no difference to either parser. */
  lemma {:induction false} SegmentPaddingIsIgnored(segments: seq<string>, padded: seq<string>)
    requires SameStripped(segments, padded)
    ensures Settings(padded) == Settings(segments) && ListedKeys(padded) == ListedKeys(segments)
  {
    if segments != [] {
      var n := |segments| - 1;
      assert SameStripped(segments[..n], padded[..n]);
      SegmentPaddingIsIgnored(segments[..n], padded[..n]);
    }
  }

  lemma {:induction false} Regroup(a: seq<string>, after: seq<string>, n: nat)
    requires |after| == n + 1
    ensures a + after == (a + after[..n]) + [after[n]]
  {
  }

  /** Nor do blank segments. */
  lemma {:induction false} BlankSegmentIsSkipped(before: seq<string>, blank: string, after: seq<string>)
    requires AllSpace(blank)
    ensures Settings((before + [blank]) + after) == Settings(before + after)
    ensures ListedKeys((before + [blank]) + after) == ListedKeys(before + after)
  {
    var more := before + [blank];
    if after == [] {
      assert more + after == more && before + after == before;
    } else {
      var n := |after| - 1;
      BlankSegmentIsSkipped(before, blank, after[..n]);
      Regroup(more, after, n);
      Regroup(before, after, n);
    }
  }

  /** A scope with white space around it, if any. */
  ghost predicate IsPadded(piece: string, scope: string) {
    exists i: nat, j: nat :: i <= j <= |piece| && piece[i..j] == scope && SpaceBetween(piece, 0, i)
                          && SpaceBetween(piece, j, |piece|)
  }

  lemma {:induction false} PaddedStripsTo(piece: string, scope: string)
    requires scope != "" && IsTrimmed(scope)
    ensures IsPadded(piece, scope) <==> Strip(piece) == scope
  {
    if IsPadded(piece, scope) {
      var i: nat, j: nat :| i <= j <= |piece| && piece[i..j] == scope && SpaceBetween(piece, 0, i)
                         && SpaceBetween(piece, j, |piece|);
      assert scope[0] == piece[i] && scope[|scope| - 1] == piece[j - 1];
      StripIsUnique(piece, i, j);
    }
    if Strip(piece) == scope {
      var i, j := StripIs(piece);
    }
  }

  /** What is granted are the pieces that are not blank, white space around them aside. */
  lemma {:induction false} ScopesAre(pieces: seq<string>, scope: string)
    ensures scope in ScopesIn(pieces) <==> scope != "" && IsTrimmed(scope) && exists p :: p in pieces && IsPadded(p, scope)
  {
    if p :| p in pieces && Strip(p) == scope {
      if scope != "" { PaddedStripsTo(p, scope); }
    }
    if scope != "" && IsTrimmed(scope) {
      forall p | p in pieces && IsPadded(p, scope) ensures Strip(p) == scope {
        PaddedStripsTo(p, scope);
      }
    }
  }

  // ----- printing and parsing ----------------------------------------------------------

  /** A key with scopes, or a bare one. */
  datatype Grant = Grant(key: string, scopes: seq<string>) | Bare(key: string)

  /** `key:s1|s2`, or the bare key. */
  function Print(g: Grant): string {
    match g
    case Grant(key, scopes) => key + [':'] + Join(scopes, '|')
    case Bare(key) => key
  }

  function Printed(grants: seq<Grant>): (segments: seq<string>)
    ensures |segments| == |grants|
  {
    if grants == [] then [] else Printed(grants[..|grants| - 1]) + [Print(grants[|grants| - 1])]
  }

  function PrintAll(grants: seq<Grant>): string {
    Join(Printed(grants), ',')
  }

  predicate IsScope(s: string) {
    s != "" && IsTrimmed(s) && ',' !in s && '|' !in s
  }

  predicate IsWellFormed(g: Grant) {
    && g.key != "" && IsTrimmed(g.key) && ',' !in g.key && ':' !in g.key
    && (g.Grant? ==> forall s | s in g.scopes :: IsScope(s))
  }

  /** A bare key may do everything, as keys could before there were scopes. */
  function Granted(g: Grant): Setting {
    Setting(g.key, match g case Grant(_, scopes) => set s | s in scopes case Bare(_) => {"admin"})
  }

  function AllGranted(grants: seq<Grant>): (settings: seq<Setting>)
    ensures |settings| == |grants|
    ensures forall i | 0 <= i < |grants| :: settings[i] == Granted(grants[i])
  {
    if grants == [] then [] else AllGranted(grants[..|grants| - 1]) + [Granted(grants[|grants| - 1])]
  }

  /** Joined scopes are trimmed and hold no comma. */
  lemma {:induction false} JoinedScopes(scopes: seq<string>)
    requires forall s | s in scopes :: IsScope(s)
    ensures ',' !in Join(scopes, '|') && IsTrimmed(Join(scopes, '|')) && (scopes != [] ==> Join(scopes, '|') != "")
  {
    assert scopes != [] ==> IsScope(scopes[0]);
    if |scopes| > 1 {
      var rest := Join(scopes[1..], '|');
      JoinedScopes(scopes[1..]);
      var whole := scopes[0] + ['|'] + rest;
      assert whole[0] == scopes[0][0] && whole[|whole| - 1] == rest[|rest| - 1];
    }
  }

  lemma {:induction false} ScopesReadBack(scopes: seq<string>)
    requires forall s | s in scopes :: IsScope(s)
    ensures ScopesIn(Split(Join(scopes, '|'), '|')) == set s | s in scopes
  {
    if scopes == [] {
      SplitFirst("", '|', "");
    } else {
      SplitUndoesJoin(scopes, '|');
      forall s | s in scopes ensures Strip(s) == s {
        TrimmedStripsToItself(s);
      }
    }
  }

  /** One printed segment is trimmed, holds no comma and parses back. */
  lemma {:induction false} SegmentReadsBack(g: Grant)
    requires IsWellFormed(g)
    ensures IsTrimmed(Print(g)) && Print(g) != "" && ',' !in Print(g)
    ensures SettingOf(Print(g)) == Granted(g) && !SpaceBeforeColon(Print(g))
  {
    match g {
      case Bare(key) => FindIs(key, ':', |key|);
      case Grant(_, _) => ScopedReadsBack(g);
    }
  }

  lemma {:induction false} ScopedReadsBack(g: Grant)
    requires IsWellFormed(g) && g.Grant?
    ensures IsTrimmed(Print(g)) && Print(g) != "" && ',' !in Print(g)
    ensures SettingOf(Print(g)) == Granted(g) && !SpaceBeforeColon(Print(g))
  {
    JoinedScopes(g.scopes);
    ColonBetween(g.key, Join(g.scopes, '|'), Print(g));
    ScopesReadBack(g.scopes);
  }

  /** A key, a colon and what follows, taken apart again. */
  lemma {:induction false} ColonBetween(key: string, scopes: string, segment: string)
    requires segment == key + [':'] + scopes && key != "" && IsTrimmed(key) && ',' !in key && ':' !in key
    requires IsTrimmed(scopes) && ',' !in scopes
    ensures IsTrimmed(segment) && segment != "" && ',' !in segment && !SpaceBeforeColon(segment)
    ensures SettingOf(segment) == Setting(key, ScopesIn(Split(scopes, '|')))
  {
    FindIs(segment, ':', |key|);
    assert segment[..|key|] == key && segment[|key| + 1..] == scopes;
    assert segment[0] == key[0] && segment[|key| - 1] == key[|key| - 1];
    assert segment[|segment| - 1] == if scopes == "" then ':' else scopes[|scopes| - 1];
  }

  lemma {:induction false} SegmentsReadBack(grants: seq<Grant>)
    requires forall g | g in grants :: IsWellFormed(g)
    ensures Settings(Printed(grants)) == AllGranted(grants) && NoSpaceBeforeColons(Printed(grants))
    ensures forall p | p in Printed(grants) :: ',' !in p
  {
    if grants != [] {
      var n := |grants| - 1;
      SegmentsReadBack(grants[..n]);
      SegmentReadsBack(grants[n]);
      TrimmedStripsToItself(Print(grants[n]));
      var segments := Printed(grants);
      assert segments[..n] == Printed(grants[..n]);
      LastSegment(segments);
    }
  }

  /** Printing well-formed keys with their scopes and parsing the text gives them back, in order
      and with both parsers. */
  lemma {:induction false} PrintedSettingsReadBack(grants: seq<Grant>)
    requires forall g | g in grants :: IsWellFormed(g)
    ensures Settings(Split(PrintAll(grants), ',')) == AllGranted(grants)
    ensures ListedKeys(Split(PrintAll(grants), ',')) == KeysOf(AllGranted(grants))
  {
    if grants == [] {
    } else {
      SegmentsReadBack(grants);
      SplitUndoesJoin(Printed(grants), ',');
      ParsersAgreeWhen(Printed(grants));
    }
  }
}
