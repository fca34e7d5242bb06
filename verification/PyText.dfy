/** The text methods of Python that the settings parsers and the top-up rules rely on. */
module PyText {

  /** What `str.strip` removes: the white-space characters of Python. */
  predicate IsSpace(c: char) {
    || '\U{9}' <= c <= '\U{D}' || '\U{1C}' <= c <= '\U{20}' || c == '\U{85}' || c == '\U{A0}' || c == '\U{1680}'
    || '\U{2000}' <= c <= '\U{200A}' || c == '\U{2028}' || c == '\U{2029}' || c == '\U{202F}' || c == '\U{205F}'
    || c == '\U{3000}'
  }

  /** How much white space a text begins with. */
  function Leading(s: string): (k: nat)
    ensures k <= |s| && SpaceBetween(s, 0, k) && (k < |s| ==> !IsSpace(s[k]))
  {
    if s == "" || !IsSpace(s[0]) then 0 else
    var k := Leading(s[1..]) + 1;
    assert forall i | 0 < i < k :: s[i] == s[1..][i - 1];
    k
  }

  /** Where the white space at the end begins. */
  function Ending(s: string): (k: nat)
    ensures k <= |s| && SpaceBetween(s, k, |s|) && (0 < k ==> !IsSpace(s[k - 1]))
  {
    if s == "" || !IsSpace(s[|s| - 1]) then |s| else Ending(s[..|s| - 1])
  }

  predicate SpaceBetween(s: string, i: nat, j: nat)
    requires i <= j <= |s|
  {
    forall k | i <= k < j :: IsSpace(s[k])
  }

  function Strip(s: string): string {
    var rest := s[Leading(s)..];
    rest[..Ending(rest)]
  }

  /** No white space at either end. */
  predicate IsTrimmed(s: string) {
    s == "" || (!IsSpace(s[0]) && !IsSpace(s[|s| - 1]))
  }

  predicate AllSpace(s: string) {
    SpaceBetween(s, 0, |s|)
  }

  /** Stripping takes white space off both ends, all of it and nothing else. */
  lemma {:induction false} StripIs(s: string) returns (i: nat, j: nat)
    ensures i <= j <= |s| && Strip(s) == s[i..j] && SpaceBetween(s, 0, i) && SpaceBetween(s, j, |s|)
    ensures IsTrimmed(Strip(s))
  {
    var rest := s[Leading(s)..];
    i, j := Leading(s), Leading(s) + Ending(rest);
    assert rest[..Ending(rest)] == s[i..j];
    forall k | j <= k < |s| ensures IsSpace(s[k]) {
      assert rest[k - i] == s[k];
    }
    assert Strip(s) != "" ==> Strip(s)[0] == s[i] && Strip(s)[j - 1 - i] == rest[j - 1 - i];
  }

  lemma {:induction false} TrimmedStripsToItself(s: string)
    requires IsTrimmed(s)
    ensures Strip(s) == s
  {
  }

  /** Stripping leaves nothing if and only if there was only white space. */
  lemma {:induction false} StripsToNothing(s: string)
    ensures Strip(s) == "" <==> AllSpace(s)
  {
    var i, j := StripIs(s);
    assert Strip(s) != "" ==> Strip(s)[0] == s[i];
  }

  /** Whatever is trimmed and has only white space around it is what stripping leaves. */
  lemma {:induction false} StripIsUnique(s: string, i: nat, j: nat)
    requires i < j <= |s| && SpaceBetween(s, 0, i) && SpaceBetween(s, j, |s|) && !IsSpace(s[i]) && !IsSpace(s[j - 1])
    ensures Strip(s) == s[i..j]
  {
    var k, l := StripIs(s);
    assert k <= i;
    assert j <= l;
    assert Strip(s)[0] == s[k] && Strip(s)[l - 1 - k] == s[l - 1];
    assert k == i && l == j;
  }

  lemma {:induction false} SpaceConcat(before: string, s: string, i: nat, j: nat, after: string)
    requires i <= j <= |s| && SpaceBetween(s, 0, i) && SpaceBetween(s, j, |s|) && AllSpace(before) && AllSpace(after)
    ensures SpaceBetween(before + s + after, 0, |before| + i)
    ensures SpaceBetween(before + s + after, |before| + j, |before + s + after|)
  {
  }

  lemma {:induction false} MiddleOf(before: string, s: string, after: string, i: nat, j: nat)
    requires i < j <= |s|
    ensures var padded, n := before + s + after, |before|;
            padded[n + i..n + j] == s[i..j] && padded[n + i] == s[i] && padded[n + j - 1] == s[j - 1]
  {
  }

  /** Padding with white space makes no difference to what stripping leaves. */
  lemma {:induction false} PaddingIsStripped(before: string, s: string, after: string)
    requires AllSpace(before) && AllSpace(after)
    ensures Strip(before + s + after) == Strip(s)
  {
    var padded, n := before + s + after, |before|;
    var i, j := StripIs(s);
    SpaceConcat(before, s, i, j, after);
    if i < j {
      assert Strip(s)[0] == s[i] && Strip(s)[j - 1 - i] == s[j - 1];
      MiddleOf(before, s, after, i, j);
      StripIsUnique(padded, n + i, n + j);
    } else {
      StripsToNothing(padded);
    }
  }

  /** The lower case of a character whose lower case is a single ASCII letter: the capitals and
      the Kelvin sign. */
  function Lower(c: char): char {
    if 'A' <= c <= 'Z' then c + ('a' - 'A') else if c == '\U{212A}' then 'k' else c
  }

  lemma {:induction false} LowerIs(c: char)
    ensures LowersTo("ABCDEFGHIJKLMNOPQRSTUVWXYZ", "abcdefghijklmnopqrstuvwxyz")
    ensures c !in "ABCDEFGHIJKLMNOPQRSTUVWXYZ" && c != '\U{212A}' ==> Lower(c) == c
  {
  }

  /** Whether a text lower-cases to a name of ASCII characters. */
  predicate LowersTo(s: string, name: string) {
    |s| == |name| && forall i | 0 <= i < |s| :: Lower(s[i]) == name[i]
  }

  // ----- splitting and joining ---------------------------------------------------------

  /** Where a character first stands; the length if it does not. */
  function Find(s: string, c: char): (k: nat)
    ensures k <= |s|
    ensures k < |s| ==> s[k] == c
    ensures forall i | 0 <= i < k :: s[i] != c
  {
    if s == "" || s[0] == c then 0 else Find(s[1..], c) + 1
  }

  /** `str.split` at every separator: one piece more than there are separators. */
  function Split(s: string, sep: char): (pieces: seq<string>)
    ensures |pieces| > 0
    decreases |s|
  {
    var k := Find(s, sep);
    if k == |s| then [s] else [s[..k]] + Split(s[k + 1..], sep)
  }

  function Join(pieces: seq<string>, sep: char): string {
    if pieces == [] then "" else
    if |pieces| == 1 then pieces[0] else pieces[0] + [sep] + Join(pieces[1..], sep)
  }

  lemma {:induction false} FindIs(s: string, c: char, k: nat)
    requires k <= |s| && (k < |s| ==> s[k] == c) && forall i | 0 <= i < k :: s[i] != c
    ensures Find(s, c) == k
  {
  }

  lemma {:induction false} SplitFirst(first: string, sep: char, rest: string)
    requires sep !in first
    ensures Split(first, sep) == [first]
    ensures Split(first + [sep] + rest, sep) == [first] + Split(rest, sep)
  {
    var whole := first + [sep] + rest;
    FindIs(first, sep, |first|);
    FindIs(whole, sep, |first|);
    assert whole[..|first|] == first && whole[|first| + 1..] == rest;
  }

  /** Joining undoes splitting, and no piece holds the separator. */
  lemma {:induction false} JoinUndoesSplit(s: string, sep: char)
    ensures Join(Split(s, sep), sep) == s
    ensures forall p | p in Split(s, sep) :: sep !in p
    decreases |s|
  {
    var k := Find(s, sep);
    if k < |s| {
      JoinUndoesSplit(s[k + 1..], sep);
      assert s == s[..k] + [sep] + s[k + 1..];
    }
  }

  /** Splitting undoes joining when no piece holds the separator. */
  lemma {:induction false} SplitUndoesJoin(pieces: seq<string>, sep: char)
    requires pieces != [] && forall p | p in pieces :: sep !in p
    ensures Split(Join(pieces, sep), sep) == pieces
  {
    if |pieces| == 1 {
      SplitFirst(pieces[0], sep, "");
    } else {
      var first, rest := pieces[0], pieces[1..];
      assert pieces == [first] + rest;
      SplitUndoesJoin(rest, sep);
      SplitFirst(first, sep, Join(rest, sep));
    }
  }
}
