/** Decision evidence bundles: audit events sealed by one hash over their JSON texts, written
    back to back with no separator. */
module Evidence {
  import opened Common
  import opened Hashing
  import opened Json
  import opened JsonAscii
  import opened JsonDecodability
  import opened JsonReader

  /** One audit event.  The timestamp is the text its `isoformat()` gives. */
  datatype AuditEvent = AuditEvent(
    eventId: int,
    eventType: string,
    actorId: Option<string>,
    payload: map<string, Json>,
    eventTs: Option<string>)
  {
    function ToDict(): (dict: Json)
      ensures dict.Obj?
    {
      Obj(map[
        "event_id" := Int(eventId),
        "event_type" := Str(eventType),
        "actor_id" := OptionalText(actorId),
        "payload" := Obj(payload),
        "event_ts" := OptionalText(eventTs)])
    }

    function EventJson(): (text: string)
      ensures IsAscii(text) && text != ""
    {
      TextAscii(ToDict());
      Text(ToDict())
    }
  }

  function OptionalText(text: Option<string>): Json {
    match text case None => Null case Some(s) => Str(s)
  }

  datatype DecisionEvidence = DecisionEvidence(
    decisionId: string,
    actionId: string,
    status: string,
    winningRule: string,
    reason: string,
    createdAt: string,
    policySnapshotId: Option<string>,
    auditEvents: seq<AuditEvent>,
    rootHash: string)
  {
    predicate Verify(h: Hash) {
      RootHash(h, auditEvents) == rootHash
    }
  }

  predicate AreTexts(texts: seq<string>) {
    forall i | 0 <= i < |texts| :: IsAscii(texts[i]) && texts[i] != ""
  }

  function Texts(events: seq<AuditEvent>): (texts: seq<string>)
    ensures |texts| == |events|
    ensures AreTexts(texts)
    ensures forall i | 0 <= i < |texts| :: texts[i] == events[i].EventJson()
  {
    seq(|events|, i requires 0 <= i < |events| => events[i].EventJson())
  }

  /** Texts written back to back, nothing between them. */
  function Concat(texts: seq<string>): (text: string)
    requires AreTexts(texts)
    ensures IsAscii(text)
  {
    if texts == [] then "" else
    AsciiConcat(texts[0], Concat(texts[1..]));
    texts[0] + Concat(texts[1..])
  }

  /** The bytes fed to the hash. */
  function Stream(events: seq<AuditEvent>): Bytes {
    Utf8(Concat(Texts(events)))
  }

  function RootHash(h: Hash, events: seq<AuditEvent>): string {
    Hex(h(Stream(events)))
  }

  lemma {:induction false} ConcatAppend(texts: seq<string>, text: string)
    requires AreTexts(texts) && AreTexts([text])
    ensures Concat(texts + [text]) == Concat(texts) + text
  {
    if texts == [] {
      assert Concat([text]) == text + Concat([text][1..]);
    } else {
      assert (texts + [text])[1..] == texts[1..] + [text];
      ConcatAppend(texts[1..], text);
      Regroup(texts[0], Concat(texts[1..]), text);
    }
  }

  lemma {:induction false} ConcatPrefix(texts: seq<string>, i: nat)
    requires i < |texts| && AreTexts(texts)
    ensures Utf8(Concat(texts[..i + 1])) == Utf8(Concat(texts[..i])) + Utf8(texts[i])
  {
    assert texts[..i + 1] == texts[..i] + [texts[i]];
    ConcatAppend(texts[..i], texts[i]);
    Utf8Concat(Concat(texts[..i]), texts[i]);
  }

  /** `_compute_root_hash`: one `update` per event; hashing a stream in pieces hashes their
      concatenation. */
  method ComputeRootHash(h: Hash, events: seq<AuditEvent>) returns (root: string)
    ensures root == RootHash(h, events)
  {
    var fed: Bytes := [];
    ghost var texts := Texts(events);
    for i := 0 to |events|
      invariant fed == Utf8(Concat(texts[..i]))
    {
      var eventJson := events[i].EventJson();
      assert eventJson == texts[i];
      fed := fed + Utf8(eventJson);
      ConcatPrefix(texts, i);
    }
    assert texts[..|events|] == texts;
    root := Hex(h(fed));
  }

  /** The text of an event, whatever follows it, reads back as its dictionary: an object of exactly
      these five fields, each holding the event's own value. */
  lemma {:induction false} EventTextReadsBack(e: AuditEvent, rest: string)
    ensures ReadValue(e.EventJson() + rest) == Got(e.ToDict(), rest)
    ensures var fields := e.ToDict().fields;
            && fields.Keys == {"event_id", "event_type", "actor_id", "payload", "event_ts"}
            && fields["event_id"] == Int(e.eventId)
            && fields["event_type"] == Str(e.eventType)
            && fields["payload"] == Obj(e.payload)
            && fields["actor_id"] == (if e.actorId.None? then Null else Str(e.actorId.value))
            && fields["event_ts"] == (if e.eventTs.None? then Null else Str(e.eventTs.value))
  {
    var dict := e.ToDict();
    DictFields(e);
    TextReadsBack(dict, rest);
    assert e.EventJson() == Text(dict);
  }

  lemma {:induction false} DictFields(e: AuditEvent)
    ensures var fields := e.ToDict().fields;
            && fields.Keys == {"event_id", "event_type", "actor_id", "payload", "event_ts"}
            && fields["event_id"] == Int(e.eventId)
            && fields["event_type"] == Str(e.eventType)
            && fields["payload"] == Obj(e.payload)
            && fields["actor_id"] == (if e.actorId.None? then Null else Str(e.actorId.value))
            && fields["event_ts"] == (if e.eventTs.None? then Null else Str(e.eventTs.value))
  {
  }

  lemma {:induction false} ToDictInjective(a: AuditEvent, b: AuditEvent)
    requires a.ToDict() == b.ToDict()
    ensures a == b
  {
    var x, y := a.ToDict().fields, b.ToDict().fields;
    assert x["event_id"] == y["event_id"] && x["event_type"] == y["event_type"];
    assert x["actor_id"] == y["actor_id"] && x["payload"] == y["payload"];
    assert x["event_ts"] == y["event_ts"];
  }

  lemma {:induction false} EventPrefixFree(a: AuditEvent, b: AuditEvent, r: string, s: string)
    requires a.EventJson() + r == b.EventJson() + s
    ensures a == b && r == s
  {
    TextPrefixFree(a.ToDict(), b.ToDict(), r, s);
    ToDictInjective(a, b);
  }

  /** Neither text can start the other: what follows is determined. */
  ghost predicate PrefixFree(t: string, u: string) {
    forall r, s | t + r == u + s :: t == u && r == s
  }

  lemma {:induction false} ConcatInjective(x: seq<string>, y: seq<string>)
    requires AreTexts(x) && AreTexts(y) && Concat(x) == Concat(y)
    requires forall i, j | 0 <= i < |x| && 0 <= j < |y| :: PrefixFree(x[i], y[j])
    ensures x == y
  {
    if x != [] && y != [] {
      assert PrefixFree(x[0], y[0]);
      assert x[0] == y[0] && Concat(x[1..]) == Concat(y[1..]);
      ConcatInjective(x[1..], y[1..]);
      assert x == [x[0]] + x[1..] && y == [y[0]] + y[1..];
    }
  }

  lemma {:induction false} EventsPrefixFree(a: AuditEvent, b: AuditEvent)
    ensures PrefixFree(a.EventJson(), b.EventJson())
    ensures a.EventJson() == b.EventJson() ==> a == b
  {
    var t, u := a.EventJson(), b.EventJson();
    forall r, s | t + r == u + s ensures t == u && r == s {
      EventPrefixFree(a, b, r, s);
    }
    if t == u {
      EventPrefixFree(a, b, "", "");
    }
  }

  /** Although nothing separates one event's text from the next, the stream of bytes tells
      the events apart: their number, their boundaries and every field. */
  lemma {:induction false} StreamInjective(a: seq<AuditEvent>, b: seq<AuditEvent>)
    requires Stream(a) == Stream(b)
    ensures a == b
  {
    Utf8ReadsBack(Concat(Texts(a)));
    Utf8ReadsBack(Concat(Texts(b)));
    forall i, j | 0 <= i < |a| && 0 <= j < |b| ensures PrefixFree(Texts(a)[i], Texts(b)[j]) {
      EventsPrefixFree(a[i], b[j]);
    }
    ConcatInjective(Texts(a), Texts(b));
    forall i | 0 <= i < |a| ensures a[i] == b[i] {
      EventsPrefixFree(a[i], b[i]);
    }
  }

  lemma {:induction false} RootHashInjective(h: Hash, a: seq<AuditEvent>, b: seq<AuditEvent>)
    requires CollisionFree(h, {Stream(a), Stream(b)})
    requires RootHash(h, a) == RootHash(h, b)
    ensures a == b
  {
    HexInjective(h(Stream(a)), h(Stream(b)));
    assert Stream(a) == Stream(b);
    StreamInjective(a, b);
  }

  /** A bundle carrying the root hash of `original` verifies if and only if it carries exactly
      those events in that order, unless the two streams collide.  Its other fields play no part. */
  lemma {:induction false} VerifyAcceptsOnlyTheOriginal(h: Hash, original: seq<AuditEvent>, bundle: DecisionEvidence)
    requires CollisionFree(h, {Stream(original), Stream(bundle.auditEvents)})
    requires bundle.rootHash == RootHash(h, original)
    ensures bundle.Verify(h) <==> bundle.auditEvents == original
  {
    if bundle.Verify(h) {
      RootHashInjective(h, bundle.auditEvents, original);
    }
  }
}
