/** The dashboard's link walk over a tenant's governance log. */
module Explorer {
  import opened Common

  /** A row of `governance_audit_log`, as far as the walk reads it. */
  datatype Entry = Entry(prevHash: Option<string>, eventHash: string)

  const MARKER: string := "genesis"

  predicate IsFirst(entry: Entry) {
    entry.prevHash == None || entry.prevHash == Some(MARKER)
  }

  /** The link into position `i` is sound. */
  predicate LinkHolds(chain: seq<Entry>, i: nat)
    requires i < |chain|
  {
    if i == 0 then IsFirst(chain[0]) else chain[i].prevHash == Some(chain[i - 1].eventHash)
  }

  ghost predicate IsChain(chain: seq<Entry>) {
    forall i | 0 <= i < |chain| :: LinkHolds(chain, i)
  }

  /** Positions whose link is broken, in order. */
  function Broken(chain: seq<Entry>, upTo: nat): (positions: seq<nat>)
    requires upTo <= |chain|
  {
    if upTo == 0 then [] else
    if LinkHolds(chain, upTo - 1) then Broken(chain, upTo - 1) else Broken(chain, upTo - 1) + [upTo - 1]
  }

  /** There is one error for each broken link and no other. */
  lemma {:induction false} OneErrorPerBrokenLink(chain: seq<Entry>, upTo: nat)
    requires upTo <= |chain|
    ensures forall i | 0 <= i < upTo :: i in Broken(chain, upTo) <==> !LinkHolds(chain, i)
    ensures forall k | 0 <= k < |Broken(chain, upTo)| :: Broken(chain, upTo)[k] < upTo
    ensures forall j, k | 0 <= j < k < |Broken(chain, upTo)| :: Broken(chain, upTo)[j] < Broken(chain, upTo)[k]
  {
    if upTo > 0 {
      OneErrorPerBrokenLink(chain, upTo - 1);
    }
  }

  datatype Report = Report(isValid: bool, chainLength: nat, errors: seq<nat>)

  /** The loop of `verify_chain`; an error is the position it names. */
  method VerifyChain(chain: seq<Entry>) returns (report: Report)
    ensures report.chainLength == |chain|
    ensures report.errors == Broken(chain, |chain|)
    ensures report.isValid <==> IsChain(chain)
    ensures chain != [] ==> (0 !in report.errors <==> chain[0].prevHash.None? || chain[0].prevHash.value == "genesis")
    ensures forall i | 0 < i < |chain| ::
              i !in report.errors <==> chain[i].prevHash.Some? && chain[i].prevHash.value == chain[i - 1].eventHash
  {
    var errors: seq<nat> := [];
    var allValid := true;
    for i := 0 to |chain|
      invariant errors == Broken(chain, i)
      invariant allValid <==> errors == []
    {
      if i == 0 {
        if chain[0].prevHash != None && chain[0].prevHash != Some(MARKER) {
          errors := errors + [i];
          allValid := false;
        }
      } else {
        if chain[i].prevHash != Some(chain[i - 1].eventHash) {
          errors := errors + [i];
          allValid := false;
        }
      }
    }
    report := Report(allValid && |errors| == 0, |chain|, errors);
    NoneBroken(chain);
    OneErrorPerBrokenLink(chain, |chain|);
  }

  lemma {:induction false} NoneBroken(chain: seq<Entry>)
    ensures Broken(chain, |chain|) == [] <==> IsChain(chain)
  {
    OneErrorPerBrokenLink(chain, |chain|);
    var positions := Broken(chain, |chain|);
    if positions != [] {
      assert positions[0] in positions;
      assert !LinkHolds(chain, positions[0]);
    }
  }

  ghost predicate HashesDistinct(chain: seq<Entry>) {
    && (forall i | 0 <= i < |chain| :: chain[i].eventHash != MARKER)
    && (forall i, j | 0 <= i < j < |chain| :: chain[i].eventHash != chain[j].eventHash)
  }

  /** Any list of entries taken from a sound chain that also passes is a prefix of it: leaving
      one out before the end, repeating one or changing their order is always caught. */
  lemma {:induction false} OnlyPrefixesPass(chain: seq<Entry>, excerpt: seq<Entry>)
    requires IsChain(chain) && HashesDistinct(chain)
    requires forall e | e in excerpt :: e in chain
    ensures IsChain(excerpt) <==> excerpt <= chain
  {
    if excerpt <= chain {
      forall i | 0 <= i < |excerpt| ensures LinkHolds(excerpt, i) {
        assert LinkHolds(chain, i);
      }
    }
    if IsChain(excerpt) && excerpt != [] {
      var n := |excerpt| - 1;
      forall i | 0 <= i < n ensures LinkHolds(excerpt[..n], i) {
        assert LinkHolds(excerpt, i);
      }
      OnlyPrefixesPass(chain, excerpt[..n]);
      LastFits(chain, excerpt);
      assert excerpt == excerpt[..n] + [excerpt[n]];
    }
  }

  lemma {:induction false} LastFits(chain: seq<Entry>, excerpt: seq<Entry>)
    requires IsChain(chain) && HashesDistinct(chain) && excerpt != []
    requires excerpt[..|excerpt| - 1] <= chain && excerpt[|excerpt| - 1] in chain
    requires LinkHolds(excerpt, |excerpt| - 1)
    ensures |excerpt| <= |chain| && excerpt[|excerpt| - 1] == chain[|excerpt| - 1]
  {
    var n := |excerpt| - 1;
    var k :| 0 <= k < |chain| && chain[k] == excerpt[n];
    assert LinkHolds(chain, k);
    if n > 0 {
      assert excerpt[n - 1] == excerpt[..n][n - 1] == chain[n - 1];
    }
  }
}
