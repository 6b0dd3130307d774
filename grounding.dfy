/**
 * Citation handling of the stream loop: every grounding chunk that carries a web
 * URI is kept once, the first time its URI is seen, in the order the stream
 * delivers them.
 */
module Grounding {
  import opened Wrappers
  import opened Types

  /** `chunk.web?.uri`. */
  function UriOf(g: GroundingChunk): Option<string> {
    if g.web.Some? then g.web.value.uri else None
  }

  /** `chunk.web?.uri` is truthy: present and not the empty string. */
  predicate HasUri(g: GroundingChunk) {
    UriOf(g).Some? && UriOf(g).value != ""
  }

  /** `kept.some(existing => existing.web?.uri === u)`. */
  predicate Seen(kept: seq<GroundingChunk>, u: string) {
    exists k :: 0 <= k < |kept| && UriOf(kept[k]) == Some(u)
  }

  /** What the citation list attached to a message may hold: URIs only, each once. */
  ghost predicate WellFormed(kept: seq<GroundingChunk>) {
    && (forall k :: 0 <= k < |kept| ==> HasUri(kept[k]))
    && (forall i, j :: 0 <= i < j < |kept| ==> UriOf(kept[i]) != UriOf(kept[j]))
  }

  /** The body of the `forEach`: append `c` when it has a URI not kept yet. */
  function AddIfNew(kept: seq<GroundingChunk>, c: GroundingChunk): seq<GroundingChunk> {
    if HasUri(c) && !Seen(kept, UriOf(c).value) then kept + [c] else kept
  }

  /** `AddIfNew` over `cs`, first to last, starting from `kept`. */
  function AddAll(kept: seq<GroundingChunk>, cs: seq<GroundingChunk>): seq<GroundingChunk>
    decreases |cs|
  {
    if cs == [] then kept else AddIfNew(AddAll(kept, cs[..|cs| - 1]), cs[|cs| - 1])
  }

  /** The citations kept from the whole sequence `cs`. */
  function DedupByUri(cs: seq<GroundingChunk>): seq<GroundingChunk> {
    AddAll([], cs)
  }

  /** The loop of lines 150-154: merge one response's grounding chunks into `kept`. */
  method MergeGroundingChunks(kept: seq<GroundingChunk>, incoming: seq<GroundingChunk>)
    returns (r: seq<GroundingChunk>)
    ensures r == AddAll(kept, incoming)
  {
    r := kept;
    for i := 0 to |incoming|
      invariant r == AddAll(kept, incoming[..i])
    {
      var c := incoming[i];
      if HasUri(c) && !(exists k :: 0 <= k < |r| && UriOf(r[k]) == UriOf(c)) {
        r := r + [c];
      }
      assert incoming[..i + 1][..i] == incoming[..i];
    }
    assert incoming[..|incoming|] == incoming;
  }

  /** Merging never drops or reorders what was kept, and keeps the list well formed. */
  lemma {:induction false} AddAllExtends(kept: seq<GroundingChunk>, cs: seq<GroundingChunk>)
    ensures |AddAll(kept, cs)| >= |kept| && AddAll(kept, cs)[..|kept|] == kept
    ensures WellFormed(kept) ==> WellFormed(AddAll(kept, cs))
    decreases |cs|
  {
    if cs != [] {
      AddAllExtends(kept, cs[..|cs| - 1]);
    }
  }

  /** Merging in two steps is merging the concatenation: the loop over chunks composes. */
  lemma {:induction false} AddAllConcat(kept: seq<GroundingChunk>, a: seq<GroundingChunk>, b: seq<GroundingChunk>)
    ensures AddAll(AddAll(kept, a), b) == AddAll(kept, a + b)
    decreases |b|
  {
    if b == [] {
      assert a + b == a;
    } else {
      AddAllConcat(kept, a, b[..|b| - 1]);
      assert (a + b)[..|a + b| - 1] == a + b[..|b| - 1];
      assert (a + b)[|a + b| - 1] == b[|b| - 1];
    }
  }

  /** A URI is kept exactly when some chunk of the input carries it (and it is non-empty). */
  lemma {:induction false} DedupSeen(cs: seq<GroundingChunk>, u: string)
    ensures Seen(DedupByUri(cs), u) <==> (u != "" && Seen(cs, u))
    decreases |cs|
  {
    if cs != [] {
      var init := cs[..|cs| - 1];
      DedupSeen(init, u);
      var r0 := DedupByUri(init);
      var r := DedupByUri(cs);
      assert r == AddIfNew(r0, cs[|cs| - 1]);
      if Seen(cs, u) && u != "" {
        var k :| 0 <= k < |cs| && UriOf(cs[k]) == Some(u);
        if k < |cs| - 1 {
          assert UriOf(init[k]) == Some(u);
          var j :| 0 <= j < |r0| && UriOf(r0[j]) == Some(u);
          assert r[j] == r0[j];
        } else if !Seen(r0, u) {
          assert r[|r| - 1] == cs[k];
        }
      }
      if Seen(r, u) {
        var j :| 0 <= j < |r| && UriOf(r[j]) == Some(u);
        if j < |r0| {
          assert Seen(r0, u);
          var k :| 0 <= k < |init| && UriOf(init[k]) == Some(u);
          assert cs[k] == init[k];
        } else {
          assert r[j] == cs[|cs| - 1];
        }
      }
    }
  }

  /** Where each kept citation came from: its index in the input. */
  ghost function Origins(cs: seq<GroundingChunk>): seq<nat>
    decreases |cs|
  {
    if cs == [] then []
    else
      var init := cs[..|cs| - 1];
      var c := cs[|cs| - 1];
      if HasUri(c) && !Seen(DedupByUri(init), UriOf(c).value) then Origins(init) + [|cs| - 1] else Origins(init)
  }

  /**
   * First seen, in stream order: each kept citation is the first chunk of the input
   * that carries its URI, and the kept list follows the input's order.
   */
  lemma {:induction false} DedupFirstSeen(cs: seq<GroundingChunk>)
    ensures |Origins(cs)| == |DedupByUri(cs)|
    ensures forall k :: 0 <= k < |Origins(cs)| ==>
              Origins(cs)[k] < |cs| && cs[Origins(cs)[k]] == DedupByUri(cs)[k]
              && HasUri(cs[Origins(cs)[k]])
              && !Seen(cs[..Origins(cs)[k]], UriOf(cs[Origins(cs)[k]]).value)
    ensures forall i, j :: 0 <= i < j < |Origins(cs)| ==> Origins(cs)[i] < Origins(cs)[j]
    decreases |cs|
  {
    if cs != [] {
      var init := cs[..|cs| - 1];
      var c := cs[|cs| - 1];
      DedupFirstSeen(init);
      var o0, r0 := Origins(init), DedupByUri(init);
      forall k | 0 <= k < |o0|
        ensures cs[..o0[k]] == init[..o0[k]] && cs[o0[k]] == init[o0[k]]
      {
      }
      if HasUri(c) && !Seen(r0, UriOf(c).value) {
        DedupSeen(init, UriOf(c).value);
        assert cs[..|cs| - 1] == init;
      }
    }
  }

  /** Everything `DedupByUri` keeps is well formed: each entry has a URI, no URI twice. */
  lemma DedupWellFormed(cs: seq<GroundingChunk>)
    ensures WellFormed(DedupByUri(cs))
  {
    AddAllExtends([], cs);
  }
}
