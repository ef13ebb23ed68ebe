/** Header probes: reassembling a batch in input order, and carrying it over the wire. */
module Probes {
  import opened Git

  datatype Probe =
    | Present(oid: Oid)
    | PresentWithHeader(oid: Oid, kind: ObjectKind, size: nat)
    | HeaderOnly(oid: Oid, kind: ObjectKind, size: nat)
    | ProbeError(oid: Oid, error: FetcherError)

  // ------------------------------------------------------------ reassembly

  /** One probe per input: the answer filed under that OID, taken out so that a second
      occurrence finds nothing and gets the fallback. */
  function Drain(oids: seq<Oid>, byOid: map<Oid, Probe>, fallback: Oid -> Probe): seq<Probe> {
    if oids == [] then []
    else if oids[0] in byOid then [byOid[oids[0]]] + Drain(oids[1..], byOid - {oids[0]}, fallback)
    else [fallback(oids[0])] + Drain(oids[1..], byOid, fallback)
  }

  lemma DrainNext(oids: seq<Oid>, i: nat, left: map<Oid, Probe>, fallback: Oid -> Probe)
    requires i < |oids|
    ensures Drain(oids[i..], left, fallback) ==
      if oids[i] in left then [left[oids[i]]] + Drain(oids[i + 1..], left - {oids[i]}, fallback)
      else [fallback(oids[i])] + Drain(oids[i + 1..], left, fallback)
  {
    assert oids[i..][1..] == oids[i + 1..];
  }

  lemma PushFront(out: seq<Probe>, probe: Probe, rest: seq<Probe>)
    ensures out + ([probe] + rest) == out + [probe] + rest
  {
  }

  method Reassemble(oids: seq<Oid>, byOid: map<Oid, Probe>, fallback: Oid -> Probe) returns (out: seq<Probe>)
    ensures out == Drain(oids, byOid, fallback)
  {
    out := [];
    var left := byOid;
    assert oids[0..] == oids && oids[|oids|..] == [];
    for i := 0 to |oids|
      invariant out + Drain(oids[i..], left, fallback) == Drain(oids, byOid, fallback)
    {
      hide Drain;
      var oid := oids[i];
      DrainNext(oids, i, left, fallback);
      var probe := if oid in left then left[oid] else fallback(oid);
      if oid in left {
        left := left - {oid};
      }
      PushFront(out, probe, Drain(oids[i + 1..], left, fallback));
      out := out + [probe];
    }
    assert out + [] == out;
  }

  /** Position by position: the first occurrence gets the filed answer. */
  lemma {:induction false} DrainAt(oids: seq<Oid>, byOid: map<Oid, Probe>, fallback: Oid -> Probe, i: nat)
    requires i < |oids|
    ensures |Drain(oids, byOid, fallback)| == |oids|
    ensures Drain(oids, byOid, fallback)[i] ==
      if oids[i] in byOid && oids[i] !in oids[..i] then byOid[oids[i]] else fallback(oids[i])
  {
    var rest := if oids[0] in byOid then byOid - {oids[0]} else byOid;
    if i == 0 {
      DrainLength(oids[1..], rest, fallback);
    } else {
      DrainAt(oids[1..], rest, fallback, i - 1);
      assert oids[..i] == [oids[0]] + oids[1..][..i - 1];
    }
  }

  lemma {:induction false} DrainLength(oids: seq<Oid>, byOid: map<Oid, Probe>, fallback: Oid -> Probe)
    ensures |Drain(oids, byOid, fallback)| == |oids|
  {
    if oids != [] {
      DrainLength(oids[1..], if oids[0] in byOid then byOid - {oids[0]} else byOid, fallback);
    }
  }

  ghost predicate OwnOid(byOid: map<Oid, Probe>) {
    forall o | o in byOid :: byOid[o].oid == o
  }

  ghost predicate FallbackNames(fallback: Oid -> Probe) {
    forall o :: fallback(o).oid == o
  }

  /** Whatever was filed, the batch answers every input, in order, by its own name. */
  lemma BatchNamesItsInputs(oids: seq<Oid>, byOid: map<Oid, Probe>, fallback: Oid -> Probe)
    requires OwnOid(byOid) && FallbackNames(fallback)
    ensures |Drain(oids, byOid, fallback)| == |oids|
    ensures forall i | 0 <= i < |oids| :: Drain(oids, byOid, fallback)[i].oid == oids[i]
  {
    DrainLength(oids, byOid, fallback);
    forall i | 0 <= i < |oids| ensures Drain(oids, byOid, fallback)[i].oid == oids[i] {
      DrainAt(oids, byOid, fallback, i);
    }
  }

  /** The answer an OID should get wherever it stands in the batch. */
  function Answer(byOid: map<Oid, Probe>, fallback: Oid -> Probe, oid: Oid): Probe {
    if oid in byOid then byOid[oid] else fallback(oid)
  }

  /** Every position reports its OID's own answer exactly when no OID whose answer
      differs from the fallback is repeated in the input. */
  lemma FaithfulIff(oids: seq<Oid>, byOid: map<Oid, Probe>, fallback: Oid -> Probe)
    ensures (forall i | 0 <= i < |oids| :: i < |Drain(oids, byOid, fallback)|
                && Drain(oids, byOid, fallback)[i] == Answer(byOid, fallback, oids[i]))
      <==> (forall i, j | 0 <= i < j < |oids| && oids[i] == oids[j] && oids[j] in byOid ::
              byOid[oids[j]] == fallback(oids[j]))
  {
    DrainLength(oids, byOid, fallback);
    forall i | 0 <= i < |oids|
      ensures Drain(oids, byOid, fallback)[i] ==
        if oids[i] in byOid && oids[i] !in oids[..i] then byOid[oids[i]] else fallback(oids[i])
    {
      DrainAt(oids, byOid, fallback, i);
    }
    forall j | 0 <= j < |oids|
      ensures oids[j] in oids[..j] <==> exists i :: 0 <= i < j && oids[i] == oids[j]
    {
      if i :| 0 <= i < j && oids[i] == oids[j] {
        assert oids[..j][i] == oids[j];
      }
    }
  }

  /** What the hydrating store puts where it has no answer filed. */
  function AssumePresent(oid: Oid): Probe {
    Present(oid)
  }

  /** So asking twice for a refused object invents a presence. */
  lemma DuplicateInventsPresence(oid: Oid, e: FetcherError)
    ensures Drain([oid, oid], map[oid := ProbeError(oid, e)], AssumePresent) == [ProbeError(oid, e), Present(oid)]
  {
    var byOid := map[oid := ProbeError(oid, e)];
    DrainAt([oid, oid], byOid, AssumePresent, 0);
    DrainAt([oid, oid], byOid, AssumePresent, 1);
    assert [oid, oid][..1] == [oid] && [oid, oid][..0] == [];
  }

  /** Answers filed by their own OID, the last one winning. */
  function Collect(probes: seq<Probe>): map<Oid, Probe> {
    if probes == [] then map[] else
    var n := |probes| - 1;
    Collect(probes[..n])[probes[n].oid := probes[n]]
  }

  lemma {:induction false} CollectIsOwn(probes: seq<Probe>)
    ensures OwnOid(Collect(probes))
    ensures forall o :: o in Collect(probes) <==> exists i :: 0 <= i < |probes| && probes[i].oid == o
    ensures forall o | o in Collect(probes) :: Collect(probes)[o] in probes
  {
    if probes != [] {
      var n := |probes| - 1;
      CollectIsOwn(probes[..n]);
      forall o ensures o in Collect(probes) <==> exists i :: 0 <= i < |probes| && probes[i].oid == o {
        if o in Collect(probes[..n]) {
          var i :| 0 <= i < n && probes[..n][i].oid == o;
          assert probes[i].oid == o;
        }
        if i :| 0 <= i < |probes| && probes[i].oid == o {
          assert i < n ==> probes[..n][i].oid == o;
        }
      }
    }
  }

  /** With distinct inputs answered in order, collecting and draining changes nothing. */
  lemma {:induction false} CollectAt(probes: seq<Probe>, i: nat)
    requires i < |probes|
    requires forall x, y | 0 <= x < y < |probes| :: probes[x].oid != probes[y].oid
    ensures probes[i].oid in Collect(probes) && Collect(probes)[probes[i].oid] == probes[i]
  {
    var n := |probes| - 1;
    if i < n {
      CollectAt(probes[..n], i);
    }
  }
}
