/** The non-blocking claim set that keeps concurrent prefetch batches apart. */
module Claims {
  import opened Git
  import opened Sequences

  /** The candidates that are new to `taken`, first occurrences only, in order. */
  function LeadOf(candidates: seq<Oid>, taken: set<Oid>): seq<Oid> {
    if candidates == [] then []
    else if candidates[0] in taken then LeadOf(candidates[1..], taken)
    else [candidates[0]] + LeadOf(candidates[1..], taken + {candidates[0]})
  }

  /** A claim wins exactly the candidates nobody holds, each once. */
  lemma {:induction false} LeadIsWhatIsFree(candidates: seq<Oid>, taken: set<Oid>)
    ensures Distinct(LeadOf(candidates, taken))
    ensures Elements(LeadOf(candidates, taken)) == Elements(candidates) - taken
  {
    if candidates != [] {
      var c := candidates[0];
      LeadIsWhatIsFree(candidates[1..], taken + {c});
      LeadIsWhatIsFree(candidates[1..], taken);
      assert Elements(candidates) == Elements(candidates[1..]) + {c};
      if c !in taken {
        var rest := LeadOf(candidates[1..], taken + {c});
        assert c !in Elements(rest);
        assert LeadOf(candidates, taken) == [c] + rest;
        assert Elements([c] + rest) == {c} + Elements(rest);
      }
    }
  }

  lemma LeadOfOne(o: Oid, taken: set<Oid>)
    ensures LeadOf([o], taken) == if o in taken then [] else [o]
  {
    assert [o][1..] == [];
  }

  class PrefetchClaims {
    var inflight: set<Oid>

    /** What each live guard holds, newest last. */
    ghost var guards: map<nat, set<Oid>>

    ghost predicate Valid()
      reads this
    {
      && (forall g, h | g in guards && h in guards && g != h :: guards[g] !! guards[h])
      && (forall o :: o in inflight <==> exists g :: g in guards && o in guards[g])
    }

    constructor ()
      ensures Valid() && inflight == {} && guards == map[]
    {
      inflight, guards := {}, map[];
    }

    /** Claim for a caller; the guard it gets holds its lead set and nothing else. */
    method Claim(candidates: seq<Oid>, ghost guard: nat) returns (lead: seq<Oid>)
      requires Valid() && guard !in guards
      modifies this
      ensures Valid()
      ensures lead == LeadOf(candidates, old(inflight))
      ensures inflight == old(inflight) + Elements(candidates)
      ensures guards == old(guards)[guard := Elements(lead)]
    {
      lead := TakeFree(candidates);
      LeadIsWhatIsFree(candidates, old(inflight));
      guards := guards[guard := Elements(lead)];
      assert forall g | g in old(guards) :: g in guards && guards[g] == old(guards)[g];
      forall o ensures o in inflight <==> exists g :: g in guards && o in guards[g] {
        if o in Elements(lead) {
          assert guards[guard] == Elements(lead);
        } else if o in inflight {
          assert o in old(inflight);
          var g :| g in old(guards) && o in old(guards)[g];
          assert g in guards;
        }
      }
    }

    /** The loop under the lock. */
    method TakeFree(candidates: seq<Oid>) returns (lead: seq<Oid>)
      modifies this`inflight
      ensures lead == LeadOf(candidates, old(inflight))
      ensures inflight == old(inflight) + Elements(candidates)
    {
      lead := [];
      var i := 0;
      assert candidates[0..] == candidates;
      while i < |candidates|
        invariant 0 <= i <= |candidates|
        invariant lead + LeadOf(candidates[i..], inflight) == LeadOf(candidates, old(inflight))
        invariant inflight == old(inflight) + Elements(candidates[..i])
      {
        assert candidates[i..][1..] == candidates[i + 1..];
        assert Elements(candidates[..i + 1]) == Elements(candidates[..i]) + {candidates[i]} by {
          assert candidates[..i + 1] == candidates[..i] + [candidates[i]];
        }
        if candidates[i] !in inflight {
          inflight := inflight + {candidates[i]};
          lead := lead + [candidates[i]];
        }
        i := i + 1;
      }
      assert candidates[..i] == candidates;
      assert lead == lead + LeadOf(candidates[i..], inflight);
    }

    /** Dropping the guard gives back exactly what it held. */
    method Release(lead: seq<Oid>, ghost guard: nat)
      requires Valid() && guard in guards && guards[guard] == Elements(lead)
      modifies this
      ensures Valid()
      ensures inflight == old(inflight) - Elements(lead)
      ensures guards == old(guards) - {guard}
    {
      for i := 0 to |lead|
        invariant inflight == old(inflight) - Elements(lead[..i])
        invariant guards == old(guards)
      {
        assert lead[..i + 1] == lead[..i] + [lead[i]];
        inflight := inflight - {lead[i]};
      }
      assert lead[..|lead|] == lead;
      ghost var before := guards;
      guards := guards - {guard};
      forall g, o | g in guards && o in guards[g] ensures o in inflight {
        assert before[g] !! before[guard];
      }
      forall o | o in inflight ensures exists g :: g in guards && o in guards[g] {
        var g :| g in before && o in before[g];
        assert g in guards && o in guards[g];
      }
    }

    /** The in-flight set is empty as soon as no guard is live. */
    lemma EmptyWhenNoGuards()
      requires Valid() && guards == map[]
      ensures inflight == {}
    {
      assert forall o :: o !in inflight;
    }
  }
}
