/** SALink and Param_ADC as objects; recv of each signalling packet does what Admission says. */
module SaLink {
  import opened Common
  import opened Admission

  const NFLOWS := 500

  class ParamAdc {
    const limit: real
    var resvRate: real

    constructor (limit: real)
      ensures this.limit == limit && resvRate == 0.0
    {
      this.limit, resvRate := limit, 0.0;
    }

    method AdmitFlow(r: real) returns (ok: bool)
      modifies this`resvRate
      ensures ok == (old(resvRate) + r <= limit)
      ensures resvRate == if ok then old(resvRate) + r else old(resvRate)
    {
      if resvRate + r <= limit {
        resvRate := resvRate + r;
        return true;
      }
      return false;
    }

    method RejAction(r: real)
      modifies this`resvRate
      ensures resvRate == old(resvRate) - r
    {
      resvRate := resvRate - r;
    }

    method TeardownAction(r: real)
      modifies this`resvRate
      ensures resvRate == old(resvRate) - r
    {
      resvRate := resvRate - r;
    }
  }

  lemma FindAt(s: seq<int>, id: int, i: nat)
    requires i < |s| && s[i] == id && forall k :: 0 <= k < i ==> s[k] != id
    ensures Find(s, id) == Some(i)
  {
  }

  class SALink {
    const adc: ParamAdc
    const pending: array<int>
    var numfl: int
    ghost var held: set<nat>

    ghost function State(): Link
      reads this, adc, pending
    {
      Link(adc.resvRate, adc.limit, pending[..], numfl, held)
    }

    constructor (adc: ParamAdc)
      requires adc.resvRate == 0.0
      ensures this.adc == adc && fresh(pending) && pending.Length == NFLOWS
      ensures State() == Link(0.0, adc.limit, seq(NFLOWS, _ => -1), -1, {})
    {
      this.adc := adc;
      pending := new int[NFLOWS](_ => -1);
      numfl, held := -1, {};
    }

    /** lookup; get_nxt is the same search for a free slot. */
    method Lookup(id: int) returns (j: int)
      ensures j == (match Find(pending[..], id) case None => -1 case Some(v) => v)
    {
      var i := 0;
      while i < pending.Length
        invariant 0 <= i <= pending.Length
        invariant forall k :: 0 <= k < i ==> pending[k] != id
      {
        if pending[i] == id {
          FindAt(pending[..], id, i);
          return i;
        }
        i := i + 1;
      }
      return -1;
    }

    /** PT_REQUEST; decision is the bit in the packet, which this link may clear. */
    method RecvRequest(id: nat, rate: real, decision: bool) returns (decision': bool)
      requires Admits(State(), rate) ==> -1 in pending[..]
      modifies this, adc, pending
      ensures State() == OnRequest(old(State()), id, rate)
      ensures decision' == (decision && Admits(old(State()), rate))
    {
      var decide := adc.AdmitFlow(rate);
      decision' := decision && decide;
      if decide {
        var j := Lookup(-1);
        pending[j] := id;
        numfl := numfl + 1;
        held := held + {id};
      }
    }

    method RecvConfirm(id: nat, rate: real, decision: bool)
      modifies this, adc, pending
      ensures State() == OnConfirm(old(State()), id, rate, decision)
    {
      var j := Lookup(id);
      if j != -1 {
        if !decision {
          adc.RejAction(rate);
          numfl := numfl - 1;
          held := held - {id};
        }
        pending[j] := -1;
      }
    }

    method RecvTeardown(id: nat, rate: real)
      modifies this, adc
      ensures State() == OnTeardown(old(State()), id, rate)
    {
      adc.TeardownAction(rate);
      numfl := numfl - 1;
      held := held - {id};
    }
  }
}
