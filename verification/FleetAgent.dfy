/** The agent's half of the heartbeat: results waiting to be sent, and queries to execute. */
module FleetAgent {
  import opened FleetModel

  /** A pending query as it travels in a heartbeat response. */
  datatype Delivery = Delivery(id: nat, kind: Kind, params: Params)

  /** The results of executing a response's queries; one without an outcome raised and is skipped. */
  function Executed(ds: seq<Delivery>, outcomes: map<nat, Payload>): seq<QueryResult> {
    if ds == [] then []
    else
      var last := ds[|ds| - 1];
      Executed(ds[..|ds| - 1], outcomes)
        + if last.id in outcomes then [QueryResult(last.id, outcomes[last.id])] else []
  }

  class FleetForwarder {
    var pendingResults: seq<QueryResult>

    constructor ()
      ensures pendingResults == []
    {
      pendingResults := [];
    }

    /** The results leave the buffer before the call is made: a lost request loses them. */
    method TakeResults() returns (results: seq<QueryResult>)
      modifies this
      ensures results == old(pendingResults) && pendingResults == []
    {
      results := pendingResults;
      pendingResults := [];
    }

    method ExecutePendingQueries(ds: seq<Delivery>, outcomes: map<nat, Payload>)
      modifies this
      ensures pendingResults == old(pendingResults) + Executed(ds, outcomes)
    {
      var n := 0;
      while n < |ds|
        invariant 0 <= n <= |ds| && pendingResults == old(pendingResults) + Executed(ds[..n], outcomes)
      {
        assert ds[..n + 1][..n] == ds[..n];
        if ds[n].id in outcomes {
          pendingResults := pendingResults + [QueryResult(ds[n].id, outcomes[ds[n].id])];
        }
        n := n + 1;
      }
      assert ds[..n] == ds;
    }
  }

  lemma {:induction false} ExecutedExact(ds: seq<Delivery>, outcomes: map<nat, Payload>)
    ensures forall r :: r in Executed(ds, outcomes)
                   <==> r.id in outcomes && r.payload == outcomes[r.id] && exists d :: d in ds && d.id == r.id
  {
    if ds == [] {
    } else {
      var init, last := ds[..|ds| - 1], ds[|ds| - 1];
      ExecutedExact(init, outcomes);
      assert forall d :: d in ds <==> d in init || d == last;
    }
  }
}
