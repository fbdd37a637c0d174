/** The federated server's strategy: it holds the current policy table and
    its version, hands them out each round, records what clients report,
    and accepts policy updates. Clocks are parameters; the policy payload
    is returned as values rather than serialised. */
module FederatedServer {
  import opened Wrappers
  import opened Values
  import FederatedClient

  /** The policies `initialize_parameters` installs when there are none. */
  function DefaultPolicies(): seq<(string, Value)>
  {
    [("default", Dict([("description", Str("Default guardrail configuration")),
                       ("validators", StrList(["length_check", "profanity_check"]))])),
     ("strict", Dict([("description", Str("Strict content moderation")),
                      ("validators", StrList(["length_check", "profanity_check", "toxic_language_check", "pii_check"]))]))]
  }

  /** The default policies are ones a client accepts. */
  lemma DefaultPoliciesAccepted()
    ensures FederatedClient.PoliciesValid(Dict(DefaultPolicies()))
  {
    var d := DefaultPolicies();
    assert FederatedClient.PolicyShaped(d[0].1);
    assert FederatedClient.PolicyShaped(d[1].1);
  }

  /** The payload sent to clients: the policies and their version (the
      timestamp is left out). */
  datatype PolicyPayload = PolicyPayload(policies: seq<(string, Value)>, version: int)

  /** What the server remembers of a client's last report. */
  datatype ClientRecord = ClientRecord(lastUpdate: real, metrics: seq<(string, Value)>, serverRound: int)

  type ClientTable = seq<(string, ClientRecord)>

  /** The number of clients `configure_fit` asks for out of `n` known ones:
      half of them, but at least the minimum, and never more than there are. */
  function FitSampleSize(minFit: int, n: nat): (r: int)
    ensures r <= n && r >= n / 2
    ensures minFit <= n ==> r >= minFit
    ensures minFit >= n ==> r == n
    ensures r == n || r == minFit || r == n / 2
    ensures r <= minFit || r <= n / 2
  {
    var half := n / 2;
    var wanted := if minFit > half then minFit else half;
    if wanted < n then wanted else n
  }

  /** `client_metrics` after recording each result, in order. */
  function Recorded(table: ClientTable, results: seq<(string, seq<(string, Value)>)>, round: int, now: real): ClientTable
  {
    if results == [] then table
    else
      var last := results[|results| - 1];
      Put(Recorded(table, results[..|results| - 1], round, now), last.0, ClientRecord(now, last.1, round))
  }

  /** Each reporting client's record holds its last report with this round
      and time; every other client's record is untouched. */
  lemma {:induction false} RecordedMeaning(table: ClientTable, results: seq<(string, seq<(string, Value)>)>,
                                           round: int, now: real, cid: string)
    ensures match LastValue(results, cid)
            case Some(m) => Get(Recorded(table, results, round, now), cid) == Some(ClientRecord(now, m, round))
            case None => Get(Recorded(table, results, round, now), cid) == Get(table, cid)
  {
    if results != [] {
      var last := results[|results| - 1];
      RecordedMeaning(table, results[..|results| - 1], round, now, cid);
      GetPut(Recorded(table, results[..|results| - 1], round, now), last.0, ClientRecord(now, last.1, round), cid);
    }
  }

  /** The metrics `aggregate_fit` returns. */
  datatype FitAggregate = FitAggregate(
    serverRound: int,
    successfulClients: nat,
    failedClients: nat,
    policyVersion: int,
    clientMetrics: seq<(string, seq<(string, Value)>)>)

  /** The clients whose last report is less than five minutes old. */
  function ActiveCount(table: ClientTable, now: real): (r: nat)
    ensures r <= |table|
  {
    if table == [] then 0
    else ActiveCount(table[..|table| - 1], now) + if now - table[|table| - 1].1.lastUpdate < 300.0 then 1 else 0
  }

  /** Only clients that reported within the window count as active. */
  lemma {:induction false} ActiveCountMeaning(table: ClientTable, now: real)
    ensures ActiveCount(table, now) == |table| <==> forall i :: 0 <= i < |table| ==> now - table[i].1.lastUpdate < 300.0
  {
    if table != [] {
      var init := table[..|table| - 1];
      ActiveCountMeaning(init, now);
      assert forall i :: 0 <= i < |init| ==> init[i] == table[i];
    }
  }

  /** The server-side `evaluate` counts. */
  datatype ServerEvaluation = ServerEvaluation(serverRound: int, policyVersion: int, totalClients: nat,
                                               activeClients: nat, policiesCount: nat)

  class Strategy {
    var currentPolicies: seq<(string, Value)>
    var policyVersion: int
    var clientMetrics: ClientTable
    const minFitClients: int
    const minEvaluateClients: int
    const minAvailableClients: int

    /** `initial_policies or {}`: a missing table starts empty, at version 1. */
    constructor(initialPolicies: Option<seq<(string, Value)>>, minFit: int, minEvaluate: int, minAvailable: int)
      ensures currentPolicies == (if initialPolicies.Some? then initialPolicies.value else [])
      ensures policyVersion == 1 && clientMetrics == []
      ensures minFitClients == minFit && minEvaluateClients == minEvaluate && minAvailableClients == minAvailable
    {
      currentPolicies := if initialPolicies.Some? then initialPolicies.value else [];
      policyVersion := 1;
      clientMetrics := [];
      minFitClients := minFit;
      minEvaluateClients := minEvaluate;
      minAvailableClients := minAvailable;
    }

    /** `initialize_parameters`: the defaults are installed only when there
        are no policies; the payload carries the table and its version. */
    method InitializeParameters() returns (payload: PolicyPayload)
      modifies this
      ensures currentPolicies == if old(currentPolicies) == [] then DefaultPolicies() else old(currentPolicies)
      ensures policyVersion == old(policyVersion) && clientMetrics == old(clientMetrics)
      ensures payload == PolicyPayload(currentPolicies, policyVersion)
    {
      if currentPolicies == [] {
        currentPolicies := DefaultPolicies();
      }
      payload := PolicyPayload(currentPolicies, policyVersion);
    }

    /** `configure_fit` for `known` connected clients: how many to sample,
        and the round configuration sent to each. */
    method ConfigureFit(serverRound: int, known: nat) returns (sampleSize: int, config: seq<(string, Value)>)
      ensures sampleSize == FitSampleSize(minFitClients, known)
      ensures config == [("server_round", Int(serverRound)), ("policy_version", Int(policyVersion)), ("local_epochs", Int(1))]
    {
      sampleSize := if minFitClients > known / 2 then minFitClients else known / 2;
      if sampleSize > known {
        sampleSize := known;
      }
      config := [("server_round", Int(serverRound)), ("policy_version", Int(policyVersion)), ("local_epochs", Int(1))];
    }

    /** `aggregate_fit`: counts the successful and failed clients and records
        each result's metrics under its client id, with the round and time. */
    method AggregateFit(serverRound: int, results: seq<(string, seq<(string, Value)>)>, failures: nat, now: real)
      returns (payload: PolicyPayload, aggregate: FitAggregate)
      modifies this
      ensures clientMetrics == Recorded(old(clientMetrics), results, serverRound, now)
      ensures currentPolicies == old(currentPolicies) && policyVersion == old(policyVersion)
      ensures payload == PolicyPayload(currentPolicies, policyVersion)
      ensures aggregate == FitAggregate(serverRound, |results|, failures, policyVersion, Update([], results))
    {
      var reported: seq<(string, seq<(string, Value)>)> := [];
      var i := 0;
      while i < |results|
        invariant 0 <= i <= |results|
        invariant clientMetrics == Recorded(old(clientMetrics), results[..i], serverRound, now)
        invariant reported == Update([], results[..i])
        invariant currentPolicies == old(currentPolicies) && policyVersion == old(policyVersion)
      {
        var prefix := results[..i + 1];
        assert prefix[..i] == results[..i] && prefix[i] == results[i];
        var (cid, metrics) := results[i];
        clientMetrics := Put(clientMetrics, cid, ClientRecord(now, metrics, serverRound));
        reported := Put(reported, cid, metrics);
        i := i + 1;
      }
      assert results[..i] == results;
      payload := PolicyPayload(currentPolicies, policyVersion);
      aggregate := FitAggregate(serverRound, |results|, failures, policyVersion, reported);
    }

    /** The server-side `evaluate`: every known client is counted, and the
        active ones among them. */
    method Evaluate(serverRound: int, now: real) returns (e: ServerEvaluation)
      ensures e.totalClients == |clientMetrics| && e.activeClients == ActiveCount(clientMetrics, now)
      ensures e.activeClients <= e.totalClients
      ensures e.policyVersion == policyVersion && e.policiesCount == |currentPolicies| && e.serverRound == serverRound
    {
      var active := 0;
      var i := 0;
      while i < |clientMetrics|
        invariant 0 <= i <= |clientMetrics|
        invariant active == ActiveCount(clientMetrics[..i], now)
      {
        var prefix := clientMetrics[..i + 1];
        assert prefix[..i] == clientMetrics[..i] && prefix[i] == clientMetrics[i];
        if now - clientMetrics[i].1.lastUpdate < 300.0 {
          active := active + 1;
        }
        i := i + 1;
      }
      assert clientMetrics[..i] == clientMetrics;
      e := ServerEvaluation(serverRound, policyVersion, |clientMetrics|, active, |currentPolicies|);
    }

    /** `update_policies`: a non-dict is refused with nothing changed; a
        dict is merged over the current table, new entries overriding old,
        and the version goes up by one. */
    method UpdatePolicies(newPolicies: Value) returns (ok: bool)
      modifies this
      ensures ok <==> newPolicies.Dict?
      ensures !ok ==> currentPolicies == old(currentPolicies) && policyVersion == old(policyVersion)
      ensures ok ==> currentPolicies == Update(old(currentPolicies), newPolicies.entries)
                     && policyVersion == old(policyVersion) + 1
      ensures clientMetrics == old(clientMetrics)
    {
      if !newPolicies.Dict? {
        return false;
      }
      currentPolicies := Update(currentPolicies, newPolicies.entries);
      policyVersion := policyVersion + 1;
      ok := true;
    }
  }
}
