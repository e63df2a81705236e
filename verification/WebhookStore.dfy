/**
 The shared map of pending deliveries: events fan out into it, concurrent
 workers copy ready deliveries out and write results back, and a sweeper
 removes finished ones.
 */
module WebhookStore {
  import opened Prelude
  import opened WebhookDelivery

  type Pending = map<nat, Delivery>

  /** Transaction and signing events go by network; low-balance alerts must also be asked for. */
  datatype EventKind = Ordinary | LowBalance

  predicate ShouldSend(config: WebhookConfig, kind: EventKind, chainName: string) {
    && (kind == LowBalance ==> config.alertOnLowBalances == Some(true))
    && (config.networks.IsEmpty() || config.networks.Contains(chainName))
  }

  /** The deliveries one event queues, one per matching configuration, in order. */
  function FanOut(configs: seq<WebhookConfig>, kind: EventKind, chainName: string,
                  eventType: string, payload: string, ids: seq<nat>): seq<Delivery>
    requires |ids| == |configs|
  {
    if configs == [] then []
    else
      var n := |configs| - 1;
      var before := FanOut(configs[..n], kind, chainName, eventType, payload, ids[..n]);
      if ShouldSend(configs[n], kind, chainName)
      then before + [NewDelivery(ids[n], configs[n], eventType, payload)]
      else before
  }

  function InsertAll(pending: Pending, deliveries: seq<Delivery>): Pending {
    if deliveries == [] then pending
    else
      var n := |deliveries| - 1;
      InsertAll(pending, deliveries[..n])[deliveries[n].id := deliveries[n]]
  }

  function Ready(pending: Pending, now: nat): Pending {
    map id | id in pending && IsReadyForRetry(pending[id], now) :: pending[id]
  }

  function Retained(pending: Pending): Pending {
    map id | id in pending && !Terminal(pending[id]) :: pending[id]
  }

  /** Every delivery is stored under its own identifier. */
  ghost predicate Keyed(pending: Pending) {
    forall id :: id in pending ==> pending[id].id == id
  }

  lemma {:induction false} InsertKeepsKeyed(pending: Pending, deliveries: seq<Delivery>)
    requires Keyed(pending)
    ensures Keyed(InsertAll(pending, deliveries))
    decreases |deliveries|
  {
    if deliveries != [] {
      InsertKeepsKeyed(pending, deliveries[..|deliveries| - 1]);
    }
  }

  class WebhookManager {
    const webhookConfigs: seq<WebhookConfig>
    var pendingDeliveries: Pending

    ghost predicate Valid()
      reads this
    {
      Keyed(pendingDeliveries)
    }

    constructor (configs: seq<WebhookConfig>)
      ensures Valid() && webhookConfigs == configs && pendingDeliveries == map[]
    {
      webhookConfigs, pendingDeliveries := configs, map[];
    }

    /** Queues one new delivery per matching configuration; `ids` are the fresh identifiers drawn for them. */
    method QueueWebhook(kind: EventKind, chainName: string, eventType: string, payload: string, ids: seq<nat>)
      requires Valid() && |ids| == |webhookConfigs|
      modifies this
      ensures Valid()
      ensures pendingDeliveries ==
              InsertAll(old(pendingDeliveries), FanOut(webhookConfigs, kind, chainName, eventType, payload, ids))
    {
      var deliveriesToQueue: seq<Delivery> := [];
      for i := 0 to |webhookConfigs|
        invariant deliveriesToQueue == FanOut(webhookConfigs[..i], kind, chainName, eventType, payload, ids[..i])
        invariant pendingDeliveries == old(pendingDeliveries)
      {
        assert webhookConfigs[..i + 1][..i] == webhookConfigs[..i] && ids[..i + 1][..i] == ids[..i];
        if ShouldSend(webhookConfigs[i], kind, chainName) {
          deliveriesToQueue := deliveriesToQueue + [NewDelivery(ids[i], webhookConfigs[i], eventType, payload)];
        }
      }
      assert webhookConfigs[..|webhookConfigs|] == webhookConfigs && ids[..|ids|] == ids;
      if deliveriesToQueue == [] {
        return;
      }
      WriteBack(deliveriesToQueue);
    }

    /** One copy of each delivery that may be sent now, in no particular order. */
    method ReadyDeliveries(now: nat) returns (ready: seq<Delivery>)
      requires Valid()
      ensures forall i, j :: 0 <= i < j < |ready| ==> ready[i].id != ready[j].id
      ensures forall d :: d in ready <==> d.id in Ready(pendingDeliveries, now) && pendingDeliveries[d.id] == d
      ensures forall d :: d in ready <==>
        && d.id in pendingDeliveries && pendingDeliveries[d.id] == d
        && !d.completed && !d.failed && d.attempts < d.maxRetries
        && (d.nextRetryAt.None? || d.nextRetryAt.value <= now)
    {
      ready := [];
      var todo := pendingDeliveries.Keys;
      while todo != {}
        invariant todo <= pendingDeliveries.Keys
        invariant forall i, j :: 0 <= i < j < |ready| ==> ready[i].id != ready[j].id
        invariant forall d :: d in ready <==>
                    d.id in Ready(pendingDeliveries, now) && d.id !in todo && pendingDeliveries[d.id] == d
        decreases |todo|
      {
        var id :| id in todo;
        todo := todo - {id};
        if IsReadyForRetry(pendingDeliveries[id], now) {
          assert forall i :: 0 <= i < |ready| ==> ready[i] in ready;
          ready := ready + [pendingDeliveries[id]];
        }
      }
    }

    /** Stores deliveries under their own identifiers, over whatever is stored there. */
    method WriteBack(updated: seq<Delivery>)
      requires Valid()
      modifies this
      ensures Valid() && pendingDeliveries == InsertAll(old(pendingDeliveries), updated)
    {
      for i := 0 to |updated|
        invariant pendingDeliveries == InsertAll(old(pendingDeliveries), updated[..i])
      {
        assert updated[..i + 1][..i] == updated[..i];
        pendingDeliveries := pendingDeliveries[updated[i].id := updated[i]];
      }
      assert updated[..|updated|] == updated;
      InsertKeepsKeyed(old(pendingDeliveries), updated);
    }

    method CleanupDeliveries()
      requires Valid()
      modifies this
      ensures Valid() && pendingDeliveries == Retained(old(pendingDeliveries))
      ensures forall id :: id in pendingDeliveries <==>
        id in old(pendingDeliveries) && !old(pendingDeliveries)[id].completed && !old(pendingDeliveries)[id].failed
    {
      pendingDeliveries :=
        map id | id in pendingDeliveries && !Terminal(pendingDeliveries[id]) :: pendingDeliveries[id];
    }
  }

  // ---- Fan-out --------------------------------------------------------------

  ghost predicate Distinct(ids: seq<nat>) {
    forall i, j :: 0 <= i < j < |ids| ==> ids[i] != ids[j]
  }

  lemma {:induction false} FanOutMembers(configs: seq<WebhookConfig>, kind: EventKind, chainName: string,
                                         eventType: string, payload: string, ids: seq<nat>, d: Delivery)
    requires |ids| == |configs|
    ensures d in FanOut(configs, kind, chainName, eventType, payload, ids)
            <==> exists i :: 0 <= i < |configs| && ShouldSend(configs[i], kind, chainName)
                             && d == NewDelivery(ids[i], configs[i], eventType, payload)
    decreases |configs|
  {
    if configs != [] {
      var n := |configs| - 1;
      FanOutMembers(configs[..n], kind, chainName, eventType, payload, ids[..n], d);
      assert forall i :: 0 <= i < n ==> configs[..n][i] == configs[i] && ids[..n][i] == ids[i];
    }
  }

  lemma {:induction false} InsertedKeys(pending: Pending, deliveries: seq<Delivery>, id: nat)
    ensures var after := InsertAll(pending, deliveries);
      && (id in after <==> id in pending || exists i :: 0 <= i < |deliveries| && deliveries[i].id == id)
      && (id in after ==> after[id] in deliveries || (id in pending && after[id] == pending[id]))
      && (id in pending && (forall i :: 0 <= i < |deliveries| ==> deliveries[i].id != id) ==> after[id] == pending[id])
      && (id in after && (exists i :: 0 <= i < |deliveries| && deliveries[i].id == id) ==>
            after[id] in deliveries && after[id].id == id)
    decreases |deliveries|
  {
    if deliveries != [] {
      var n := |deliveries| - 1;
      var before := deliveries[..n];
      InsertedKeys(pending, before, id);
      assert forall i :: 0 <= i < n ==> before[i] == deliveries[i];
      assert forall d :: d in before ==> d in deliveries;
    }
  }

  /** An event with fresh identifiers leaves every stored delivery as it was. */
  lemma EventKeepsOthers(pending: Pending, configs: seq<WebhookConfig>, kind: EventKind,
                         chainName: string, eventType: string, payload: string, ids: seq<nat>, id: nat)
    requires |ids| == |configs| && id !in ids
    ensures var after := InsertAll(pending, FanOut(configs, kind, chainName, eventType, payload, ids));
      Lookup(after, id) == Lookup(pending, id)
  {
    var deliveries := FanOut(configs, kind, chainName, eventType, payload, ids);
    InsertedKeys(pending, deliveries, id);
    forall d | d in deliveries
      ensures d.id != id
    {
      FanOutMembers(configs, kind, chainName, eventType, payload, ids, d);
    }
  }

  /** The configuration is for this chain, or for every chain, by having all networks or none listed. */
  predicate ListensTo(config: WebhookConfig, chainName: string) {
    match config.networks
    case AllNetworks => true
    case NetworkList(names) => |names| == 0 || exists k :: 0 <= k < |names| && names[k] == chainName
  }

  /**
   A configuration gets exactly one delivery from an event if it listens to the chain
   and, for a low-balance alert, has asked for alerts; otherwise none. The delivery is
   new: not attempted, with the configured number of attempts or three, and with the
   event's type and payload.
   */
  lemma EventReachesExactlyTheMatches(pending: Pending, configs: seq<WebhookConfig>, kind: EventKind,
                                      chainName: string, eventType: string, payload: string, ids: seq<nat>, i: nat)
    requires |ids| == |configs| && Distinct(ids) && i < |ids| && ids[i] !in pending
    ensures var after := InsertAll(pending, FanOut(configs, kind, chainName, eventType, payload, ids));
      if ListensTo(configs[i], chainName) && (kind == Ordinary || configs[i].alertOnLowBalances == Some(true)) then
        var attempts := match configs[i].maxRetries case Some(n) => n case None => 3;
        && ids[i] in after
        && after[ids[i]] ==
           Delivery(ids[i], configs[i], eventType, payload, 0, attempts, None, None, false, false, None)
      else ids[i] !in after
  {
    var deliveries := FanOut(configs, kind, chainName, eventType, payload, ids);
    var mine := NewDelivery(ids[i], configs[i], eventType, payload);
    InsertedKeys(pending, deliveries, ids[i]);
    forall d | d in deliveries && d.id == ids[i]
      ensures d == mine && ShouldSend(configs[i], kind, chainName)
    {
      FanOutMembers(configs, kind, chainName, eventType, payload, ids, d);
      var j :| 0 <= j < |configs| && ShouldSend(configs[j], kind, chainName)
               && d == NewDelivery(ids[j], configs[j], eventType, payload);
      assert j == i;
    }
    FanOutMembers(configs, kind, chainName, eventType, payload, ids, mine);
  }
}
