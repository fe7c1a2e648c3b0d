/** The start-up pass that asks every configured device for its current
    value, so that series appear before the first scrape. */
module Poller {
  import opened Options
  import opened Knx
  import opened Config
  import opened Dispatch

  /** A read request addressed to the device's group address, with no payload. */
  function ReadRequest<A>(dev: DeviceConfig, pack: Pack<A>): GroupEvent<A> {
    GroupEvent(GroupRead, GroupAddrOf(dev, pack), [])
  }

  /** Sends one read request per device, in configuration order, and stops
      at the first failed send, which is fatal to the process. `gateway(n)`
      is the error the gateway reports for the n-th send of the pass, if any.
      `sent` lists every request handed to the gateway, the failed one
      included; `fatal` is the error that ended the pass. */
  method UpdateMetrics<A>(devices: seq<DeviceConfig>, pack: Pack<A>, gateway: nat -> Option<TransportError>)
    returns (sent: seq<GroupEvent<A>>, fatal: Option<TransportError>)
    ensures |sent| <= |devices|
    ensures forall n :: 0 <= n < |sent| ==> sent[n] == ReadRequest(devices[n], pack)
    ensures forall n :: 0 <= n < |sent| - 1 ==> gateway(n).None?
    ensures fatal.None? <==> |sent| == |devices| && forall n :: 0 <= n < |devices| ==> gateway(n).None?
    ensures fatal.Some? ==> |sent| >= 1 && fatal == gateway(|sent| - 1)
  {
    sent := [];
    var i := 0;
    while i < |devices|
      invariant 0 <= i <= |devices|
      invariant |sent| == i
      invariant forall n :: 0 <= n < i ==> sent[n] == ReadRequest(devices[n], pack)
      invariant forall n :: 0 <= n < i ==> gateway(n).None?
    {
      var request := GroupEvent(GroupRead, GroupAddrOf(devices[i], pack), []);
      sent := sent + [request];
      var err := gateway(i);
      if err.Some? {
        fatal := err;
        return;
      }
      i := i + 1;
    }
    fatal := None;
  }

  /** The reply to each start-up request is routed by the inbound loop to a
      configured device: the device polled or an earlier one sharing its
      address. */
  lemma PolledAddressesAreDispatched<A>(devices: seq<DeviceConfig>, pack: Pack<A>, n: nat)
    requires n < |devices|
    ensures FirstMatch(devices, ReadRequest(devices[n], pack).destination, pack).Some?
    ensures FirstMatch(devices, ReadRequest(devices[n], pack).destination, pack).value <= n
  {
    var dest := ReadRequest(devices[n], pack).destination;
    assert Addressed(devices[n], dest, pack);
  }
}
