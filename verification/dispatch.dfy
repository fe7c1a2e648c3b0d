/** The inbound loop: every telegram is handed, together with the first
    configured device whose group address equals its destination, to the
    update; a telegram no device is addressed by is dropped. Updates are
    applied one after another in arrival order. */
module Dispatch {
  import opened Options
  import opened Knx
  import opened Config
  import opened Labels
  import opened Metrics

  predicate Addressed<A(==)>(dev: DeviceConfig, dest: A, pack: Pack<A>) {
    GroupAddrOf(dev, pack) == dest
  }

  /** No device before position `i` is addressed by `dest`. */
  predicate NoneAddressedBefore<A(==)>(devices: seq<DeviceConfig>, dest: A, pack: Pack<A>, i: nat)
    requires i <= |devices|
  {
    forall j :: 0 <= j < i ==> !Addressed(devices[j], dest, pack)
  }

  /** Position of the first device addressed by `dest`, or None if there is
      no such device. */
  function FirstMatch<A(==)>(devices: seq<DeviceConfig>, dest: A, pack: Pack<A>): (r: Option<nat>)
    ensures r.Some? ==> r.value < |devices| && Addressed(devices[r.value], dest, pack)
    ensures r.Some? ==> forall j :: 0 <= j < r.value ==> !Addressed(devices[j], dest, pack)
    ensures r.None? <==> forall j :: 0 <= j < |devices| ==> !Addressed(devices[j], dest, pack)
    ensures forall i ::
      (0 <= i < |devices| && Addressed(devices[i], dest, pack) && NoneAddressedBefore(devices, dest, pack, i))
      ==> r == Some(i)
    decreases |devices|
  {
    if |devices| == 0 then None
    else if Addressed(devices[0], dest, pack) then Some(0)
    else
      match FirstMatch(devices[1..], dest, pack)
      case None => None
      case Some(i) => Some(i + 1)
  }

  /** The device scan as the loop runs it: stop at the first device whose
      address equals the destination. */
  method MatchDevice<A(==)>(devices: seq<DeviceConfig>, dest: A, pack: Pack<A>) returns (hit: Option<nat>)
    ensures hit.Some? ==> hit.value < |devices| && Addressed(devices[hit.value], dest, pack)
    ensures hit.Some? ==> forall j :: 0 <= j < hit.value ==> !Addressed(devices[j], dest, pack)
    ensures hit.None? ==> forall j :: 0 <= j < |devices| ==> !Addressed(devices[j], dest, pack)
    ensures hit == FirstMatch(devices, dest, pack)
  {
    var i := 0;
    while i < |devices|
      invariant 0 <= i <= |devices|
      invariant forall j :: 0 <= j < i ==> !Addressed(devices[j], dest, pack)
    {
      if Addressed(devices[i], dest, pack) {
        hit := Some(i);
        return;
      }
      i := i + 1;
    }
    hit := None;
  }

  /** One inbound telegram. The update is called once, with the first device
      in configuration order whose group address equals the destination; a
      telegram addressed to no configured device leaves the whole state,
      last error included, unchanged. */
  function HandleEvent<A(==), V>(s: State<V>, devices: seq<DeviceConfig>, msg: GroupEvent<A>, pack: Pack<A>, unpack: Unpack<V>): (r: State<V>)
    ensures (forall j :: 0 <= j < |devices| ==> !Addressed(devices[j], msg.destination, pack)) ==> r == s
    ensures forall i :: 0 <= i < |devices| && Addressed(devices[i], msg.destination, pack)
                     && NoneAddressedBefore(devices, msg.destination, pack, i)
                     ==> r == UpdatePrometheus(s, msg, devices[i], unpack)
  {
    match FirstMatch(devices, msg.destination, pack)
    case None => s
    case Some(i) => UpdatePrometheus(s, msg, devices[i], unpack)
  }

  /** The series a telegram writes, if any: that of the first matching
      device, provided that device is a DPT 9.001 device. */
  function Writes<A(==)>(devices: seq<DeviceConfig>, msg: GroupEvent<A>, pack: Pack<A>): Option<LabelSet>
  {
    match FirstMatch(devices, msg.destination, pack)
    case None => None
    case Some(i) => if devices[i].typeTag == Dpt9001 then Some(LabelsOf(devices[i])) else None
  }

  /** A telegram's effect on the gauge vector: it sets the series it writes
      to the decoded payload and keeps every other series; when it writes
      none, the gauge vector is unchanged. */
  lemma HandleEventEffect<A, V>(s: State<V>, devices: seq<DeviceConfig>, msg: GroupEvent<A>, pack: Pack<A>, unpack: Unpack<V>)
    ensures Writes(devices, msg, pack).None? ==>
      HandleEvent(s, devices, msg, pack, unpack).temperature == s.temperature
    ensures Writes(devices, msg, pack).Some? ==>
      HandleEvent(s, devices, msg, pack, unpack).temperature
        == s.temperature[Writes(devices, msg, pack).value := unpack(msg.data).value]
  {
  }

  /** Of several devices sharing a group address only the first is ever used:
      giving a later one another name or type tag changes nothing. */
  lemma LaterDuplicateNeverUsed<A, V>(s: State<V>, devices: seq<DeviceConfig>, msg: GroupEvent<A>, pack: Pack<A>, unpack: Unpack<V>, i: nat, j: nat, other: DeviceConfig)
    requires i < j < |devices|
    requires GroupAddrOf(devices[i], pack) == GroupAddrOf(devices[j], pack)
    requires GroupAddrOf(other, pack) == GroupAddrOf(devices[j], pack)
    ensures HandleEvent(s, devices[j := other], msg, pack, unpack) == HandleEvent(s, devices, msg, pack, unpack)
  {
    var devices' := devices[j := other];
    var dest := msg.destination;
    match FirstMatch(devices, dest, pack)
    case None =>
      assert forall k :: 0 <= k < |devices'| ==> !Addressed(devices'[k], dest, pack);
    case Some(m) =>
      assert m != j && devices'[m] == devices[m];
      assert NoneAddressedBefore(devices', dest, pack, m);
  }

  /** The loop ignores the telegram's command: a read or a response is
      handled exactly like a write to the same address with the same payload. */
  lemma CommandIgnored<A, V>(s: State<V>, devices: seq<DeviceConfig>, msg: GroupEvent<A>, c: GroupCommand, pack: Pack<A>, unpack: Unpack<V>)
    ensures HandleEvent(s, devices, msg.(command := c), pack, unpack) == HandleEvent(s, devices, msg, pack, unpack)
  {
  }

  /** The state after a finite stream of telegrams, each handled in turn.
      Series are never removed. */
  function Run<A(==), V>(s: State<V>, devices: seq<DeviceConfig>, events: seq<GroupEvent<A>>, pack: Pack<A>, unpack: Unpack<V>): (r: State<V>)
    ensures s.temperature.Keys <= r.temperature.Keys
    decreases |events|
  {
    if |events| == 0 then s
    else
      var before := Run(s, devices, events[..|events| - 1], pack, unpack);
      var msg := events[|events| - 1];
      HandleEventEffect(before, devices, msg, pack, unpack);
      HandleEvent(before, devices, msg, pack, unpack)
  }

  /** The receive loop over the inbound telegrams. */
  method Serve<A(==), V>(s: State<V>, devices: seq<DeviceConfig>, events: seq<GroupEvent<A>>, pack: Pack<A>, unpack: Unpack<V>)
    returns (r: State<V>)
    ensures r == Run(s, devices, events, pack, unpack)
  {
    r := s;
    var n := 0;
    while n < |events|
      invariant 0 <= n <= |events|
      invariant r == Run(s, devices, events[..n], pack, unpack)
    {
      var msg := events[n];
      var hit := MatchDevice(devices, msg.destination, pack);
      if hit.Some? {
        r := UpdatePrometheus(r, msg, devices[hit.value], unpack);
      }
      assert events[..n + 1][..n] == events[..n];
      n := n + 1;
    }
    assert events[..n] == events;
  }

  /** A stream in which no telegram is addressed to a configured device
      leaves the state unchanged. */
  lemma {:induction false} RunIgnoresUnaddressed<A, V>(s: State<V>, devices: seq<DeviceConfig>, events: seq<GroupEvent<A>>, pack: Pack<A>, unpack: Unpack<V>)
    requires forall n, j :: 0 <= n < |events| && 0 <= j < |devices| ==> !Addressed(devices[j], events[n].destination, pack)
    ensures Run(s, devices, events, pack, unpack) == s
    decreases |events|
  {
    if |events| > 0 {
      var prefix := events[..|events| - 1];
      RunIgnoresUnaddressed(s, devices, prefix, pack, unpack);
    }
  }

  /** One series across the last telegram of a non-empty stream: if that
      telegram writes the series, it now holds the decoded payload; otherwise
      its presence and value are those before the telegram. */
  lemma RunLastTelegram<A, V>(s: State<V>, devices: seq<DeviceConfig>, events: seq<GroupEvent<A>>, pack: Pack<A>, unpack: Unpack<V>, k: LabelSet)
    requires |events| > 0
    ensures var msg := events[|events| - 1];
            var after := Run(s, devices, events, pack, unpack).temperature;
            Writes(devices, msg, pack) == Some(k) ==> k in after && after[k] == unpack(msg.data).value
    ensures var before := Run(s, devices, events[..|events| - 1], pack, unpack).temperature;
            var after := Run(s, devices, events, pack, unpack).temperature;
            Writes(devices, events[|events| - 1], pack) != Some(k) ==>
              (k in after <==> k in before) && (k in before ==> after[k] == before[k])
  {
    var before := Run(s, devices, events[..|events| - 1], pack, unpack);
    HandleEventEffect(before, devices, events[|events| - 1], pack, unpack);
  }

  /** Last write wins: a series holds the value decoded from the last
      telegram in the stream that writes it. */
  lemma {:induction false} RunLastWriteWins<A, V>(s: State<V>, devices: seq<DeviceConfig>, events: seq<GroupEvent<A>>, pack: Pack<A>, unpack: Unpack<V>, i: nat, k: LabelSet)
    requires i < |events|
    requires Writes(devices, events[i], pack) == Some(k)
    requires forall n :: i < n < |events| ==> Writes(devices, events[n], pack) != Some(k)
    ensures k in Run(s, devices, events, pack, unpack).temperature
    ensures Run(s, devices, events, pack, unpack).temperature[k] == unpack(events[i].data).value
    decreases |events|
  {
    var last := |events| - 1;
    var prefix := events[..last];
    RunLastTelegram(s, devices, events, pack, unpack, k);
    if i < last {
      assert prefix[i] == events[i];
      forall n | i < n < |prefix|
        ensures Writes(devices, prefix[n], pack) != Some(k)
      {
        assert prefix[n] == events[n];
      }
      RunLastWriteWins(s, devices, prefix, pack, unpack, i, k);
    }
  }

  /** A series no telegram writes keeps its presence and its value. */
  lemma {:induction false} RunUntouchedSeries<A, V>(s: State<V>, devices: seq<DeviceConfig>, events: seq<GroupEvent<A>>, pack: Pack<A>, unpack: Unpack<V>, k: LabelSet)
    requires forall n :: 0 <= n < |events| ==> Writes(devices, events[n], pack) != Some(k)
    ensures k in Run(s, devices, events, pack, unpack).temperature <==> k in s.temperature
    ensures k in s.temperature ==> Run(s, devices, events, pack, unpack).temperature[k] == s.temperature[k]
    decreases |events|
  {
    if |events| > 0 {
      var last := |events| - 1;
      var prefix := events[..last];
      RunUntouchedSeries(s, devices, prefix, pack, unpack, k);
      RunLastTelegram(s, devices, events, pack, unpack, k);
    }
  }

  /** Every series that appears during a stream belongs to a configured
      DPT 9.001 device. */
  lemma {:induction false} RunSeriesOwned<A, V>(s: State<V>, devices: seq<DeviceConfig>, events: seq<GroupEvent<A>>, pack: Pack<A>, unpack: Unpack<V>)
    ensures forall k :: k in Run(s, devices, events, pack, unpack).temperature && k !in s.temperature ==>
      exists j :: 0 <= j < |devices| && devices[j].typeTag == Dpt9001 && LabelsOf(devices[j]) == k
    decreases |events|
  {
    if |events| > 0 {
      var last := |events| - 1;
      var prefix := events[..last];
      RunSeriesOwned(s, devices, prefix, pack, unpack);
      HandleEventEffect(Run(s, devices, prefix, pack, unpack), devices, events[last], pack, unpack);
    }
  }
}
