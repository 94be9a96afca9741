/** The device provider of the ToothFairy extension
    (extensions/toothfairy/src/api.tsx): fetching devices over the scripting
    bridge, and the table of pending connection requests that an explicit
    connect, each render's reconciliation pass and each request's timer change. */
module ToothFairyApi {
  import opened Wrappers
  import opened ToothFairyTypes

  // ---------------------------------------------------------------------------
  // Fetching the device list (getDevices)
  // ---------------------------------------------------------------------------

  /** One fetched device: the bridge's fields, not yet connecting. */
  function FromBridge(b: BridgeDevice): (d: Device)
    ensures !d.connecting && Observed(d) == b
  {
    Device(b.id, b.name, b.address, b.connected, b.iconData,
           b.batteryLevelString, b.batteryLevel, b.status, false)
  }

  /** The list a fetch returns: one device per application device, in the
      application's order, each copied from the bridge and not connecting. */
  function GetDevices(app: seq<BridgeDevice>): (r: seq<Device>)
    ensures |r| == |app|
    ensures forall i :: 0 <= i < |r| ==> !r[i].connecting && Observed(r[i]) == app[i]
  {
    if app == [] then [] else [FromBridge(app[0])] + GetDevices(app[1..])
  }

  // ---------------------------------------------------------------------------
  // The scripting bridge's connect script
  // ---------------------------------------------------------------------------

  /** `app.devices.byId(id)`: the position of the first device with that id. */
  function IndexOfId(app: seq<BridgeDevice>, id: int): (r: Option<nat>)
    ensures r.Some? ==> r.value < |app| && app[r.value].id == id
    ensures r.Some? ==> forall j :: 0 <= j < r.value ==> app[j].id != id
    ensures r.None? ==> forall j :: 0 <= j < |app| ==> app[j].id != id
  {
    if app == [] then None
    else if app[0].id == id then Some(0)
    else match IndexOfId(app[1..], id)
      case None => None
      case Some(k) => Some(k + 1)
  }

  /** What the connect script answers: `Changed` is the `true` that makes the
      provider record a request; `Threw` is a script that raised (no device
      with that id, or the application not running). */
  datatype SetReply = Unchanged | Changed | Threw

  /** The connect script's answer on a running application: it throws when no
      device has the id, and otherwise says whether the device found was in a
      state other than the requested one. */
  function Reply(app: seq<BridgeDevice>, id: int, connect: bool): (r: SetReply)
    ensures r == Threw <==> forall j :: 0 <= j < |app| ==> app[j].id != id
    ensures r != Threw ==>
      exists k :: 0 <= k < |app| && app[k].id == id && (r == Changed <==> app[k].connected != connect)
  {
    match IndexOfId(app, id)
    case None => Threw
    case Some(k) => if app[k].connected == connect then Unchanged else Changed
  }

  /** The application's device list after the connect script ran: at most one
      device changes, it is one with the requested id, and only its connection
      bit changes, to the requested value. */
  function AfterSet(app: seq<BridgeDevice>, id: int, connect: bool): (r: seq<BridgeDevice>)
    ensures |r| == |app|
    ensures forall j :: 0 <= j < |app| ==> r[j].(connected := app[j].connected) == app[j]
    ensures forall j :: 0 <= j < |app| && r[j] != app[j] ==> app[j].id == id && r[j].connected == connect
    ensures forall i, j :: 0 <= i < |app| && 0 <= j < |app| && r[i] != app[i] && r[j] != app[j] ==> i == j
  {
    match IndexOfId(app, id)
    case None => app
    case Some(k) => if app[k].connected == connect then app else app[k := app[k].(connected := connect)]
  }

  /** Two device lists that differ at most in connection bits. */
  ghost predicate SameIds(a: seq<BridgeDevice>, b: seq<BridgeDevice>)
  {
    |a| == |b| && forall j :: 0 <= j < |a| ==> a[j].id == b[j].id
  }

  lemma {:induction false} IndexOfIdSameIds(a: seq<BridgeDevice>, b: seq<BridgeDevice>, id: int)
    requires SameIds(a, b)
    ensures IndexOfId(a, id) == IndexOfId(b, id)
  {
    if a != [] && a[0].id != id {
      IndexOfIdSameIds(a[1..], b[1..], id);
    }
  }

  /** A request for the state the device already has changes nothing;
      otherwise exactly that device's connection bit becomes the requested one. */
  lemma SetChangesOnlyThatDevice(app: seq<BridgeDevice>, id: int, connect: bool)
    ensures Reply(app, id, connect) != Changed ==> AfterSet(app, id, connect) == app
    ensures Reply(app, id, connect) == Changed ==>
      var k := IndexOfId(app, id).value;
      && app[k].connected == !connect
      && AfterSet(app, id, connect) == app[k := app[k].(connected := connect)]
    ensures |AfterSet(app, id, connect)| == |app|
    ensures forall j :: 0 <= j < |app| ==>
      AfterSet(app, id, connect)[j] == app[j] || AfterSet(app, id, connect)[j] == app[j].(connected := connect)
  {
  }

  /** Repeating a request the bridge just carried out is a no-op: the second
      call answers `Unchanged` and leaves the application alone. */
  lemma {:induction false} RepeatedSetIsUnchanged(app: seq<BridgeDevice>, id: int, connect: bool)
    requires Reply(app, id, connect) != Threw
    ensures Reply(AfterSet(app, id, connect), id, connect) == Unchanged
    ensures AfterSet(AfterSet(app, id, connect), id, connect) == AfterSet(app, id, connect)
  {
    var app' := AfterSet(app, id, connect);
    assert SameIds(app, app');
    IndexOfIdSameIds(app, app', id);
  }

  /** The bridge: the ToothFairy application, whether it is running, and its
      device list, which the connect script flips one bit of. Anything else the
      application does (quitting, a connection that takes time or fails)
      happens between the provider's events, by assigning these fields. Every
      script run on an application that is not running throws. */
  class Bridge {
    var devices: seq<BridgeDevice>
    var running: bool

    constructor(devices: seq<BridgeDevice>, running: bool)
      ensures this.devices == devices && this.running == running
    {
      this.devices := devices;
      this.running := running;
    }

    /** The script `connect` runs: look the device up, answer `false` when it
        already has the requested state, else set it and answer `true`. */
    method SetConnected(id: int, connect: bool) returns (reply: SetReply)
      modifies this
      ensures running == old(running)
      ensures reply == (if old(running) then Reply(old(devices), id, connect) else Threw)
      ensures devices == (if old(running) then AfterSet(old(devices), id, connect) else old(devices))
    {
      if !running {
        return Threw;
      }
      var k := IndexOfId(devices, id);
      if k.None? {
        return Threw;
      }
      var previous := devices[k.value].connected;
      if connect == previous {
        return Unchanged;
      }
      devices := devices[k.value := devices[k.value].(connected := connect)];
      reply := Changed;
    }
  }

  // ---------------------------------------------------------------------------
  // The connection-request table
  // ---------------------------------------------------------------------------

  /** A pending request: the timer armed for it and the device's state before it. */
  datatype ConnectionRequest = ConnectionRequest(timeoutId: nat, previous: bool)

  type Requests = map<int, ConnectionRequest>

  /** `const { [id]: value, ...next } = prev`: the table without key `id`. */
  function Without(reqs: Requests, id: int): (r: Requests)
    ensures r.Keys == reqs.Keys - {id}
    ensures forall k :: k in r ==> r[k] == reqs[k]
    ensures id !in reqs ==> r == reqs
  {
    reqs - {id}
  }

  /** `{ ...prev, [id]: req }`: the table with `id` bound to `req`, replacing
      any entry already there. */
  function WithRequest(reqs: Requests, id: int, req: ConnectionRequest): (r: Requests)
    ensures r.Keys == reqs.Keys + {id} && r[id] == req
    ensures forall k :: k in reqs && k != id ==> r[k] == reqs[k]
  {
    reqs[id := req]
  }

  /** The device has a pending request and still shows the pre-request state. */
  predicate Waiting(d: Device, reqs: Requests)
  {
    d.id in reqs && d.connected == reqs[d.id].previous
  }

  /** The device has a pending request and its state has moved away from the
      pre-request one: the request is fulfilled. */
  predicate Confirmed(d: Device, reqs: Requests)
  {
    d.id in reqs && d.connected != reqs[d.id].previous
  }

  /** The reconciliation pass's effect on one device. */
  function MarkDevice(d: Device, reqs: Requests): Device
  {
    if Waiting(d, reqs) then d.(connecting := true) else d
  }

  /** The list after the reconciliation pass: the same devices in the same
      order, a device becoming connecting exactly when it waits on a request,
      and nothing but that flag changing. */
  function MarkConnecting(ds: seq<Device>, reqs: Requests): (r: seq<Device>)
    ensures |r| == |ds|
    ensures forall i :: 0 <= i < |ds| ==>
      Observed(r[i]) == Observed(ds[i]) && (r[i].connecting <==> ds[i].connecting || Waiting(ds[i], reqs))
  {
    seq(|ds|, i requires 0 <= i < |ds| => MarkDevice(ds[i], reqs))
  }

  /** The ids the pass deletes from the table. */
  function ConfirmedIds(ds: seq<Device>, reqs: Requests): set<int>
  {
    set i | 0 <= i < |ds| && Confirmed(ds[i], reqs) :: ds[i].id
  }

  /** The table after the reconciliation pass: entries are only removed,
      never changed, and an entry goes exactly when a listed device with its
      id is confirmed. */
  function Reconciled(ds: seq<Device>, reqs: Requests): (r: Requests)
    ensures r.Keys <= reqs.Keys && forall k :: k in r ==> r[k] == reqs[k]
    ensures forall k :: k in reqs ==>
      (k !in r <==> exists j :: 0 <= j < |ds| && ds[j].id == k && Confirmed(ds[j], reqs))
  {
    reqs - ConfirmedIds(ds, reqs)
  }

  ghost predicate UniqueIds(ds: seq<Device>)
  {
    forall i, j :: 0 <= i < j < |ds| ==> ds[i].id != ds[j].id
  }

  /** A device still in its pre-request state is marked connecting, and (ids
      being unique) its request stays as it was. */
  lemma ReconcileKeepsWaiting(ds: seq<Device>, reqs: Requests, i: nat)
    requires i < |ds| && UniqueIds(ds) && Waiting(ds[i], reqs)
    ensures MarkConnecting(ds, reqs)[i] == ds[i].(connecting := true)
    ensures ds[i].id in Reconciled(ds, reqs) && Reconciled(ds, reqs)[ds[i].id] == reqs[ds[i].id]
  {
    if ds[i].id in ConfirmedIds(ds, reqs) {
      var j :| 0 <= j < |ds| && Confirmed(ds[j], reqs) && ds[j].id == ds[i].id;
      assert false;
    }
  }

  /** A device whose state moved away from its pre-request value loses its
      request and is left unmarked; when it is the only such device, exactly
      its id leaves the table. */
  lemma ReconcileRemovesConfirmed(ds: seq<Device>, reqs: Requests, i: nat)
    requires i < |ds| && Confirmed(ds[i], reqs)
    ensures MarkConnecting(ds, reqs)[i] == ds[i]
    ensures ds[i].id !in Reconciled(ds, reqs)
    ensures (forall j :: 0 <= j < |ds| && Confirmed(ds[j], reqs) ==> ds[j].id == ds[i].id) ==>
              Reconciled(ds, reqs) == Without(reqs, ds[i].id)
  {
    if forall j :: 0 <= j < |ds| && Confirmed(ds[j], reqs) ==> ds[j].id == ds[i].id {
      assert ConfirmedIds(ds, reqs) == {ds[i].id};
    }
  }

  /** The pass deletes nothing but confirmed ids, and changes no entry it keeps:
      entries of ids absent from the list all survive. */
  lemma ReconcileOnlyRemovesConfirmed(ds: seq<Device>, reqs: Requests)
    ensures forall k :: k in Reconciled(ds, reqs) ==> k in reqs && Reconciled(ds, reqs)[k] == reqs[k]
    ensures forall k :: k in reqs ==>
      (k in Reconciled(ds, reqs) <==> forall j :: 0 <= j < |ds| && ds[j].id == k ==> !Confirmed(ds[j], reqs))
    ensures forall k :: k in reqs && (forall j :: 0 <= j < |ds| ==> ds[j].id != k) ==> k in Reconciled(ds, reqs)
  {
  }

  /** Devices without a request are left untouched, and the pass changes
      nothing but the `connecting` hint. */
  lemma ReconcileLeavesOthers(ds: seq<Device>, reqs: Requests, i: nat)
    requires i < |ds|
    ensures ds[i].id !in reqs ==> MarkConnecting(ds, reqs)[i] == ds[i]
    ensures Observed(MarkConnecting(ds, reqs)[i]) == Observed(ds[i])
    ensures |MarkConnecting(ds, reqs)| == |ds|
  {
  }

  // ---------------------------------------------------------------------------
  // The provider
  // ---------------------------------------------------------------------------

  /** ToothFairyProvider's state. `timers` holds the armed timeouts: each
      handle maps to the device id its closure deletes. */
  class Provider {
    var devices: seq<Device>
    var requests: Requests
    var isLoading: bool
    var timers: map<nat, int>
    var nextTimer: nat

    /** Every pending request has its own timer still armed, so one will fire
        for it; handles are never reused. */
    ghost predicate Valid()
      reads this
    {
      && (forall id :: id in requests ==>
            requests[id].timeoutId in timers && timers[requests[id].timeoutId] == id)
      && (forall h :: h in timers ==> h < nextTimer)
    }

    constructor()
      ensures Valid()
      ensures devices == [] && requests == map[] && isLoading
      ensures timers == map[] && nextTimer == 0
    {
      devices := [];
      requests := map[];
      isLoading := true;
      timers := map[];
      nextTimer := 0;
    }

    /** `refresh`: replace the list by a fresh fetch and stop loading. When
        the fetch script throws, `refresh` rejects before either update, so
        the list and the loading flag stay as they were. */
    method Refresh(bridge: Bridge)
      requires Valid()
      modifies this
      ensures Valid()
      ensures bridge.running ==> devices == GetDevices(bridge.devices) && !isLoading
      ensures !bridge.running ==> devices == old(devices) && isLoading == old(isLoading)
      ensures requests == old(requests) && timers == old(timers) && nextTimer == old(nextTimer)
    {
      if bridge.running {
        devices := GetDevices(bridge.devices);
        isLoading := false;
      }
    }

    /** The pass each render makes over the devices: a device still in its
        pre-request state is marked connecting in place; a device whose state
        moved has its request deleted. Every check reads the table as the
        render saw it; the deletions land on the table afterwards. */
    method Reconcile()
      requires Valid()
      modifies this
      ensures Valid()
      ensures devices == MarkConnecting(old(devices), old(requests))
      ensures requests == Reconciled(old(devices), old(requests))
      ensures isLoading == old(isLoading) && timers == old(timers) && nextTimer == old(nextTimer)
    {
      var snapshot := requests;
      var i := 0;
      while i < |devices|
        invariant 0 <= i <= |devices| == |old(devices)|
        invariant snapshot == old(requests)
        invariant isLoading == old(isLoading) && timers == old(timers) && nextTimer == old(nextTimer)
        invariant forall j :: 0 <= j < i ==> devices[j] == MarkDevice(old(devices)[j], snapshot)
        invariant forall j :: i <= j < |devices| ==> devices[j] == old(devices)[j]
        invariant requests == snapshot - (set j | 0 <= j < i && Confirmed(old(devices)[j], snapshot) :: old(devices)[j].id)
      {
        var device := devices[i];
        if device.id in snapshot {
          if device.connected == snapshot[device.id].previous {
            devices := devices[i := device.(connecting := true)];
          } else {
            requests := Without(requests, device.id);
          }
        }
        assert (set j | 0 <= j < i + 1 && Confirmed(old(devices)[j], snapshot) :: old(devices)[j].id)
            == (set j | 0 <= j < i && Confirmed(old(devices)[j], snapshot) :: old(devices)[j].id)
               + (if Confirmed(old(devices)[i], snapshot) then {old(devices)[i].id} else {});
        i := i + 1;
      }
      assert devices == MarkConnecting(old(devices), snapshot);
    }

    /** `connect(id, connect)`: ask the bridge; only when it reports a change,
        record the pre-request state `!connect` under `id` (replacing any
        earlier request), arm that request's timer, and refresh. */
    method Connect(bridge: Bridge, id: int, connect: bool) returns (reply: SetReply)
      requires Valid()
      modifies this, bridge
      ensures Valid()
      ensures bridge.running == old(bridge.running)
      ensures reply == (if old(bridge.running) then Reply(old(bridge.devices), id, connect) else Threw)
      ensures bridge.devices == (if old(bridge.running) then AfterSet(old(bridge.devices), id, connect) else old(bridge.devices))
      ensures reply == Changed ==>
        && requests == WithRequest(old(requests), id, ConnectionRequest(old(nextTimer), !connect))
        && timers == old(timers)[old(nextTimer) := id] && nextTimer == old(nextTimer) + 1
        && devices == GetDevices(bridge.devices) && !isLoading
      ensures reply != Changed ==>
        && devices == old(devices) && requests == old(requests) && isLoading == old(isLoading)
        && timers == old(timers) && nextTimer == old(nextTimer)
    {
      reply := bridge.SetConnected(id, connect);
      if reply == Changed {
        var timeoutId := nextTimer;
        timers := timers[timeoutId := id];
        nextTimer := nextTimer + 1;
        requests := WithRequest(requests, id, ConnectionRequest(timeoutId, !connect));
        Refresh(bridge);
      }
    }

    /** A request's timer fires: its closure deletes whatever entry is then
        under its id, even a newer request's, or nothing if there is none. */
    method Timeout(timeoutId: nat)
      requires Valid() && timeoutId in timers
      modifies this
      ensures Valid()
      ensures requests == Without(old(requests), old(timers)[timeoutId])
      ensures timers == old(timers) - {timeoutId}
      ensures devices == old(devices) && isLoading == old(isLoading) && nextTimer == old(nextTimer)
    {
      var id := timers[timeoutId];
      timers := timers - {timeoutId};
      requests := Without(requests, id);
    }
  }

  // ---------------------------------------------------------------------------
  // Event sequences showing what the timer closure does
  // ---------------------------------------------------------------------------

  /** Connect a disconnected device; the next render sees it connected and
      deletes the request early; the user disconnects it again; then the first
      request's timer fires and deletes the second request. */
  method StaleTimeoutScenario(d: BridgeDevice) returns (pendingBefore: bool, pendingAfter: bool)
    requires !d.connected
    ensures pendingBefore && !pendingAfter
  {
    var bridge := new Bridge([d], true);
    var panel := new Provider();
    var reply := panel.Connect(bridge, d.id, true);
    assert reply == Changed && panel.devices[0].connected;
    assert d.id in ConfirmedIds(panel.devices, panel.requests);
    panel.Reconcile();
    reply := panel.Connect(bridge, d.id, false);
    pendingBefore := d.id in panel.requests;
    panel.Timeout(0);
    pendingAfter := d.id in panel.requests;
  }

  /** A request deleted early by the reconciliation pass still has its timer;
      when it fires it finds nothing under the id and changes nothing. */
  method EarlyConfirmedTimeoutScenario(d: BridgeDevice) returns (pending: nat, connecting: bool)
    requires !d.connected
    ensures pending == 0 && !connecting
  {
    var bridge := new Bridge([d], true);
    var panel := new Provider();
    var reply := panel.Connect(bridge, d.id, true);
    assert d.id in ConfirmedIds(panel.devices, panel.requests);
    panel.Reconcile();
    assert panel.requests == map[];
    panel.Timeout(0);
    pending := |panel.requests|;
    connecting := panel.devices[0].connecting;
  }
}
