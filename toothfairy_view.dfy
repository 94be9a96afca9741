/** The device panel's presentation decisions (extensions/toothfairy/src/index.tsx):
    which section a device is listed in, which action it offers, and what its
    list item shows. */
module ToothFairyView {
  import opened Wrappers
  import opened Seqs
  import opened ToothFairyTypes
  import opened ToothFairyApi

  // ---------------------------------------------------------------------------
  // Command: the two sections
  // ---------------------------------------------------------------------------

  function IsConnected(d: Device): bool { d.connected }

  function IsDisconnected(d: Device): bool { !d.connected }

  /** The "Connected" section's devices. */
  function ConnectedSection(ds: seq<Device>): (r: seq<Device>)
    ensures forall i :: 0 <= i < |r| ==> r[i] in ds && r[i].connected
    ensures forall i :: 0 <= i < |ds| && ds[i].connected ==> ds[i] in r
  {
    Filter(ds, IsConnected)
  }

  /** The "Disconnected" section's devices. */
  function DisconnectedSection(ds: seq<Device>): (r: seq<Device>)
    ensures forall i :: 0 <= i < |r| ==> r[i] in ds && !r[i].connected
    ensures forall i :: 0 <= i < |ds| && !ds[i].connected ==> ds[i] in r
  {
    Filter(ds, IsDisconnected)
  }

  /** The sections split the list: each device is listed exactly once, and
      each section keeps the list's order. */
  lemma SectionsPartition(ds: seq<Device>)
    ensures multiset(ConnectedSection(ds)) + multiset(DisconnectedSection(ds)) == multiset(ds)
    ensures IsSubsequence(ConnectedSection(ds), ds) && IsSubsequence(DisconnectedSection(ds), ds)
  {
    FilterComplement(ds, IsConnected, IsDisconnected);
    FilterIsSubsequence(ds, IsConnected);
    FilterIsSubsequence(ds, IsDisconnected);
  }

  // ---------------------------------------------------------------------------
  // ConnectionActions
  // ---------------------------------------------------------------------------

  /** An action that calls `connect(id, connect)` on the provider. */
  datatype ConnectionAction = ConnectionAction(title: string, id: int, connect: bool)

  /** The action a device offers: none while it is connecting, otherwise the
      one that asks for the opposite of its current state. */
  function ConnectionActions(d: Device): (r: Option<ConnectionAction>)
    ensures r.None? <==> d.connecting
    ensures r.Some? ==> r.value.id == d.id && r.value.connect == !d.connected
    ensures r.Some? ==> r.value.title == (if r.value.connect then "Connect" else "Disconnect")
  {
    if !d.connecting then
      if d.connected then Some(ConnectionAction("Disconnect", d.id, false))
      else Some(ConnectionAction("Connect", d.id, true))
    else None
  }

  /** Taking the offered action on a bridge that still shows the device as
      listed is never a no-op: the bridge reports a change, and the request the
      provider then records holds the device's listed state as `previous`. */
  lemma OfferedActionChangesState(d: Device, app: seq<BridgeDevice>)
    requires ConnectionActions(d).Some?
    requires IndexOfId(app, d.id).Some? && app[IndexOfId(app, d.id).value].connected == d.connected
    ensures var a := ConnectionActions(d).value;
      Reply(app, a.id, a.connect) == Changed && !a.connect == d.connected
  {
  }

  /** After a fetch and the next render's reconciliation pass, a device offers
      no action exactly when it has a pending request and still shows the
      state recorded before it. */
  lemma NoActionMeansWaiting(app: seq<BridgeDevice>, reqs: Requests, i: nat)
    requires i < |app|
    ensures |MarkConnecting(GetDevices(app), reqs)| == |app|
    ensures ConnectionActions(MarkConnecting(GetDevices(app), reqs)[i]).None?
            <==> app[i].id in reqs && app[i].connected == reqs[app[i].id].previous
  {
    assert Observed(GetDevices(app)[i]) == app[i];
  }

  // ---------------------------------------------------------------------------
  // DeviceItem
  // ---------------------------------------------------------------------------

  /** An item's icon: `""`, `Icon.TwoArrowsClockwise`, or a decoded PNG. */
  datatype IconSource = NoIcon | TwoArrowsClockwise | Png(base64: string)

  /** What the foreign decoder did with a hex payload: the promise rejected,
      or it produced a base64 string (possibly empty). */
  datatype Decoding = Rejected | Decoded(base64: string)

  datatype Accessory = Accessory(text: string)

  datatype DeviceListItem = DeviceListItem(
    icon: IconSource,
    title: string,
    accessories: seq<Accessory>,
    action: Option<ConnectionAction>)

  /** The hex image inside `iconData`: `iconData.slice(8, -2)`, that is, the
      string without its first 8 and last 2 characters, empty when it is
      shorter than 10. */
  function HexPayload(iconData: string): (r: string)
    ensures |iconData| >= 10 ==> iconData == iconData[..8] + r + iconData[|iconData| - 2..]
    ensures |iconData| < 10 ==> r == []
  {
    Slice(iconData, 8, -2)
  }

  /** The `iconData` state after the item's effect ran for `iconData`: empty
      without decoding when the device has no image; otherwise what `decode`
      makes of the hex payload, an empty result becoming the spinner icon; a
      rejected decode leaves the state as it was. */
  function IconAfterEffect(iconData: Option<string>, decode: string -> Decoding, prior: IconSource): (r: IconSource)
    ensures iconData.None? ==> r == NoIcon
    ensures iconData.Some? && decode(HexPayload(iconData.value)).Rejected? ==> r == prior
    ensures iconData.Some? && decode(HexPayload(iconData.value)).Decoded? ==>
      var s := decode(HexPayload(iconData.value)).base64;
      r == (if s == [] then TwoArrowsClockwise else Png(s))
  {
    match iconData
    case None => NoIcon
    case Some(hex) =>
      match decode(HexPayload(hex))
      case Rejected => prior
      case Decoded(image) => if image == [] then TwoArrowsClockwise else Png(image)
  }

  /** The list item for a device, given the item's current `iconData` state.
      Its accessories start empty and get the battery text pushed when the
      device reports a battery level. */
  method DeviceItem(d: Device, iconData: IconSource) returns (item: DeviceListItem)
    ensures item.title == d.name && item.action == ConnectionActions(d)
    ensures item.icon == (if d.connecting then TwoArrowsClockwise else iconData)
    ensures |item.accessories| <= 1
    ensures item.accessories != [] <==> d.batteryLevel.Some?
    ensures forall a :: a in item.accessories ==> a.text == d.batteryLevelString
  {
    var accessories: seq<Accessory> := [];
    if d.batteryLevel.Some? {
      accessories := accessories + [Accessory(d.batteryLevelString)];
    }
    var icon := if d.connecting then TwoArrowsClockwise else iconData;
    item := DeviceListItem(icon, d.name, accessories, ConnectionActions(d));
  }
}
