/**
 * Device presence in routes/sync.js: the `sync_devices` and `sync_state`
 * upserts that push, pull and heartbeat perform, and the status the device
 * list derives from the minutes since a device's last contact.
 */
module Presence {
  import opened Common
  import opened Store

  const ONLINE_MINUTES := 10
  const IDLE_MINUTES := 60

  datatype Status = Online | Idle | Offline

  /** The device-list classification; `None` is a NULL minutes_since_sync. */
  function Classify(minutesSinceSync: Option<int>): (s: Status)
    ensures s == Online <==> minutesSinceSync.Some? && minutesSinceSync.value < ONLINE_MINUTES
    ensures s == Idle <==> minutesSinceSync.Some? && ONLINE_MINUTES <= minutesSinceSync.value < IDLE_MINUTES
    ensures s == Offline <==> minutesSinceSync.None? || minutesSinceSync.value >= IDLE_MINUTES
  {
    if minutesSinceSync.None? then Offline
    else if minutesSinceSync.value < ONLINE_MINUTES then Online
    else if minutesSinceSync.value < IDLE_MINUTES then Idle
    else Offline
  }

  /** How far a status is from online. */
  function Distance(s: Status): nat {
    match s
    case Online => 0
    case Idle => 1
    case Offline => 2
  }

  /** As the minutes since the last contact grow, the status never moves back toward online. */
  lemma ClassifyMonotonic(m: int, m': int)
    requires m <= m'
    ensures Distance(Classify(Some(m))) <= Distance(Classify(Some(m')))
  {
  }

  /** `TIMESTAMPDIFF(MINUTE, from, to)`: whole minutes between two instants, truncated toward zero. */
  function MinutesBetween(from: int, to: int): (m: int)
    ensures to - from >= 0 ==> m >= 0 && m * 60 <= to - from < (m + 1) * 60
    ensures to - from < 0 ==> m <= 0 && (m - 1) * 60 < to - from <= m * 60
  {
    var seconds := to - from;
    if seconds >= 0 then seconds / 60 else -((-seconds) / 60)
  }

  /** The status the device list shows for a stored device at `now`. */
  function DeviceStatus(d: Device, now: int): Status {
    Classify(Some(MinutesBetween(d.lastSyncAt, now)))
  }

  /** A device last seen at t reads online until t + 10 min, idle until t + 60 min, and offline after. */
  lemma StatusOverTime(d: Device, now: int)
    requires d.lastSyncAt <= now
    ensures now < d.lastSyncAt + ONLINE_MINUTES * 60 ==> DeviceStatus(d, now) == Online
    ensures d.lastSyncAt + ONLINE_MINUTES * 60 <= now < d.lastSyncAt + IDLE_MINUTES * 60 ==> DeviceStatus(d, now) == Idle
    ensures d.lastSyncAt + IDLE_MINUTES * 60 <= now ==> DeviceStatus(d, now) == Offline
  {
    var m := MinutesBetween(d.lastSyncAt, now);
    assert m * 60 <= now - d.lastSyncAt < (m + 1) * 60;
  }

  // ---------------------------------------------------------------------------
  // sync_devices upserts
  // ---------------------------------------------------------------------------

  /**
   * The device row after a push (`INSERT ... ON DUPLICATE KEY UPDATE
   * last_sync_at, last_ip, status`): a new row carries the license, no name
   * and the default pending count; an existing row keeps its license, name
   * and pending count.
   */
  function TouchOnPush(existing: Option<Device>, licenseId: nat, ip: string, now: int): (d: Device)
    ensures d.lastSyncAt == now && d.lastIp == ip && d.status == "online"
    ensures existing.None? ==> d.licenseId == licenseId && d.deviceName.None? && d.pendingTransactions.None?
    ensures existing.Some? ==>
      && d.licenseId == existing.value.licenseId
      && d.deviceName == existing.value.deviceName
      && d.pendingTransactions == existing.value.pendingTransactions
  {
    match existing
    case None => Device(licenseId, None, now, ip, None, "online")
    case Some(prior) => prior.(lastSyncAt := now, lastIp := ip, status := "online")
  }

  /**
   * The device row after a heartbeat: `COALESCE(name, device_name)` keeps
   * the stored name only when the incoming name is NULL, and the pending
   * count is overwritten with `pending_count || 0`. An existing row keeps
   * its license.
   */
  function TouchOnHeartbeat(
    existing: Option<Device>, licenseId: nat, name: Option<string>, ip: string, pending: Option<int>, now: int)
    : (d: Device)
    ensures d.lastSyncAt == now && d.lastIp == ip && d.status == "online"
    ensures d.pendingTransactions == Some(pending.GetOr(0))
    ensures name.Some? ==> d.deviceName == name
    ensures name.None? ==> d.deviceName == (if existing.Some? then existing.value.deviceName else None)
    ensures d.licenseId == (if existing.Some? then existing.value.licenseId else licenseId)
  {
    var count := if TruthyNum(pending) then pending.value else 0;
    match existing
    case None => Device(licenseId, name, now, ip, Some(count), "online")
    case Some(prior) =>
      prior.(deviceName := if name.Some? then name else prior.deviceName,
           lastSyncAt := now, lastIp := ip, pendingTransactions := Some(count), status := "online")
  }

  /** A retried heartbeat (same request, same instant) changes nothing more. */
  lemma HeartbeatIsIdempotent(
    existing: Option<Device>, licenseId: nat, name: Option<string>, ip: string, pending: Option<int>, now: int)
    ensures var once := TouchOnHeartbeat(existing, licenseId, name, ip, pending, now);
      TouchOnHeartbeat(Some(once), licenseId, name, ip, pending, now) == once
  {
  }

  /**
   * A known name survives every later contact that brings no name: any
   * number of pushes and NULL-name heartbeats.
   */
  lemma {:induction false} NullNameKeepsName(d: Device, contacts: seq<Contact>)
    requires forall k :: 0 <= k < |contacts| ==> contacts[k].Name().None?
    ensures Replay(d, contacts).deviceName == d.deviceName
    ensures Replay(d, contacts).licenseId == d.licenseId
    decreases |contacts|
  {
    if contacts != [] {
      NullNameKeepsName(Touch(d, contacts[0]), contacts[1..]);
    }
  }

  /** COALESCE treats only NULL as missing: an empty name replaces a known one. */
  lemma EmptyNameOverwrites(d: Device, licenseId: nat, ip: string, pending: Option<int>, now: int)
    requires Truthy(d.deviceName)
    ensures TouchOnHeartbeat(Some(d), licenseId, Some(""), ip, pending, now).deviceName == Some("")
  {
  }

  /** One contact with an existing device: a push (no name) or a heartbeat. */
  datatype Contact =
    | PushContact(licenseId: nat, ip: string, now: int)
    | HeartbeatContact(licenseId: nat, name: Option<string>, ip: string, pending: Option<int>, now: int)
  {
    function Name(): Option<string> {
      if HeartbeatContact? then name else None
    }
  }

  function Touch(d: Device, c: Contact): Device {
    match c
    case PushContact(licenseId, ip, now) => TouchOnPush(Some(d), licenseId, ip, now)
    case HeartbeatContact(licenseId, name, ip, pending, now) => TouchOnHeartbeat(Some(d), licenseId, name, ip, pending, now)
  }

  function Replay(d: Device, contacts: seq<Contact>): Device
    decreases |contacts|
  {
    if contacts == [] then d else Replay(Touch(d, contacts[0]), contacts[1..])
  }

  /** Every contact leaves the device online for the next ten minutes. */
  lemma ContactMakesOnline(d: Device, c: Contact, later: int)
    requires c.now <= later < c.now + ONLINE_MINUTES * 60
    ensures DeviceStatus(Touch(d, c), later) == Online
  {
    StatusOverTime(Touch(d, c), later);
  }

  // ---------------------------------------------------------------------------
  // sync_state upserts
  // ---------------------------------------------------------------------------

  /** `last_sent_at = NOW()` on push; a new row has no receive time. */
  function MarkSent(existing: Option<SyncState>, now: int): (s: SyncState)
    ensures s.lastSentAt == Some(now)
    ensures s.lastReceivedAt == (if existing.Some? then existing.value.lastReceivedAt else None)
  {
    match existing
    case None => SyncState(Some(now), None)
    case Some(prior) => prior.(lastSentAt := Some(now))
  }

  /** `last_received_at = NOW()` on a non-empty pull; a new row has no send time. */
  function MarkReceived(existing: Option<SyncState>, now: int): (s: SyncState)
    ensures s.lastReceivedAt == Some(now)
    ensures s.lastSentAt == (if existing.Some? then existing.value.lastSentAt else None)
  {
    match existing
    case None => SyncState(None, Some(now))
    case Some(prior) => prior.(lastReceivedAt := Some(now))
  }
}
