/**
 * The database tables the routes read and write, as one object that every
 * handler receives (the routes receive it as `req.db`).
 *
 * `licenses`, `sync_transactions`, `cloud_backups` and `remote_activity_log`
 * are sequences of rows; `sync_devices` and `sync_state` are maps keyed by
 * their unique key (dealer_id, device_identifier). Instants are integers
 * counting seconds; NULL columns are `None`.
 */
module Store {
  import opened Common

  /** A row of `sync_transactions`. */
  datatype StoredTxn = StoredTxn(
    id: string,
    dealerId: string,
    deviceId: string,
    actionType: string,
    itemSku: Option<string>,
    itemName: Option<string>,
    quantityChange: int,
    oldValue: Option<string>,
    newValue: Option<string>,
    metadata: Option<string>,  // the JSON text, opaque to the engine
    transactionTime: int,
    syncedAt: int)

  /** The unique key of `sync_devices` and of `sync_state`. */
  datatype DeviceKey = DeviceKey(dealerId: string, deviceId: string)

  /** A row of `sync_devices` without its key. */
  datatype Device = Device(
    licenseId: nat,
    deviceName: Option<string>,
    lastSyncAt: int,
    lastIp: string,
    pendingTransactions: Option<int>,  // None: never reported, the column default
    status: string)

  /** A row of `sync_state` without its key. */
  datatype SyncState = SyncState(lastSentAt: Option<int>, lastReceivedAt: Option<int>)

  /**
   * A row of `licenses`. `isActive` is the TINYINT column as stored: the
   * sync gate compares it with 1, the license routes test its truthiness.
   */
  datatype License = License(
    id: nat,
    key: string,
    dealerId: string,
    isActive: int,
    macAddress: Option<string>,
    deviceName: Option<string>,
    activatedAt: Option<int>,
    expiresAt: Option<int>)

  /** A row of `cloud_backups`. */
  datatype Backup = Backup(id: nat, dealerId: string, data: string, sizeBytes: nat, createdAt: int)

  /** A row of `remote_activity_log`. */
  datatype LogEntry = LogEntry(dealerId: string, actionType: string, description: string, ip: string)

  /** The ids of a sequence of transaction rows. */
  function Ids(log: seq<StoredTxn>): set<string> {
    set r | r in log :: r.id
  }

  /** `id` is the primary key of `sync_transactions`. */
  predicate DistinctIds(log: seq<StoredTxn>) {
    forall i, j :: 0 <= i < j < |log| ==> log[i].id != log[j].id
  }

  /** `id` is the primary key of `licenses`. */
  predicate DistinctLicenseIds(licenses: seq<License>) {
    forall i, j :: 0 <= i < j < |licenses| ==> licenses[i].id != licenses[j].id
  }

  /** The value stored under `k`, or None when the key has no row. */
  function Lookup<K, V>(m: map<K, V>, k: K): (r: Option<V>)
    ensures r.Some? <==> k in m
    ensures r.Some? ==> r.value == m[k]
  {
    if k in m then Some(m[k]) else None
  }

  class Db {
    var licenses: seq<License>
    var nextLicenseId: nat  // AUTO_INCREMENT of licenses.id
    var transactions: seq<StoredTxn>
    var devices: map<DeviceKey, Device>
    var syncStates: map<DeviceKey, SyncState>
    var backups: seq<Backup>
    var nextBackupId: nat  // AUTO_INCREMENT of cloud_backups.id
    var activityLog: seq<LogEntry>

    /** A freshly created schema: every table empty, both AUTO_INCREMENT counters at 1. */
    constructor ()
      ensures Valid()
      ensures licenses == [] && transactions == [] && devices == map[] && syncStates == map[]
      ensures backups == [] && activityLog == [] && nextLicenseId == 1 && nextBackupId == 1
    {
      licenses, nextLicenseId := [], 1;
      transactions := [];
      devices, syncStates := map[], map[];
      backups, nextBackupId := [], 1;
      activityLog := [];
    }

    /** The primary keys: transaction ids and license ids are unique, license ids come from the counter, which starts at 1. */
    ghost predicate Valid()
      reads this`transactions, this`licenses, this`nextLicenseId
    {
      && DistinctIds(transactions)
      && 0 < nextLicenseId
      && (forall i :: 0 <= i < |licenses| ==> 0 < licenses[i].id < nextLicenseId)
      && DistinctLicenseIds(licenses)
    }
  }
}
