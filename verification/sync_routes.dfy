/**
 * The license-gated device routes of routes/sync.js: the `requireLicense`
 * gate and the push, pull, heartbeat and backup-upload handlers, each a
 * module-level method that takes the database object `db` and modifies it. Every handler runs the gate first; a
 * request the gate refuses, or one without a device identifier (or, for a
 * push, without a transactions array), changes nothing.
 */
module SyncRoutes {
  import opened Common
  import opened Store
  import opened TxnLog
  import opened Presence
  import Licensing

  /** License key and dealer id as the request carries them, in the body and in the headers. */
  datatype Credentials = Credentials(
    bodyKey: Option<string>,
    headerKey: Option<string>,
    bodyDealer: Option<string>,
    headerDealer: Option<string>)
  {
    /** `req.body.license_key || req.headers['x-license-key']` */
    function Key(): Option<string> {
      Either(bodyKey, headerKey)
    }

    /** `req.body.dealer_id || req.headers['x-dealer-id']` */
    function Dealer(): Option<string> {
      Either(bodyDealer, headerDealer)
    }
  }

  /** What the gate hands to a handler: the dealer it authorised and the license row (`req.license`). */
  datatype Grant = Grant(dealerId: string, license: License)

  /** 401: key or dealer missing; 403: no active license matches both. */
  datatype Denial = MissingCredentials | InvalidLicense

  datatype SyncError = Denied(reason: Denial) | BadRequest

  /** The WHERE clause of the gate's query. */
  predicate Authorizes(l: License, key: string, dealerId: string) {
    l.key == key && l.dealerId == dealerId && l.isActive == 1
  }

  /** `rows[0]` of the gate's query. */
  function FirstAuthorizing(licenses: seq<License>, key: string, dealerId: string): (r: Option<License>)
    ensures r.Some? <==> exists l :: l in licenses && Authorizes(l, key, dealerId)
    ensures r.Some? ==> r.value in licenses && Authorizes(r.value, key, dealerId)
  {
    if licenses == [] then None
    else
      assert forall l :: l in licenses <==> l == licenses[0] || l in licenses[1..] by {
        assert licenses == [licenses[0]] + licenses[1..];
      }
      if Authorizes(licenses[0], key, dealerId) then Some(licenses[0])
      else FirstAuthorizing(licenses[1..], key, dealerId)
  }

  /**
   * `requireLicense`: a request passes only with a truthy key and dealer id
   * (body first, then headers) that an active license row carries both of;
   * the dealer it passes with is the one every handler scopes its reads and
   * writes to.
   */
  function RequireLicense(licenses: seq<License>, creds: Credentials): (r: Result<Grant, Denial>)
    ensures r == Err(MissingCredentials) <==> !Truthy(creds.Key()) || !Truthy(creds.Dealer())
    ensures r.Ok? <==>
      && Truthy(creds.Key()) && Truthy(creds.Dealer())
      && exists l :: l in licenses && Authorizes(l, creds.Key().value, creds.Dealer().value)
    ensures r.Ok? ==>
      && r.value.dealerId == creds.Dealer().value
      && r.value.license in licenses
      && Authorizes(r.value.license, creds.Key().value, r.value.dealerId)
  {
    var key, dealer := creds.Key(), creds.Dealer();
    if !Truthy(key) || !Truthy(dealer) then Err(MissingCredentials)
    else
      match FirstAuthorizing(licenses, key.value, dealer.value)
      case None => Err(InvalidLicense)
      case Some(l) => Ok(Grant(dealer.value, l))
  }

  /** A license the gate accepts is listed as 'active' by the license list. */
  lemma GateLicenseIsListedActive(licenses: seq<License>, creds: Credentials)
    requires RequireLicense(licenses, creds).Ok?
    ensures Licensing.ListStatus(RequireLicense(licenses, creds).value.license) == "active"
  {
  }

  // ---------------------------------------------------------------------------
  // Push
  // ---------------------------------------------------------------------------

  datatype PushReport = PushReport(inserted: nat, skipped: nat, timestamp: int)

  /** The description of the SYNC_PUSH activity entry. */
  function PushSummary(deviceId: string, inserted: nat, skipped: nat): (text: string)
    ensures |text| > 8 + |deviceId| + |NatToString(skipped)|
    ensures text[..8 + |deviceId|] == "Device: " + deviceId
    ensures text[|text| - |NatToString(skipped)|..] == NatToString(skipped)
  {
    "Device: " + deviceId + ", Inserted: " + NatToString(inserted) + ", Skipped: " + NatToString(skipped)
  }

  /**
   * The push loop: each candidate whose id is already stored is skipped,
   * every other one is inserted under the authorised dealer and the
   * requesting device.
   */
  method InsertBatch(db: Db, txns: seq<Candidate>, dealerId: string, deviceId: string, now: int)
    returns (inserted: nat, skipped: nat)
    requires DistinctIds(db.transactions)
    modifies db`transactions
    ensures db.transactions == ApplyBatch(old(db.transactions), txns, dealerId, deviceId, now)
    ensures DistinctIds(db.transactions)
    ensures inserted == |NewIds(old(db.transactions), txns)|
    ensures inserted + skipped == |txns|
  {
    inserted, skipped := 0, 0;
    for i := 0 to |txns|
      invariant ApplyBatch(db.transactions, txns[i..], dealerId, deviceId, now)
             == ApplyBatch(old(db.transactions), txns, dealerId, deviceId, now)
      invariant inserted + skipped == i
      invariant |db.transactions| == |old(db.transactions)| + inserted
    {
      assert txns[i..] == [txns[i]] + txns[i + 1..];
      var txn := txns[i];
      if txn.id in Ids(db.transactions) {
        skipped := skipped + 1;
        continue;
      }
      db.transactions := db.transactions + [RowOf(txn, dealerId, deviceId, now)];
      inserted := inserted + 1;
    }
    assert txns[|txns|..] == [];
    ApplyBatchCount(old(db.transactions), txns, dealerId, deviceId, now);
    ApplyBatchDistinct(old(db.transactions), txns, dealerId, deviceId, now);
  }

  /**
   * The writes after the push loop: `last_sent_at`, the device row, and the
   * SYNC_PUSH activity entry.
   */
  method RecordPush(db: Db, key: DeviceKey, licenseId: nat, inserted: nat, skipped: nat, ip: string, now: int)
    modifies db`syncStates, db`devices, db`activityLog
    ensures db.syncStates == old(db.syncStates)[key := MarkSent(Lookup(old(db.syncStates), key), now)]
    ensures db.devices == old(db.devices)[key := TouchOnPush(Lookup(old(db.devices), key), licenseId, ip, now)]
    ensures db.activityLog == old(db.activityLog) +
      [LogEntry(key.dealerId, "SYNC_PUSH", PushSummary(key.deviceId, inserted, skipped), ip)]
  {
    db.syncStates := db.syncStates[key := MarkSent(Lookup(db.syncStates, key), now)];
    db.devices := db.devices[key := TouchOnPush(Lookup(db.devices, key), licenseId, ip, now)];
    db.activityLog := db.activityLog + [LogEntry(key.dealerId, "SYNC_PUSH", PushSummary(key.deviceId, inserted, skipped), ip)];
  }

  /** The push once the gate and the request checks have passed: the loop, then the bookkeeping writes. */
  method PushAccepted(db: Db, grant: Grant, deviceId: string, txns: seq<Candidate>, ip: string, now: int)
    returns (report: PushReport)
    requires DistinctIds(db.transactions)
    modifies db`transactions, db`syncStates, db`devices, db`activityLog
    ensures DistinctIds(db.transactions)
    ensures db.transactions == ApplyBatch(old(db.transactions), txns, grant.dealerId, deviceId, now)
    ensures report.inserted == |NewIds(old(db.transactions), txns)|
    ensures report.inserted + report.skipped == |txns|
    ensures report.timestamp == now
    ensures var key := DeviceKey(grant.dealerId, deviceId);
      && db.syncStates == old(db.syncStates)[key := MarkSent(Lookup(old(db.syncStates), key), now)]
      && db.devices == old(db.devices)[key := TouchOnPush(Lookup(old(db.devices), key), grant.license.id, ip, now)]
      && db.activityLog == old(db.activityLog) +
           [LogEntry(grant.dealerId, "SYNC_PUSH", PushSummary(deviceId, report.inserted, report.skipped), ip)]
  {
    var inserted, skipped := InsertBatch(db, txns, grant.dealerId, deviceId, now);
    RecordPush(db, DeviceKey(grant.dealerId, deviceId), grant.license.id, inserted, skipped, ip, now);
    report := PushReport(inserted, skipped, now);
  }

  /**
   * POST /transactions/push: appends the batch through the idempotent
   * check-then-insert loop, counts inserted and skipped candidates, then
   * upserts the sync_state and sync_devices rows of (dealer, device) and
   * logs one SYNC_PUSH entry.
   */
  method Push(db: Db, creds: Credentials, deviceId: Option<string>, batch: Option<seq<Candidate>>, ip: string, now: int)
    returns (r: Result<PushReport, SyncError>)
    requires db.Valid()
    modifies db
    ensures db.Valid()
    ensures var gate := RequireLicense(old(db.licenses), creds);
      gate.Err? ==> r == Err(Denied(gate.error)) && unchanged(db)
    ensures var gate := RequireLicense(old(db.licenses), creds);
      gate.Ok? && (!Truthy(deviceId) || batch.None?) ==> r == Err(BadRequest) && unchanged(db)
    ensures var gate := RequireLicense(old(db.licenses), creds);
      gate.Ok? && Truthy(deviceId) && batch.Some? ==>
        var dealerId := gate.value.dealerId;
        && r.Ok?
        && db.transactions == ApplyBatch(old(db.transactions), batch.value, dealerId, deviceId.value, now)
        && r.value.inserted == |NewIds(old(db.transactions), batch.value)|
        && r.value.inserted + r.value.skipped == |batch.value|
        && r.value.timestamp == now
    ensures var gate := RequireLicense(old(db.licenses), creds);
      gate.Ok? && Truthy(deviceId) && batch.Some? && r.Ok? ==>
        var dealerId := gate.value.dealerId;
        var key := DeviceKey(dealerId, deviceId.value);
        && db.syncStates == old(db.syncStates)[key := MarkSent(Lookup(old(db.syncStates), key), now)]
        && db.devices == old(db.devices)[key := TouchOnPush(Lookup(old(db.devices), key), gate.value.license.id, ip, now)]
        && db.activityLog == old(db.activityLog) +
             [LogEntry(dealerId, "SYNC_PUSH", PushSummary(deviceId.value, r.value.inserted, r.value.skipped), ip)]
        && unchanged(db`licenses, db`nextLicenseId, db`backups, db`nextBackupId)
  {
    var gate := RequireLicense(db.licenses, creds);
    if gate.Err? {
      return Err(Denied(gate.error));
    }
    if !Truthy(deviceId) || batch.None? {
      return Err(BadRequest);
    }
    var report := PushAccepted(db, gate.value, deviceId.value, batch.value, ip, now);
    r := Ok(report);
  }

  // ---------------------------------------------------------------------------
  // Pull
  // ---------------------------------------------------------------------------

  datatype PullReport = PullReport(transactions: seq<PulledTxn>, count: nat, timestamp: int)

  /**
   * POST /transactions/pull: returns the page of the dealer's rows from
   * other devices past the cursor, and records `last_received_at` only
   * when the page is not empty. It never writes a transaction.
   */
  method Pull(db: Db, creds: Credentials, deviceId: Option<string>, since: Option<int>, now: int)
    returns (r: Result<PullReport, SyncError>)
    requires db.Valid()
    modifies db
    ensures db.Valid()
    ensures var gate := RequireLicense(old(db.licenses), creds);
      gate.Err? ==> r == Err(Denied(gate.error)) && unchanged(db)
    ensures var gate := RequireLicense(old(db.licenses), creds);
      gate.Ok? && !Truthy(deviceId) ==> r == Err(BadRequest) && unchanged(db)
    ensures var gate := RequireLicense(old(db.licenses), creds);
      gate.Ok? && Truthy(deviceId) ==>
        var dealerId := gate.value.dealerId;
        var key := DeviceKey(dealerId, deviceId.value);
        var page := PullPage(old(db.transactions), dealerId, deviceId.value, since);
        && r == Ok(PullReport(Views(page), |page|, now))
        && db.syncStates ==
             (if |page| > 0 then old(db.syncStates)[key := MarkReceived(Lookup(old(db.syncStates), key), now)]
              else old(db.syncStates))
    ensures unchanged(db`transactions, db`devices, db`licenses, db`nextLicenseId, db`backups, db`nextBackupId, db`activityLog)
  {
    var gate := RequireLicense(db.licenses, creds);
    if gate.Err? {
      return Err(Denied(gate.error));
    }
    if !Truthy(deviceId) {
      return Err(BadRequest);
    }
    var dealerId, device := gate.value.dealerId, deviceId.value;
    var page := PullPage(db.transactions, dealerId, device, since);
    if |page| > 0 {
      var key := DeviceKey(dealerId, device);
      db.syncStates := db.syncStates[key := MarkReceived(Lookup(db.syncStates, key), now)];
    }
    r := Ok(PullReport(Views(page), |page|, now));
  }

  // ---------------------------------------------------------------------------
  // Heartbeat
  // ---------------------------------------------------------------------------

  /**
   * POST /devices/heartbeat: upserts the device row only. The answer is the
   * server time.
   */
  method Heartbeat(
    db: Db, creds: Credentials, deviceId: Option<string>, name: Option<string>, pending: Option<int>,
    ip: string, now: int)
    returns (r: Result<int, SyncError>)
    requires db.Valid()
    modifies db
    ensures db.Valid()
    ensures var gate := RequireLicense(old(db.licenses), creds);
      gate.Err? ==> r == Err(Denied(gate.error)) && unchanged(db)
    ensures var gate := RequireLicense(old(db.licenses), creds);
      gate.Ok? && !Truthy(deviceId) ==> r == Err(BadRequest) && unchanged(db)
    ensures var gate := RequireLicense(old(db.licenses), creds);
      gate.Ok? && Truthy(deviceId) ==>
        var key := DeviceKey(gate.value.dealerId, deviceId.value);
        && r == Ok(now)
        && db.devices == old(db.devices)[key :=
             TouchOnHeartbeat(Lookup(old(db.devices), key), gate.value.license.id, name, ip, pending, now)]
    ensures unchanged(db`transactions, db`syncStates, db`licenses, db`nextLicenseId, db`backups, db`nextBackupId, db`activityLog)
  {
    var gate := RequireLicense(db.licenses, creds);
    if gate.Err? {
      return Err(Denied(gate.error));
    }
    if !Truthy(deviceId) {
      return Err(BadRequest);
    }
    var key := DeviceKey(gate.value.dealerId, deviceId.value);
    db.devices := db.devices[key := TouchOnHeartbeat(Lookup(db.devices, key), gate.value.license.id, name, ip, pending, now)];
    r := Ok(now);
  }

  // ---------------------------------------------------------------------------
  // Backup upload
  // ---------------------------------------------------------------------------

  /** The backups of one dealer, in table order. */
  function BackupsOf(backups: seq<Backup>, dealerId: string): (r: seq<Backup>)
    ensures forall b :: b in r <==> b in backups && b.dealerId == dealerId
  {
    if backups == [] then []
    else
      assert forall b :: b in backups <==> b == backups[0] || b in backups[1..] by {
        assert backups == [backups[0]] + backups[1..];
      }
      (if backups[0].dealerId == dealerId then [backups[0]] else []) + BackupsOf(backups[1..], dealerId)
  }

  /** `DELETE FROM cloud_backups WHERE dealer_id = ?` */
  function DeleteBackupsOf(backups: seq<Backup>, dealerId: string): (r: seq<Backup>)
    ensures forall b :: b in r <==> b in backups && b.dealerId != dealerId
  {
    if backups == [] then []
    else
      assert forall b :: b in backups <==> b == backups[0] || b in backups[1..] by {
        assert backups == [backups[0]] + backups[1..];
      }
      (if backups[0].dealerId != dealerId then [backups[0]] else []) + DeleteBackupsOf(backups[1..], dealerId)
  }

  lemma {:induction false} BackupsOfAppend(a: seq<Backup>, b: seq<Backup>, dealerId: string)
    ensures BackupsOf(a + b, dealerId) == BackupsOf(a, dealerId) + BackupsOf(b, dealerId)
  {
    if a != [] {
      assert (a + b)[1..] == a[1..] + b;
      BackupsOfAppend(a[1..], b, dealerId);
    } else {
      assert a + b == b;
    }
  }

  lemma {:induction false} DeleteBackupsOfEffect(backups: seq<Backup>, dealerId: string, other: string)
    ensures BackupsOf(DeleteBackupsOf(backups, dealerId), dealerId) == []
    ensures other != dealerId ==> BackupsOf(DeleteBackupsOf(backups, dealerId), other) == BackupsOf(backups, other)
  {
    if backups != [] {
      var head := if backups[0].dealerId != dealerId then [backups[0]] else [];
      DeleteBackupsOfEffect(backups[1..], dealerId, other);
      BackupsOfAppend(head, DeleteBackupsOf(backups[1..], dealerId), dealerId);
      BackupsOfAppend(head, DeleteBackupsOf(backups[1..], dealerId), other);
      assert head == [] || head[1..] == [];
    }
  }

  /**
   * Delete-then-insert keeps only the latest backup of the uploading dealer
   * and leaves every other dealer's backups as they were.
   */
  lemma ReplaceKeepsLatestOnly(backups: seq<Backup>, b: Backup, other: string)
    ensures BackupsOf(DeleteBackupsOf(backups, b.dealerId) + [b], b.dealerId) == [b]
    ensures other != b.dealerId ==>
      BackupsOf(DeleteBackupsOf(backups, b.dealerId) + [b], other) == BackupsOf(backups, other)
  {
    DeleteBackupsOfEffect(backups, b.dealerId, other);
    BackupsOfAppend(DeleteBackupsOf(backups, b.dealerId), [b], b.dealerId);
    BackupsOfAppend(DeleteBackupsOf(backups, b.dealerId), [b], other);
    assert [b][1..] == [];
  }

  /**
   * POST /backup: with a truthy backup_data, replaces the dealer's backups
   * by one new row and logs a BACKUP_UPLOAD entry; answers the new row's
   * id. `sizeBytes` is the UTF-8 length of the data and `sizeText` its
   * size in kilobytes as the description prints it.
   */
  method UploadBackup(
    db: Db, creds: Credentials, data: Option<string>, sizeBytes: nat, sizeText: string, ip: string, now: int)
    returns (r: Result<nat, SyncError>)
    requires db.Valid()
    modifies db
    ensures db.Valid()
    ensures var gate := RequireLicense(old(db.licenses), creds);
      gate.Err? ==> r == Err(Denied(gate.error)) && unchanged(db)
    ensures var gate := RequireLicense(old(db.licenses), creds);
      gate.Ok? && !Truthy(data) ==> r == Err(BadRequest) && unchanged(db)
    ensures var gate := RequireLicense(old(db.licenses), creds);
      gate.Ok? && Truthy(data) ==>
        var dealerId := gate.value.dealerId;
        var b := Backup(old(db.nextBackupId), dealerId, data.value, sizeBytes, now);
        && r == Ok(b.id)
        && db.backups == DeleteBackupsOf(old(db.backups), dealerId) + [b]
        && db.nextBackupId == old(db.nextBackupId) + 1
        && db.activityLog == old(db.activityLog) + [LogEntry(dealerId, "BACKUP_UPLOAD", "Boyut: " + sizeText + " KB", ip)]
    ensures unchanged(db`transactions, db`devices, db`syncStates, db`licenses, db`nextLicenseId)
  {
    var gate := RequireLicense(db.licenses, creds);
    if gate.Err? {
      return Err(Denied(gate.error));
    }
    if !Truthy(data) {
      return Err(BadRequest);
    }
    var dealerId := gate.value.dealerId;
    db.backups := DeleteBackupsOf(db.backups, dealerId);
    var b := Backup(db.nextBackupId, dealerId, data.value, sizeBytes, now);
    db.backups := db.backups + [b];
    db.nextBackupId := db.nextBackupId + 1;
    db.activityLog := db.activityLog + [LogEntry(dealerId, "BACKUP_UPLOAD", "Boyut: " + sizeText + " KB", ip)];
    r := Ok(b.id);
  }
}
