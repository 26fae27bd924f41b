/**
 * The license routes of routes/license.js: key generation, the expiry
 * extension, the ordered validation chain, the one-way binding of a
 * license to a MAC address, and the status the license list shows.
 */
module Licensing {
  import opened Common
  import opened Store

  // ---------------------------------------------------------------------------
  // Key generation
  // ---------------------------------------------------------------------------

  const ALPHABET := "ABCDEFGHIJKLMNOPQRSTUVWXYZ0123456789"
  const SEGMENTS := 4
  const SEGMENT_LENGTH := 4

  /**
   * The random draws of one generation: `Math.floor(Math.random() * 36)`
   * sixteen times, in the order the loops take them.
   */
  predicate ValidPicks(picks: seq<nat>) {
    |picks| == SEGMENTS * SEGMENT_LENGTH && forall k :: 0 <= k < |picks| ==> picks[k] < |ALPHABET|
  }

  /** The i-th segment: four characters picked from the alphabet. */
  function Segment(picks: seq<nat>, i: nat): (s: string)
    requires ValidPicks(picks) && i < SEGMENTS
    ensures |s| == SEGMENT_LENGTH
    ensures forall j :: 0 <= j < SEGMENT_LENGTH ==> s[j] == ALPHABET[picks[SEGMENT_LENGTH * i + j]]
    ensures IsSegment(s)
  {
    seq(SEGMENT_LENGTH, j requires 0 <= j < SEGMENT_LENGTH => ALPHABET[picks[SEGMENT_LENGTH * i + j]])
  }

  /** XXXX-YYYY-ZZZZ-WWWW: each of the first three segments is followed by '-'. */
  function KeyOf(picks: seq<nat>): string
    requires ValidPicks(picks)
  {
    (Segment(picks, 0) + "-") + (Segment(picks, 1) + "-") + (Segment(picks, 2) + "-") + Segment(picks, 3)
  }

  predicate IsSegment(s: string) {
    |s| == SEGMENT_LENGTH && forall k :: 0 <= k < |s| ==> s[k] in ALPHABET
  }

  /** Four alphabet segments of four characters, joined by '-': 19 characters. */
  predicate IsLicenseKey(key: string) {
    && |key| == 19
    && key[4] == '-' && key[9] == '-' && key[14] == '-'
    && IsSegment(key[0..4]) && IsSegment(key[5..9]) && IsSegment(key[10..14]) && IsSegment(key[15..19])
  }

  /** Every generated key has the license-key shape, and its segments hold the draws in order. */
  lemma KeyShape(picks: seq<nat>)
    requires ValidPicks(picks)
    ensures IsLicenseKey(KeyOf(picks))
    ensures KeyOf(picks)[0..4] == Segment(picks, 0) && KeyOf(picks)[5..9] == Segment(picks, 1)
    ensures KeyOf(picks)[10..14] == Segment(picks, 2) && KeyOf(picks)[15..19] == Segment(picks, 3)
  {
    var key := KeyOf(picks);
    assert key[0..4] == Segment(picks, 0);
    assert key[5..9] == Segment(picks, 1);
    assert key[10..14] == Segment(picks, 2);
    assert key[15..19] == Segment(picks, 3);
  }

  /** The key after the outer loop has run i times. */
  function KeyPrefix(picks: seq<nat>, i: nat): string
    requires ValidPicks(picks) && i <= SEGMENTS
  {
    if i == 0 then ""
    else KeyPrefix(picks, i - 1) + (if i - 1 < SEGMENTS - 1 then Segment(picks, i - 1) + "-" else Segment(picks, i - 1))
  }

  /** The nested loops that build the key, one character and one segment at a time. */
  method GenerateKey(picks: seq<nat>) returns (key: string)
    requires ValidPicks(picks)
    ensures key == KeyOf(picks)
    ensures IsLicenseKey(key)
  {
    key := "";
    for i := 0 to SEGMENTS
      invariant key == KeyPrefix(picks, i)
    {
      var segment := "";
      for j := 0 to SEGMENT_LENGTH
        invariant segment == Segment(picks, i)[..j]
      {
        segment := segment + [ALPHABET[picks[SEGMENT_LENGTH * i + j]]];
      }
      key := key + (if i < SEGMENTS - 1 then segment + "-" else segment);
    }
    assert KeyPrefix(picks, 1) == Segment(picks, 0) + "-";
    assert KeyPrefix(picks, 2) == KeyPrefix(picks, 1) + (Segment(picks, 1) + "-");
    assert KeyPrefix(picks, 3) == KeyPrefix(picks, 2) + (Segment(picks, 2) + "-");
    assert KeyPrefix(picks, 4) == KeyPrefix(picks, 3) + Segment(picks, 3);
    KeyShape(picks);
  }

  datatype GenerateError = MissingDealer

  /**
   * POST /generate: a truthy dealer id gets a new license row with a fresh
   * key, the next id, `is_active` at its column default 1, no binding, and
   * the expiry as given (None for a falsy `expiry_date`).
   */
  method Generate(db: Db, dealerId: Option<string>, expiry: Option<int>, picks: seq<nat>)
    returns (r: Result<License, GenerateError>)
    requires db.Valid() && ValidPicks(picks)
    modifies db
    ensures db.Valid()
    ensures !Truthy(dealerId) ==> r == Err(MissingDealer) && unchanged(db)
    ensures Truthy(dealerId) ==>
      && r == Ok(License(old(db.nextLicenseId), KeyOf(picks), dealerId.value, 1, None, None, None, expiry))
      && db.licenses == old(db.licenses) + [r.value]
      && db.nextLicenseId == old(db.nextLicenseId) + 1
    ensures unchanged(db`transactions, db`devices, db`syncStates, db`backups, db`nextBackupId, db`activityLog)
    ensures r.Ok? ==> IsLicenseKey(r.value.key)
  {
    if !Truthy(dealerId) {
      return Err(MissingDealer);
    }
    var key := GenerateKey(picks);
    var l := License(db.nextLicenseId, key, dealerId.value, 1, None, None, None, expiry);
    db.licenses := db.licenses + [l];
    db.nextLicenseId := db.nextLicenseId + 1;
    r := Ok(l);
  }

  // ---------------------------------------------------------------------------
  // Expiry extension
  // ---------------------------------------------------------------------------

  const DAY := 86400

  datatype Duration = OneYear | SixMonths | OneMonth

  /** '1year', '6months', '1month'; anything else counts as one year. */
  function DurationOf(durationType: Option<string>): (d: Duration)
    ensures d == SixMonths <==> durationType == Some("6months")
    ensures d == OneMonth <==> durationType == Some("1month")
    ensures d == OneYear <==> durationType != Some("6months") && durationType != Some("1month")
  {
    if durationType == Some("1year") then OneYear
    else if durationType == Some("6months") then SixMonths
    else if durationType == Some("1month") then OneMonth
    else OneYear
  }

  /** Nominal lengths of the calendar steps `setFullYear(+1)`, `setMonth(+6)`, `setMonth(+1)`. */
  function Length(d: Duration): (seconds: nat)
    ensures seconds >= 30 * DAY
  {
    match d
    case OneYear => 365 * DAY
    case SixMonths => 180 * DAY
    case OneMonth => 30 * DAY
  }

  /** `new Date(expires_at)`: a NULL expiry reads as the epoch. */
  function ExpiryInstant(expiresAt: Option<int>): int {
    expiresAt.GetOr(0)
  }

  /**
   * The expiry computation of POST /extend: start from the stored expiry,
   * move the start to now when it lies in the past, then add the duration.
   */
  method NewExpiry(expiresAt: Option<int>, durationType: Option<string>, now: int) returns (newExpiry: int)
    ensures var start := if ExpiryInstant(expiresAt) < now then now else ExpiryInstant(expiresAt);
      newExpiry - start == Length(DurationOf(durationType))
    ensures newExpiry > now
    ensures expiresAt.Some? ==> newExpiry > expiresAt.value
    ensures expiresAt.None? && now > 0 ==> newExpiry == now + Length(DurationOf(durationType))
  {
    newExpiry := ExpiryInstant(expiresAt);
    if newExpiry < now {
      newExpiry := now;
    }
    if durationType == Some("1year") {
      newExpiry := newExpiry + Length(OneYear);
    } else if durationType == Some("6months") {
      newExpiry := newExpiry + Length(SixMonths);
    } else if durationType == Some("1month") {
      newExpiry := newExpiry + Length(OneMonth);
    } else {
      newExpiry := newExpiry + Length(OneYear);
    }
  }

  /** The first row with the given id (`SELECT * FROM licenses WHERE id = ?`). */
  function FindById(licenses: seq<License>, id: int): (r: Option<License>)
    ensures r.Some? <==> exists l :: l in licenses && l.id == id
    ensures r.Some? ==> r.value in licenses && r.value.id == id
  {
    if licenses == [] then None
    else
      assert forall l :: l in licenses <==> l == licenses[0] || l in licenses[1..] by {
        assert licenses == [licenses[0]] + licenses[1..];
      }
      if licenses[0].id == id then Some(licenses[0]) else FindById(licenses[1..], id)
  }

  /** `UPDATE licenses SET expires_at = ? WHERE id = ?` */
  function SetExpiry(licenses: seq<License>, id: int, expiry: int): (r: seq<License>)
    ensures |r| == |licenses|
    ensures forall k :: 0 <= k < |r| ==>
      r[k] == if licenses[k].id == id then licenses[k].(expiresAt := Some(expiry)) else licenses[k]
  {
    seq(|licenses|, k requires 0 <= k < |licenses| =>
      if licenses[k].id == id then licenses[k].(expiresAt := Some(expiry)) else licenses[k])
  }

  datatype ExtendError = MissingLicenseId | LicenseNotFound

  /** POST /extend: answers the new expiry and stores it on the license. */
  method Extend(db: Db, licenseId: Option<int>, durationType: Option<string>, now: int)
    returns (r: Result<int, ExtendError>)
    requires db.Valid()
    modifies db
    ensures db.Valid()
    ensures !TruthyNum(licenseId) ==> r == Err(MissingLicenseId) && unchanged(db)
    ensures TruthyNum(licenseId) && FindById(old(db.licenses), licenseId.value).None? ==>
      r == Err(LicenseNotFound) && unchanged(db)
    ensures TruthyNum(licenseId) && FindById(old(db.licenses), licenseId.value).Some? ==>
      var l := FindById(old(db.licenses), licenseId.value).value;
      var start := if ExpiryInstant(l.expiresAt) < now then now else ExpiryInstant(l.expiresAt);
      && r.Ok?
      && r.value - start == Length(DurationOf(durationType))
      && r.value > now
      && (l.expiresAt.Some? ==> r.value > l.expiresAt.value)
      && db.licenses == SetExpiry(old(db.licenses), licenseId.value, r.value)
    ensures unchanged(db`nextLicenseId, db`transactions, db`devices, db`syncStates, db`backups, db`nextBackupId, db`activityLog)
  {
    if !TruthyNum(licenseId) {
      return Err(MissingLicenseId);
    }
    var found := FindById(db.licenses, licenseId.value);
    if found.None? {
      return Err(LicenseNotFound);
    }
    var newExpiry := NewExpiry(found.value.expiresAt, durationType, now);
    db.licenses := SetExpiry(db.licenses, licenseId.value, newExpiry);
    r := Ok(newExpiry);
  }

  // ---------------------------------------------------------------------------
  // Lookup by key, validation and activation
  // ---------------------------------------------------------------------------

  /** The position of the first row carrying the key, or |licenses| when none does. */
  function KeyIndex(licenses: seq<License>, key: string): (i: nat)
    ensures i <= |licenses|
    ensures i < |licenses| ==> licenses[i].key == key
    ensures forall j :: 0 <= j < i ==> licenses[j].key != key
  {
    if licenses == [] then 0
    else if licenses[0].key == key then 0
    else 1 + KeyIndex(licenses[1..], key)
  }

  /** `rows[0]` of `SELECT ... WHERE l.license_key = ?` */
  function FindByKey(licenses: seq<License>, key: string): (r: Option<License>)
    ensures r.Some? <==> exists l :: l in licenses && l.key == key
    ensures r.Some? ==> r.value in licenses && r.value.key == key
  {
    var i := KeyIndex(licenses, key);
    if i < |licenses| then Some(licenses[i])
    else
      assert forall l :: l in licenses ==> l.key != key by {
        forall l | l in licenses ensures l.key != key {
          var j :| 0 <= j < |licenses| && licenses[j] == l;
        }
      }
      None
  }

  datatype Verdict =
    | Incomplete                                      // 400 'Eksik bilgi'
    | UnknownKey
    | Inactive
    | MacMismatch(dealerId: string, registered: string)
    | Expired
    | Valid(dealerId: string, expiresAt: Option<int>)

  /** The license is bound to another computer than the one asking. */
  predicate Mismatched(l: License, mac: string) {
    Truthy(l.macAddress) && l.macAddress.value != mac
  }

  predicate ExpiredAt(l: License, now: int) {
    l.expiresAt.Some? && l.expiresAt.value < now
  }

  /**
   * POST /validate: the checks in order, each one reached only when every
   * earlier one passed; valid only when all pass.
   */
  function Validate(licenses: seq<License>, key: Option<string>, mac: Option<string>, now: int): (v: Verdict)
    ensures v == Incomplete <==> !Truthy(key) || !Truthy(mac)
    ensures v == UnknownKey <==> Truthy(key) && Truthy(mac) && FindByKey(licenses, key.value).None?
    ensures v == Inactive <==>
      Truthy(key) && Truthy(mac) && FindByKey(licenses, key.value).Some?
      && FindByKey(licenses, key.value).value.isActive == 0
    ensures v.MacMismatch? <==>
      Truthy(key) && Truthy(mac) && FindByKey(licenses, key.value).Some?
      && FindByKey(licenses, key.value).value.isActive != 0
      && Mismatched(FindByKey(licenses, key.value).value, mac.value)
    ensures v == Expired <==>
      Truthy(key) && Truthy(mac) && FindByKey(licenses, key.value).Some?
      && FindByKey(licenses, key.value).value.isActive != 0
      && !Mismatched(FindByKey(licenses, key.value).value, mac.value)
      && ExpiredAt(FindByKey(licenses, key.value).value, now)
    ensures v.Valid? <==>
      Truthy(key) && Truthy(mac) && FindByKey(licenses, key.value).Some?
      && FindByKey(licenses, key.value).value.isActive != 0
      && !Mismatched(FindByKey(licenses, key.value).value, mac.value)
      && !ExpiredAt(FindByKey(licenses, key.value).value, now)
    ensures v.MacMismatch? ==>
      var l := FindByKey(licenses, key.value).value;
      v.dealerId == l.dealerId && Some(v.registered) == l.macAddress
    ensures v.Valid? ==>
      var l := FindByKey(licenses, key.value).value;
      v.dealerId == l.dealerId && v.expiresAt == l.expiresAt
  {
    if !Truthy(key) || !Truthy(mac) then Incomplete
    else match FindByKey(licenses, key.value)
      case None => UnknownKey
      case Some(l) =>
        if l.isActive == 0 then Inactive
        else if Mismatched(l, mac.value) then MacMismatch(l.dealerId, l.macAddress.value)
        else if ExpiredAt(l, now) then Expired
        else Valid(l.dealerId, l.expiresAt)
  }

  /** Validation never binds: an active, unexpired, unbound license validates for every MAC. */
  lemma UnboundValidatesAnyMac(licenses: seq<License>, key: string, mac: string, now: int)
    requires FindByKey(licenses, key).Some?
    requires var l := FindByKey(licenses, key).value;
      l.isActive != 0 && !Truthy(l.macAddress) && !ExpiredAt(l, now)
    requires key != "" && mac != ""
    ensures Validate(licenses, Some(key), Some(mac), now).Valid?
  {
  }

  /** The LICENSE_VIOLATION description: the registered MAC, then the one the request sent. */
  function ViolationNote(registered: string, mac: string): (text: string)
    ensures |text| == |"MAC uyuşmazlığı: Kayıtlı="| + |registered| + |", Gelen="| + |mac|
    ensures text[|"MAC uyuşmazlığı: Kayıtlı="|..][..|registered|] == registered
    ensures text[|text| - |mac|..] == mac
  {
    "MAC uyuşmazlığı: Kayıtlı=" + registered + ", Gelen=" + mac
  }

  /**
   * The route around the chain: a MAC mismatch appends a LICENSE_VIOLATION
   * entry for the license's dealer; nothing else is written.
   */
  method ValidateRequest(db: Db, key: Option<string>, mac: Option<string>, ip: string, now: int)
    returns (v: Verdict)
    requires db.Valid()
    modifies db
    ensures db.Valid()
    ensures v == Validate(old(db.licenses), key, mac, now)
    ensures db.activityLog == old(db.activityLog) +
      (if v.MacMismatch? then [LogEntry(v.dealerId, "LICENSE_VIOLATION", ViolationNote(v.registered, mac.value), ip)]
       else [])
    ensures unchanged(db`licenses, db`nextLicenseId, db`transactions, db`devices, db`syncStates, db`backups, db`nextBackupId)
  {
    v := Validate(db.licenses, key, mac, now);
    if v.MacMismatch? {
      db.activityLog := db.activityLog + [LogEntry(v.dealerId, "LICENSE_VIOLATION", ViolationNote(v.registered, mac.value), ip)];
    }
  }

  /** `activated_at && mac_address`: the license is locked to a computer. */
  predicate IsBound(l: License) {
    l.activatedAt.Some? && Truthy(l.macAddress)
  }

  datatype Activation =
    | ActivationIncomplete                                // 400 'Eksik bilgi'
    | ActivationUnknownKey
    | AlreadyHere(dealerId: string, expiresAt: Option<int>)
    | BoundElsewhere
    | Bound(dealerId: string, expiresAt: Option<int>)

  /** The decision of POST /activate. */
  function ActivationOf(licenses: seq<License>, key: Option<string>, mac: Option<string>): (a: Activation)
    ensures a == ActivationIncomplete <==> !Truthy(key) || !Truthy(mac)
    ensures a == ActivationUnknownKey <==> Truthy(key) && Truthy(mac) && FindByKey(licenses, key.value).None?
    ensures a.AlreadyHere? <==>
      Truthy(key) && Truthy(mac) && FindByKey(licenses, key.value).Some?
      && IsBound(FindByKey(licenses, key.value).value)
      && FindByKey(licenses, key.value).value.macAddress == mac
    ensures a == BoundElsewhere <==>
      Truthy(key) && Truthy(mac) && FindByKey(licenses, key.value).Some?
      && IsBound(FindByKey(licenses, key.value).value)
      && FindByKey(licenses, key.value).value.macAddress != mac
    ensures a.Bound? <==>
      Truthy(key) && Truthy(mac) && FindByKey(licenses, key.value).Some?
      && !IsBound(FindByKey(licenses, key.value).value)
    ensures a.Bound? || a.AlreadyHere? ==>
      var l := FindByKey(licenses, key.value).value;
      a.dealerId == l.dealerId && a.expiresAt == l.expiresAt
  {
    if !Truthy(key) || !Truthy(mac) then ActivationIncomplete
    else match FindByKey(licenses, key.value)
      case None => ActivationUnknownKey
      case Some(l) =>
        if IsBound(l) then
          if l.macAddress == mac then AlreadyHere(l.dealerId, l.expiresAt) else BoundElsewhere
        else Bound(l.dealerId, l.expiresAt)
  }

  /** Activation looks at neither `is_active` nor the expiry: a revoked or expired unbound license still binds. */
  lemma ActivationIgnoresStatus(licenses: seq<License>, key: string, mac: string, k: nat, isActive: int, expiresAt: Option<int>)
    requires k < |licenses| && mac != ""
    ensures var changed := licenses[k := licenses[k].(isActive := isActive, expiresAt := expiresAt)];
      ActivationOf(changed, Some(key), Some(mac)).Bound? == ActivationOf(licenses, Some(key), Some(mac)).Bound?
  {
    var changed := licenses[k := licenses[k].(isActive := isActive, expiresAt := expiresAt)];
    assert forall j :: 0 <= j < |licenses| ==> changed[j].key == licenses[j].key;
    assert KeyIndex(changed, key) == KeyIndex(licenses, key);
  }

  /** The device name stored on binding: `device_name || 'Bilinmeyen Cihaz'`. */
  function BoundName(deviceName: Option<string>): (name: string)
    ensures Truthy(deviceName) ==> name == deviceName.value
    ensures !Truthy(deviceName) ==> name == "Bilinmeyen Cihaz"
  {
    if Truthy(deviceName) then deviceName.value else "Bilinmeyen Cihaz"
  }

  /** `UPDATE licenses SET mac_address = ?, device_name = ?, activated_at = NOW() WHERE id = ?` */
  function Bind(licenses: seq<License>, id: nat, mac: string, name: string, now: int): (r: seq<License>)
    ensures |r| == |licenses|
    ensures forall k :: 0 <= k < |r| ==>
      r[k] == if licenses[k].id == id
              then licenses[k].(macAddress := Some(mac), deviceName := Some(name), activatedAt := Some(now))
              else licenses[k]
  {
    seq(|licenses|, k requires 0 <= k < |licenses| =>
      if licenses[k].id == id
      then licenses[k].(macAddress := Some(mac), deviceName := Some(name), activatedAt := Some(now))
      else licenses[k])
  }

  /** The description of the LICENSE_ACTIVATED entry; an absent name prints as `undefined`. */
  function ActivationNote(deviceName: Option<string>): (text: string)
    ensures |text| >= 7 && text[..7] == "Cihaz: "
    ensures deviceName.Some? ==> text[7..] == deviceName.value
    ensures deviceName.None? ==> text[7..] == "undefined"
  {
    "Cihaz: " + deviceName.GetOr("undefined")
  }

  /**
   * POST /activate: binds an unbound license to the MAC and logs
   * LICENSE_ACTIVATED; every other outcome writes nothing.
   */
  method Activate(db: Db, key: Option<string>, mac: Option<string>, deviceName: Option<string>, ip: string, now: int)
    returns (a: Activation)
    requires db.Valid()
    modifies db
    ensures db.Valid()
    ensures a == ActivationOf(old(db.licenses), key, mac)
    ensures !a.Bound? ==> unchanged(db)
    ensures a.Bound? ==>
      var l := FindByKey(old(db.licenses), key.value).value;
      && db.licenses == Bind(old(db.licenses), l.id, mac.value, BoundName(deviceName), now)
      && db.activityLog == old(db.activityLog) + [LogEntry(l.dealerId, "LICENSE_ACTIVATED", ActivationNote(deviceName), ip)]
    ensures unchanged(db`nextLicenseId, db`transactions, db`devices, db`syncStates, db`backups, db`nextBackupId)
  {
    a := ActivationOf(db.licenses, key, mac);
    if !a.Bound? {
      return;
    }
    var l := FindByKey(db.licenses, key.value).value;
    db.licenses := Bind(db.licenses, l.id, mac.value, BoundName(deviceName), now);
    db.activityLog := db.activityLog + [LogEntry(l.dealerId, "LICENSE_ACTIVATED", ActivationNote(deviceName), ip)];
  }

  /**
   * After a binding, the same key answers only to its MAC: activation from
   * the bound computer succeeds without a write, activation and validation
   * from any other computer are refused.
   */
  lemma BindingLocksLicense(licenses: seq<License>, key: string, mac: string, deviceName: Option<string>, now: int, other: string)
    requires ActivationOf(licenses, Some(key), Some(mac)).Bound?
    requires other != "" && other != mac
    ensures var l := FindByKey(licenses, key).value;
      var bound := Bind(licenses, l.id, mac, BoundName(deviceName), now);
      && ActivationOf(bound, Some(key), Some(mac)).AlreadyHere?
      && ActivationOf(bound, Some(key), Some(other)) == BoundElsewhere
      && Validate(bound, Some(key), Some(other), now) in {Inactive, MacMismatch(l.dealerId, mac)}
  {
    var l := FindByKey(licenses, key).value;
    var bound := Bind(licenses, l.id, mac, BoundName(deviceName), now);
    var i := KeyIndex(licenses, key);
    assert forall j :: 0 <= j < |licenses| ==> bound[j].key == licenses[j].key;
    assert KeyIndex(bound, key) == i;
    assert FindByKey(bound, key).value == bound[i];
  }

  /** Bindings already made are kept: the fields that lock a license to a computer. */
  predicate KeepsBindings(before: seq<License>, after: seq<License>) {
    && |before| <= |after|
    && forall k :: 0 <= k < |before| && IsBound(before[k]) ==>
         after[k].id == before[k].id && after[k].key == before[k].key
         && after[k].macAddress == before[k].macAddress && after[k].activatedAt == before[k].activatedAt
  }

  /** No route clears a binding: generation appends, extension touches only the expiry, activation binds only an unbound row. */
  lemma NoRouteUnbinds(licenses: seq<License>, added: License, id: int, expiry: int, key: string, mac: string, name: string, now: int)
    requires DistinctLicenseIds(licenses)
    ensures KeepsBindings(licenses, licenses + [added])
    ensures KeepsBindings(licenses, SetExpiry(licenses, id, expiry))
    ensures ActivationOf(licenses, Some(key), Some(mac)).Bound? ==>
      KeepsBindings(licenses, Bind(licenses, FindByKey(licenses, key).value.id, mac, name, now))
  {
    if ActivationOf(licenses, Some(key), Some(mac)).Bound? {
      var i := KeyIndex(licenses, key);
      var l := licenses[i];
      assert forall k :: 0 <= k < |licenses| && k != i ==> licenses[k].id != l.id;
    }
  }

  /** The list status: 'active' exactly when `is_active` is truthy, otherwise 'revoked'. */
  function ListStatus(l: License): (status: string)
    ensures status == "active" <==> l.isActive != 0
    ensures status == "revoked" <==> l.isActive == 0
  {
    if l.isActive != 0 then "active" else "revoked"
  }
}
