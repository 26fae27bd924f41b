/**
 * The activity feed of routes/dashboard.js: each row of the activity log is
 * shown with its description prefixed by the dealer's name and a type
 * derived from the action name by `determineType`.
 */
module Dashboard {
  import opened Common

  /** `s.includes(part)`: `part` occurs in `s` at some position. */
  predicate Contains(s: string, part: string) {
    exists i :: 0 <= i <= |s| && OccursAt(s, part, i)
  }

  predicate OccursAt(s: string, part: string, i: int) {
    0 <= i && i + |part| <= |s| && s[i..i + |part|] == part
  }

  /** A string that lacks one of the characters of `part` cannot contain `part`. */
  lemma MissingCharExcludes(s: string, part: string, k: nat)
    requires k < |part| && part[k] !in s
    ensures !Contains(s, part)
  {
    forall i | 0 <= i <= |s| && OccursAt(s, part, i)
      ensures false
    {
    }
  }

  /** A string contains every part it is built around. */
  lemma FoundInside(prefix: string, part: string, suffix: string)
    ensures Contains(prefix + part + suffix, part)
  {
    var s := prefix + part + suffix;
    assert OccursAt(s, part, |prefix|);
  }

  datatype ActivityType = Error | Warning | Success | Info {
    /** The `type` string the feed sends. */
    function Label(): (text: string)
      ensures text in {"error", "warning", "success", "info"}
    {
      match this
      case Error => "error"
      case Warning => "warning"
      case Success => "success"
      case Info => "info"
    }
  }

  /** Distinct types have distinct labels, so the feed's `type` field tells them apart. */
  lemma LabelsDistinct(a: ActivityType, b: ActivityType)
    requires a.Label() == b.Label()
    ensures a == b
  {
  }

  predicate IsErrorAction(action: string) {
    Contains(action, "ERROR") || Contains(action, "VIOLATION")
  }

  predicate IsWarningAction(action: string) {
    Contains(action, "WARNING")
  }

  predicate IsSuccessAction(action: string) {
    Contains(action, "SUCCESS") || Contains(action, "ACTIVATED")
  }

  /**
   * `determineType`: the first marker group the action name contains
   * decides, error markers before warning before success; no marker
   * means info.
   */
  function DetermineType(action: string): (t: ActivityType)
    ensures t == Error <==> IsErrorAction(action)
    ensures t == Warning <==> !IsErrorAction(action) && IsWarningAction(action)
    ensures t == Success <==> !IsErrorAction(action) && !IsWarningAction(action) && IsSuccessAction(action)
    ensures t == Info <==> !IsErrorAction(action) && !IsWarningAction(action) && !IsSuccessAction(action)
  {
    if IsErrorAction(action) then Error
    else if IsWarningAction(action) then Warning
    else if IsSuccessAction(action) then Success
    else Info
  }

  /*
   * The action names the license and sync routes write to the activity
   * log classify as: a MAC violation is an error, an activation a success,
   * a push and a backup upload are information.
   */

  lemma ViolationIsError()
    ensures DetermineType("LICENSE_VIOLATION") == Error
  {
    assert "LICENSE_VIOLATION" == "LICENSE_" + "VIOLATION" + "";
    FoundInside("LICENSE_", "VIOLATION", "");
  }

  lemma ActivationIsSuccess()
    ensures DetermineType("LICENSE_ACTIVATED") == Success
  {
    var action := "LICENSE_ACTIVATED";
    MissingCharExcludes(action, "ERROR", 1);      // no 'R'
    MissingCharExcludes(action, "VIOLATION", 2);  // no 'O'
    MissingCharExcludes(action, "WARNING", 0);    // no 'W'
    assert action == "LICENSE_" + "ACTIVATED" + "";
    FoundInside("LICENSE_", "ACTIVATED", "");
  }

  lemma PushIsInfo()
    ensures DetermineType("SYNC_PUSH") == Info
  {
    var action := "SYNC_PUSH";
    MissingCharExcludes(action, "ERROR", 0);      // no 'E'
    MissingCharExcludes(action, "VIOLATION", 0);  // no 'V'
    MissingCharExcludes(action, "WARNING", 0);    // no 'W'
    MissingCharExcludes(action, "SUCCESS", 4);    // no 'E'
    MissingCharExcludes(action, "ACTIVATED", 0);  // no 'A'
  }

  lemma BackupIsInfo()
    ensures DetermineType("BACKUP_UPLOAD") == Info
  {
    var action := "BACKUP_UPLOAD";
    MissingCharExcludes(action, "ERROR", 0);      // no 'E'
    MissingCharExcludes(action, "VIOLATION", 0);  // no 'V'
    MissingCharExcludes(action, "WARNING", 0);    // no 'W'
    MissingCharExcludes(action, "SUCCESS", 0);    // no 'S'
    MissingCharExcludes(action, "ACTIVATED", 2);  // no 'T'
  }

  /** An error marker decides the type whatever other markers the name carries. */
  lemma ErrorMarkerWins(prefix: string, suffix: string)
    ensures DetermineType(prefix + "VIOLATION" + suffix) == Error
    ensures DetermineType(prefix + "ERROR" + suffix) == Error
  {
    FoundInside(prefix, "VIOLATION", suffix);
    FoundInside(prefix, "ERROR", suffix);
  }

  /** `${dealerName ? dealerName + ': ' : ''}${description}` */
  function Describe(dealerName: Option<string>, description: string): (s: string)
    ensures Truthy(dealerName) ==> s == dealerName.value + ": " + description
    ensures !Truthy(dealerName) ==> s == description
  {
    (if Truthy(dealerName) then dealerName.value + ": " else "") + description
  }

  /** The stored description always ends the shown one, after at most the dealer's name and ": ". */
  lemma DescriptionIsSuffix(dealerName: Option<string>, description: string)
    ensures var s := Describe(dealerName, description);
      && |s| >= |description|
      && s[|s| - |description|..] == description
      && (Truthy(dealerName) ==> s[..|dealerName.value|] == dealerName.value && |s| == |dealerName.value| + 2 + |description|)
  {
  }

  /** A row of the activity query (`remote_activity_log` joined with the dealer's name). */
  datatype ActivityRow = ActivityRow(id: nat, action: string, description: string, timestamp: int, dealerName: Option<string>)

  /** An entry of the activity feed. */
  datatype Activity = Activity(id: nat, action: string, description: string, timestamp: int, kind: ActivityType)

  /** The `rows.map` of GET /activity: one entry per row, in query order. */
  function FormatActivities(rows: seq<ActivityRow>): (feed: seq<Activity>)
    ensures |feed| == |rows|
    ensures forall k :: 0 <= k < |rows| ==>
      && feed[k].id == rows[k].id && feed[k].action == rows[k].action && feed[k].timestamp == rows[k].timestamp
      && feed[k].description == Describe(rows[k].dealerName, rows[k].description)
      && feed[k].kind == DetermineType(rows[k].action)
  {
    seq(|rows|, k requires 0 <= k < |rows| =>
      Activity(rows[k].id, rows[k].action, Describe(rows[k].dealerName, rows[k].description), rows[k].timestamp,
               DetermineType(rows[k].action)))
  }
}
