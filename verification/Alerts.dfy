/** internal/services/alerts.go and the alert texts that other services write. */
module Alerts {
  import opened Tables

  function Digit(d: nat): char
    requires d < 10
  {
    "0123456789"[d]
  }

  /** %d of a row id. */
  function Decimal(n: nat): (s: string)
    ensures |s| > 0
  {
    if n < 10 then [Digit(n)] else Decimal(n / 10) + [Digit(n % 10)]
  }

  function CouldNotRotate(machine: nat): string {
    "Machine " + Decimal(machine) + " could not rotate its direct-pay address: pool is empty"
  }

  /** InsertAlertIfNotExists: one unacknowledged alert of each kind is enough. */
  function InsertedIfNone(alerts: seq<Alert>, kind: string, message: string): seq<Alert> {
    if exists i | 0 <= i < |alerts| :: alerts[i].kind == kind && !alerts[i].acked then alerts
    else alerts + [Alert(kind, message, false)]
  }

  ghost predicate Unacknowledged(alerts: seq<Alert>, kind: string) {
    exists i | 0 <= i < |alerts| :: alerts[i].kind == kind && !alerts[i].acked
  }

  lemma AlertStands(alerts: seq<Alert>, kind: string, message: string)
    ensures
      var after := InsertedIfNone(alerts, kind, message);
      && Unacknowledged(after, kind)
      && after == if Unacknowledged(alerts, kind) then alerts else alerts + [Alert(kind, message, false)]
  {
    if !Unacknowledged(alerts, kind) {
      var after := InsertedIfNone(alerts, kind, message);
      assert after[|alerts|] == Alert(kind, message, false);
    }
  }
}
