// Push deliveries (apps/notifications/tasks.py): one row per notification and device, claimed
// under a lease by workers that send and then record, and by recovery passes.
module PushDelivery {
  import opened Common

  type Time = nat

  datatype Status = Pending | Processing | Sent | Failed | Invalid

  datatype Row = Row(status: Status, attempts: nat, lastAttemptAt: Option<Time>)

  const NewRow := Row(Pending, 0, None)

  predicate Final(s: Status) {
    s == Sent || s == Invalid || s == Failed
  }

  // A PROCESSING row whose attempt is younger than the lease belongs to another worker.
  predicate Leased(r: Row, now: Time, lease: nat) {
    r.status == Processing && r.lastAttemptAt.Some? && r.lastAttemptAt.value + lease > now
  }

  predicate CanClaim(r: Row, now: Time, lease: nat) {
    !Final(r.status) && !Leased(r, now, lease)
  }

  function Claimed(r: Row, now: Time): Row {
    Row(Processing, r.attempts + 1, Some(now))
  }

  datatype SendResult = Accepted | Unregistered | Errored

  function Recorded(r: Row, result: SendResult): Row {
    r.(status := match result case Accepted => Sent case Unregistered => Invalid case Errored => Pending)
  }

  // After the last retry the still pending rows of this run are given up.
  function GivenUp(r: Row): Row {
    if r.status == Pending then r.(status := Failed) else r
  }

  function Recovered(r: Row, now: Time, lease: nat): Row {
    if r.status == Processing && r.lastAttemptAt.Some? && r.lastAttemptAt.value + lease < now
    then r.(status := Pending)
    else r
  }

  // One undisturbed pass of a worker over a delivery.
  function Delivered(r: Row, result: SendResult, now: Time, lease: nat, lastTry: bool): Row {
    if !CanClaim(r, now, lease) then r
    else
      var after := Recorded(Claimed(r, now), result);
      if lastTry && result == Errored then GivenUp(after) else after
  }

  // What becomes of a delivery in one undisturbed pass.
  lemma DeliveredSays(r: Row, result: SendResult, now: Time, lease: nat, lastTry: bool)
    ensures var after := Delivered(r, result, now, lease, lastTry);
            if r.status in {Sent, Invalid, Failed} || (r.status == Processing && r.lastAttemptAt.Some? && now < r.lastAttemptAt.value + lease)
            then after == r
            else
              && after.attempts == r.attempts + 1 && after.lastAttemptAt == Some(now)
              && after.status == (if result == Accepted then Sent else if result == Unregistered then Invalid else if lastTry then Failed else Pending)
  {
  }

  // A recovered row waits for a worker, and any worker may claim it at any time.
  lemma RecoveredIsClaimable(r: Row, now: Time, lease: nat, at: Time)
    ensures var after := Recovered(r, now, lease);
            if r.status == Processing && r.lastAttemptAt.Some? && r.lastAttemptAt.value + lease < now
            then after == r.(status := Pending) && CanClaim(after, at, lease)
            else after == r
  {
  }

  class Delivery {
    var status: Status
    var attempts: nat
    var lastAttemptAt: Option<Time>

    function AsRow(): Row
      reads this
    {
      Row(status, attempts, lastAttemptAt)
    }

    constructor ()
      ensures AsRow() == NewRow
    {
      status, attempts, lastAttemptAt := Pending, 0, None;
    }

    method Claim(now: Time, lease: nat) returns (claimed: bool)
      modifies this
      ensures claimed == CanClaim(old(AsRow()), now, lease)
      ensures claimed <==> old(status) == Pending || (old(status) == Processing && (old(lastAttemptAt).Some? ==> old(lastAttemptAt).value + lease <= now))
      ensures claimed ==> status == Processing && attempts == old(attempts) + 1 && lastAttemptAt == Some(now)
      ensures AsRow() == if claimed then Claimed(old(AsRow()), now) else old(AsRow())
    {
      if status in {Sent, Invalid, Failed} {
        return false;
      }
      if status == Processing && lastAttemptAt.Some? && lastAttemptAt.value + lease > now {
        return false;
      }
      status := Processing;
      attempts := attempts + 1;
      lastAttemptAt := Some(now);
      claimed := true;
    }

    method Record(result: SendResult)
      modifies this
      ensures AsRow() == Recorded(old(AsRow()), result)
      ensures status == (if result == Accepted then Sent else if result == Unregistered then Invalid else Pending)
      ensures attempts == old(attempts) && lastAttemptAt == old(lastAttemptAt)
    {
      match result {
        case Accepted => status := Sent;
        case Unregistered => status := Invalid;
        case Errored => status := Pending;
      }
    }

    method Recover(now: Time, lease: nat) returns (recovered: bool)
      modifies this
      ensures AsRow() == Recovered(old(AsRow()), now, lease)
      ensures recovered <==> AsRow() != old(AsRow())
      ensures recovered <==> old(status) == Processing && old(lastAttemptAt).Some? && old(lastAttemptAt).value + lease < now
      ensures recovered ==> status == Pending && attempts == old(attempts) && lastAttemptAt == old(lastAttemptAt)
    {
      recovered := status == Processing && lastAttemptAt.Some? && lastAttemptAt.value + lease < now;
      if recovered {
        status := Pending;
      }
    }
  }

  // How many of the first n deliveries are claimed and answered with this result.
  function Outcomes(rows: seq<Row>, results: seq<SendResult>, nows: seq<Time>, lease: nat, result: SendResult, n: nat): nat
    requires n <= |rows| == |results| == |nows|
  {
    if n == 0 then 0
    else
      Outcomes(rows, results, nows, lease, result, n - 1)
      + if CanClaim(rows[n - 1], nows[n - 1], lease) && results[n - 1] == result then 1 else 0
  }

  function Rows(devices: seq<Delivery>): (rows: seq<Row>)
    reads devices
    ensures |rows| == |devices| && forall i | 0 <= i < |devices| :: rows[i] == devices[i].AsRow()
  {
    seq(|devices|, i requires 0 <= i < |devices| reads devices => devices[i].AsRow())
  }

  predicate AllDistinct(devices: seq<Delivery>) {
    forall i, j | 0 <= i < j < |devices| :: devices[i] != devices[j]
  }

  predicate Retryable(rows: seq<Row>, results: seq<SendResult>, nows: seq<Time>, lease: nat, i: int)
    requires |rows| == |results| == |nows|
  {
    0 <= i < |rows| && CanClaim(rows[i], nows[i], lease) && results[i] == Errored
  }

  predicate Ascending(xs: seq<nat>) {
    forall a, b | 0 <= a < b < |xs| :: xs[a] < xs[b]
  }

  datatype Tally = Tally(sent: nat, invalid: nat, retryable: seq<nat>) {
    function Add(n: nat, claimed: bool, result: SendResult): Tally {
      if !claimed then this
      else
        match result
        case Accepted => this.(sent := sent + 1)
        case Unregistered => this.(invalid := invalid + 1)
        case Errored => this.(retryable := retryable + [n])
    }
  }

  function TallyOf(rows: seq<Row>, results: seq<SendResult>, nows: seq<Time>, lease: nat, n: nat): Tally
    requires n <= |rows| == |results| == |nows|
  {
    if n == 0 then Tally(0, 0, [])
    else TallyOf(rows, results, nows, lease, n - 1).Add(n - 1, CanClaim(rows[n - 1], nows[n - 1], lease), results[n - 1])
  }

  lemma {:induction false} TallyMeans(rows: seq<Row>, results: seq<SendResult>, nows: seq<Time>, lease: nat, n: nat)
    requires n <= |rows| == |results| == |nows|
    ensures var t := TallyOf(rows, results, nows, lease, n);
            && Ascending(t.retryable)
            && (forall i :: i in t.retryable <==> i < n && Retryable(rows, results, nows, lease, i))
            && t.sent == Outcomes(rows, results, nows, lease, Accepted, n)
            && t.invalid == Outcomes(rows, results, nows, lease, Unregistered, n)
            && |t.retryable| == Outcomes(rows, results, nows, lease, Errored, n)
  {
    if n > 0 {
      TallyMeans(rows, results, nows, lease, n - 1);
      var before := TallyOf(rows, results, nows, lease, n - 1).retryable;
      assert forall a | 0 <= a < |before| :: before[a] in before;
    }
  }

  // The loop over the user's devices, each at its own clock reading and with the result that
  // Firebase would give.
  method SendToDevices(devices: seq<Delivery>, results: seq<SendResult>, nows: seq<Time>, lease: nat) returns (tally: Tally)
    requires |results| == |nows| == |devices| && AllDistinct(devices)
    modifies devices
    ensures forall i | 0 <= i < |devices| :: devices[i].AsRow() == Delivered(old(devices[i].AsRow()), results[i], nows[i], lease, false)
    ensures tally == TallyOf(old(Rows(devices)), results, nows, lease, |devices|)
  {
    ghost var rows := Rows(devices);
    tally := Tally(0, 0, []);
    for n := 0 to |devices|
      invariant forall i | 0 <= i < n :: devices[i].AsRow() == Delivered(rows[i], results[i], nows[i], lease, false)
      invariant forall i | n <= i < |devices| :: devices[i].AsRow() == rows[i]
      invariant tally == TallyOf(rows, results, nows, lease, n)
    {
      var claimed := SendToDevice(devices[n], results[n], nows[n], lease);
      tally := tally.Add(n, claimed, results[n]);
    }
  }

  method SendToDevice(device: Delivery, result: SendResult, now: Time, lease: nat) returns (claimed: bool)
    modifies device
    ensures device.AsRow() == Delivered(old(device.AsRow()), result, now, lease, false)
    ensures claimed == CanClaim(old(device.AsRow()), now, lease)
  {
    claimed := device.Claim(now, lease);
    if claimed {
      device.Record(result);
    }
  }

  // send_notification_push: on the last retry the deliveries that only failed temporarily fail.
  method SendNotificationPush(devices: seq<Delivery>, results: seq<SendResult>, nows: seq<Time>, lease: nat, lastTry: bool)
    returns (sent: nat, invalid: nat, retryable: seq<nat>)
    requires |results| == |nows| == |devices| && AllDistinct(devices)
    modifies devices
    ensures forall i | 0 <= i < |devices| :: devices[i].AsRow() == Delivered(old(devices[i].AsRow()), results[i], nows[i], lease, lastTry)
    ensures forall i :: i in retryable <==> Retryable(old(Rows(devices)), results, nows, lease, i)
    ensures sent == Outcomes(old(Rows(devices)), results, nows, lease, Accepted, |devices|)
    ensures invalid == Outcomes(old(Rows(devices)), results, nows, lease, Unregistered, |devices|)
    ensures |retryable| == Outcomes(old(Rows(devices)), results, nows, lease, Errored, |devices|)
  {
    ghost var rows := Rows(devices);
    var tally := SendToDevices(devices, results, nows, lease);
    TallyMeans(rows, results, nows, lease, |devices|);
    sent, invalid, retryable := tally.sent, tally.invalid, tally.retryable;
    if lastTry {
      GiveUpAll(devices, retryable);
    }
  }

  method GiveUpAll(devices: seq<Delivery>, retryable: seq<nat>)
    requires AllDistinct(devices) && Ascending(retryable) && forall i | i in retryable :: i < |devices|
    modifies devices
    ensures forall i | 0 <= i < |devices| ::
              devices[i].AsRow() == if i in retryable then GivenUp(old(devices[i].AsRow())) else old(devices[i].AsRow())
  {
    for m := 0 to |retryable|
      invariant forall i | 0 <= i < |devices| ::
                  devices[i].AsRow() == if i in retryable[..m] then GivenUp(old(devices[i].AsRow())) else old(devices[i].AsRow())
    {
      assert retryable[m] in retryable && retryable[m] !in retryable[..m];
      assert retryable[..m + 1] == retryable[..m] + [retryable[m]];
      var d := devices[retryable[m]];
      if d.status == Pending {
        d.status := Failed;
      }
    }
    assert retryable[..|retryable|] == retryable;
  }
}
