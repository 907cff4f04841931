// Idempotency keys (apps/idempotency): claiming, completing, abandoning and purging records,
// with handlers of many requests interleaved step by step.
module Idempotency {
  import opened Common

  type Time = nat
  type Pk = nat
  type Handler = nat

  // One logical request slot: user, endpoint and client key.
  datatype Slot = Slot(user: nat, endpoint: string, key: string)

  // The request hash is injective, so it is the payload itself.
  type Hash = string

  datatype Response = Response(status: nat, body: string)

  datatype Status = Processing | Completed

  datatype Record = Record(pk: Pk, hash: Hash, status: Status, response: Option<Response>, expiresAt: Time)

  type Table = map<Slot, Record>

  // ---- the three services on the table ----

  datatype Found = Missing | TakenOver(record: Record) | KeyReused | Replay(response: Option<Response>) | InProgress

  // The locked read of a claim attempt, with the takeover of an expired record.
  function Look(t: Table, slot: Slot, hash: Hash, expiresAt: Time, now: Time): Found {
    if slot !in t then Missing
    else if t[slot].expiresAt <= now then TakenOver(Record(t[slot].pk, hash, Processing, None, expiresAt))
    else if t[slot].hash != hash then KeyReused
    else if t[slot].status == Completed then Replay(t[slot].response)
    else InProgress
  }

  // Completion and abandoning filter on primary key and status, not on the claimant.
  predicate Matches(t: Table, slot: Slot, pk: Pk) {
    slot in t && t[slot].pk == pk && t[slot].status == Processing
  }

  function Completing(t: Table, slot: Slot, pk: Pk, response: Response): Table {
    if Matches(t, slot, pk) then t[slot := t[slot].(status := Completed, response := Some(response))] else t
  }

  function Abandoning(t: Table, slot: Slot, pk: Pk): Table {
    if Matches(t, slot, pk) then t - {slot} else t
  }

  // The cleanup task removes some batch of expired records.
  function Purged(t: Table, batch: set<Slot>, now: Time): Table {
    map s | s in t && !(s in batch && t[s].expiresAt <= now) :: t[s]
  }

  datatype Outcome = Fresh(record: Record) | Replayed(response: Option<Response>) | ReuseError | InProgressError

  // A transaction that commits the same slot between the read and the insert of an attempt makes
  // the insert violate the unique constraint; its record is still there at the next read or not.
  datatype Rival = NoRival | Stays(record: Record) | Leaves

  // What a claim that meets this record comes to.
  function Verdict(r: Record, hash: Hash, expiresAt: Time, now: Time): Outcome {
    if r.expiresAt <= now then Fresh(Record(r.pk, hash, Processing, None, expiresAt))
    else if r.hash != hash then ReuseError
    else if r.status == Completed then Replayed(r.response)
    else InProgressError
  }

  // A live record of another request refuses as reused, one of the same request is replayed when
  // it is complete and refused as in progress otherwise; an expired one is taken over whole.
  lemma VerdictSays(r: Record, hash: Hash, expiresAt: Time, now: Time)
    ensures var out := Verdict(r, hash, expiresAt, now);
            && (out == ReuseError <==> now < r.expiresAt && hash != r.hash)
            && (out == InProgressError <==> now < r.expiresAt && hash == r.hash && r.status == Processing)
            && (out.Replayed? <==> now < r.expiresAt && hash == r.hash && r.status == Completed)
            && (out.Replayed? ==> out.response == r.response)
            && (out.Fresh? <==> r.expiresAt <= now)
            && (out.Fresh? ==> out.record == Record(r.pk, hash, Processing, None, expiresAt))
  {
  }

  // The same of a read in the runs.
  lemma LookSays(t: Table, slot: Slot, hash: Hash, expiresAt: Time, now: Time)
    ensures Look(t, slot, hash, expiresAt, now)
            == if slot !in t then Missing
               else match Verdict(t[slot], hash, expiresAt, now)
                    case Fresh(record) => TakenOver(record)
                    case Replayed(response) => Replay(response)
                    case ReuseError => KeyReused
                    case InProgressError => InProgress
  {
  }

  predicate Expired(t: Table, batch: set<Slot>, now: Time) {
    forall s | s in batch :: s in t && t[s].expiresAt <= now
  }

  class Store {
    var table: Table
    var nextPk: Pk

    method Claim(slot: Slot, hash: Hash, expiresAt: Time, now: Time, rivals: seq<Rival>) returns (out: Outcome)
      requires |rivals| == 2
      modifies this
      ensures forall s | s != slot :: (s in table <==> s in old(table)) && (s in table ==> table[s] == old(table)[s])
      ensures out.Fresh? ==> slot in table && table[slot] == out.record
                             && out.record.hash == hash && out.record.status == Processing
                             && out.record.response.None? && out.record.expiresAt == expiresAt
      ensures out.Fresh? && slot in old(table) ==> old(table)[slot].expiresAt <= now && out.record.pk == old(table)[slot].pk
      ensures slot in old(table) ==> out == Verdict(old(table)[slot], hash, expiresAt, now)
      ensures slot !in old(table) ==>
                match rivals[0]
                case NoRival => out.Fresh?
                case Stays(r) => out == Verdict(r, hash, expiresAt, now)
                case Leaves => if rivals[1].NoRival? then out.Fresh? else out == InProgressError
      ensures if out.Fresh? && slot !in old(table) && !rivals[0].Stays? then out.record.pk == old(nextPk) && nextPk == old(nextPk) + 1
              else nextPk == old(nextPk)
      ensures !out.Fresh? ==> table == old(table) || (exists n | 0 <= n < 2 :: rivals[n].Stays? && table == old(table)[slot := rivals[n].record])
    {
      for n := 0 to 2
        invariant n == 0 ==> table == old(table)
        invariant nextPk == old(nextPk)
        invariant n > 0 ==> slot !in old(table) && !rivals[n - 1].NoRival? && (n == 2 ==> rivals[0].Leaves?)
        invariant n > 0 ==> table == if rivals[n - 1].Stays? then old(table)[slot := rivals[n - 1].record] else old(table)
      {
        match Look(table, slot, hash, expiresAt, now) {
          case TakenOver(record) =>
            table := table[slot := record];
            return Fresh(record);
          case KeyReused =>
            return ReuseError;
          case Replay(response) =>
            return Replayed(response);
          case InProgress =>
            return InProgressError;
          case Missing =>
            if rivals[n].NoRival? {
              var record := Record(nextPk, hash, Processing, None, expiresAt);
              table, nextPk := table[slot := record], nextPk + 1;
              return Fresh(record);
            }
            if rivals[n].Stays? {
              table := table[slot := rivals[n].record];
            }
        }
      }
      out := InProgressError;
    }

    method Complete(slot: Slot, pk: Pk, response: Response)
      modifies this
      ensures table == Completing(old(table), slot, pk, response) && nextPk == old(nextPk)
      ensures slot in old(table) && old(table)[slot].pk == pk && old(table)[slot].status == Processing ==>
                slot in table && table[slot].status == Completed && table[slot].response == Some(response)
                && table[slot].expiresAt == old(table)[slot].expiresAt && table[slot].hash == old(table)[slot].hash
    {
      if slot in table && table[slot].pk == pk && table[slot].status == Processing {
        table := table[slot := table[slot].(status := Completed, response := Some(response))];
      }
    }

    method Abandon(slot: Slot, pk: Pk)
      modifies this
      ensures table == Abandoning(old(table), slot, pk) && nextPk == old(nextPk)
    {
      if slot in table && table[slot].pk == pk && table[slot].status == Processing {
        table := table - {slot};
      }
    }

    method PurgeExpired(now: Time, batchSize: nat) returns (deleted: nat, ghost batch: set<Slot>)
      modifies this
      ensures table == Purged(old(table), batch, now) && Expired(old(table), batch, now)
      ensures |batch| == deleted <= batchSize
      ensures deleted == batchSize || forall s | s in table :: table[s].expiresAt > now
      ensures nextPk == old(nextPk)
    {
      var expired := set s | s in table && table[s].expiresAt <= now;
      var picked := Pick(expired, batchSize);
      PurgeIsExact(table, picked, now);
      batch, deleted := picked, |picked|;
      table := map s | s in table && s !in picked :: table[s];
    }
  }

  // Some of the items, all of them if there are no more than the limit.
  method Pick<T(==)>(items: set<T>, limit: nat) returns (picked: set<T>)
    ensures picked <= items && |picked| <= limit && (|picked| == limit || picked == items)
  {
    var rest := items;
    picked := {};
    while rest != {} && |picked| < limit
      invariant picked !! rest && picked + rest == items && |picked| <= limit
      decreases rest
    {
      var x :| x in rest;
      rest, picked := rest - {x}, picked + {x};
    }
  }

  lemma PurgeIsExact(t: Table, batch: set<Slot>, now: Time)
    requires Expired(t, batch, now)
    ensures Purged(t, batch, now) == map s | s in t && s !in batch :: t[s]
  {
  }
}
