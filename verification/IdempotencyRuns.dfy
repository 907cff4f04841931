// Any interleaving of any number of requests, clock ticks and cleanup passes.
module IdempotencyRuns {
  import opened Common
  import opened Idempotency

  datatype Event =
    | Opened(who: Handler, slot: Slot, hash: Hash, at: Time, expiresAt: Time)
    | Answered(who: Handler, slot: Slot, response: Response)
    | Dropped(who: Handler, slot: Slot)
    | Served(who: Handler, slot: Slot, hash: Hash, reply: Option<Response>)

  // A request between two of its transactions.
  datatype Phase =
    | Looking(slot: Slot, hash: Hash, expiresAt: Time, tries: nat)
    | Inserting(slot: Slot, hash: Hash, expiresAt: Time, tries: nat)
    | Holding(slot: Slot, pk: Pk, expiresAt: Time, since: nat)
    | Finished

  // `latest` is the log index of the last fresh claim of a slot, `answer` that of the response
  // its record stores.
  datatype World = World(now: Time, nextPk: Pk, table: Table, phases: map<Handler, Phase>,
                         log: seq<Event>, latest: map<Slot, nat>, answer: map<Slot, nat>)

  const Start := World(0, 0, map[], map[], [], map[], map[])

  datatype Step =
    | Tick(ticks: nat)
    | Begin(h: Handler, slot: Slot, hash: Hash, ttl: nat)
    | LookUp(h: Handler)
    | Insert(h: Handler)
    | Complete(h: Handler, response: Response)
    | Abandon(h: Handler)
    | Purge(batch: set<Slot>)

  function Open(w: World, h: Handler, slot: Slot, r: Record): World {
    w.(table := w.table[slot := r],
       phases := w.phases[h := Holding(slot, r.pk, r.expiresAt, |w.log|)],
       log := w.log + [Opened(h, slot, r.hash, w.now, r.expiresAt)],
       latest := w.latest[slot := |w.log|])
  }

  function Finish(w: World, h: Handler): World {
    w.(phases := w.phases[h := Finished])
  }

  function DoLookUp(w: World, h: Handler): World {
    if h !in w.phases || !w.phases[h].Looking? then w
    else
      var Looking(slot, hash, expiresAt, tries) := w.phases[h];
      match Look(w.table, slot, hash, expiresAt, w.now)
      case Missing => w.(phases := w.phases[h := Inserting(slot, hash, expiresAt, tries)])
      case TakenOver(r) => Open(w, h, slot, r)
      case Replay(response) => Finish(w, h).(log := w.log + [Served(h, slot, hash, response)])
      case _ => Finish(w, h)
  }

  // The insert fails on the unique constraint when the slot has been taken since the read; the
  // second failure in a row ends the request as still in progress.
  function DoInsert(w: World, h: Handler): World {
    if h !in w.phases || !w.phases[h].Inserting? then w
    else
      var Inserting(slot, hash, expiresAt, tries) := w.phases[h];
      if slot !in w.table then Open(w, h, slot, Record(w.nextPk, hash, Processing, None, expiresAt)).(nextPk := w.nextPk + 1)
      else if tries >= 2 then Finish(w, h)
      else w.(phases := w.phases[h := Looking(slot, hash, expiresAt, tries + 1)])
  }

  function DoComplete(w: World, h: Handler, response: Response): World {
    if h !in w.phases || !w.phases[h].Holding? then w
    else
      var Holding(slot, pk, _, _) := w.phases[h];
      if !Matches(w.table, slot, pk) then Finish(w, h)
      else Finish(w, h).(table := Completing(w.table, slot, pk, response),
                         log := w.log + [Answered(h, slot, response)],
                         answer := w.answer[slot := |w.log|])
  }

  function DoAbandon(w: World, h: Handler): World {
    if h !in w.phases || !w.phases[h].Holding? then w
    else
      var Holding(slot, pk, _, _) := w.phases[h];
      if !Matches(w.table, slot, pk) then Finish(w, h)
      else Finish(w, h).(table := Abandoning(w.table, slot, pk), log := w.log + [Dropped(h, slot)])
  }

  function Next(w: World, s: Step): World {
    match s
    case Tick(n) => w.(now := w.now + n)
    case Begin(h, slot, hash, ttl) =>
      if h in w.phases then w else w.(phases := w.phases[h := Looking(slot, hash, w.now + ttl, 1)])
    case LookUp(h) => DoLookUp(w, h)
    case Insert(h) => DoInsert(w, h)
    case Complete(h, response) => DoComplete(w, h, response)
    case Abandon(h) => DoAbandon(w, h)
    case Purge(batch) => w.(table := Purged(w.table, batch, w.now))
  }

  function Run(w: World, steps: seq<Step>): World
    decreases |steps|
  {
    if steps == [] then w else Run(Next(w, steps[0]), steps[1..])
  }

  // A handler that completes or abandons does so before its claim expires.
  predicate InTime(w: World, s: Step) {
    (s.Complete? || s.Abandon?) && s.h in w.phases && w.phases[s.h].Holding? ==> w.now < w.phases[s.h].expiresAt
  }

  predicate Punctual(w: World, steps: seq<Step>)
    decreases |steps|
  {
    steps == [] || (InTime(w, steps[0]) && Punctual(Next(w, steps[0]), steps[1..]))
  }

  // The record the handler claimed is still there and open, so that its outcome is written.
  predicate Writes(w: World, h: Handler) {
    h in w.phases && w.phases[h].Holding? && Matches(w.table, w.phases[h].slot, w.phases[h].pk)
  }

  // Somebody else has claimed the key since and the new claim has not expired yet.
  predicate Overtaken(w: World, h: Handler)
    requires h in w.phases && w.phases[h].Holding?
  {
    var Holding(slot, pk, _, since) := w.phases[h];
    slot in w.table && slot in w.latest && w.latest[slot] != since && w.now < w.table[slot].expiresAt
  }

  // All that is really needed: no overtaken handler completes or abandons an open record.
  predicate Rightful(w: World, s: Step) {
    (s.Complete? || s.Abandon?) && Writes(w, s.h) ==> !Overtaken(w, s.h)
  }

  predicate AllRightful(w: World, steps: seq<Step>)
    decreases |steps|
  {
    steps == [] || (Rightful(w, steps[0]) && AllRightful(Next(w, steps[0]), steps[1..]))
  }

  // ---- two tries ----

  // A request reads its key at most twice.
  predicate TriesOk(w: World) {
    forall h | h in w.phases ::
      match w.phases[h]
      case Looking(_, _, _, tries) => tries == 1 || tries == 2
      case Inserting(_, _, _, tries) => tries == 1 || tries == 2
      case _ => true
  }

  lemma TriesStep(w: World, s: Step)
    requires TriesOk(w)
    ensures TriesOk(Next(w, s))
  {
  }

  lemma {:induction false} TriesRun(w: World, steps: seq<Step>)
    requires TriesOk(w)
    ensures TriesOk(Run(w, steps))
    decreases |steps|
  {
    if steps != [] {
      TriesStep(w, steps[0]);
      TriesRun(Next(w, steps[0]), steps[1..]);
    }
  }

  // A slot taken since the read sends the request back once, and then ends it.
  lemma LostInsert(w: World, h: Handler)
    requires h in w.phases && w.phases[h].Inserting? && w.phases[h].slot in w.table
    ensures Next(w, Insert(h)) == w.(phases := w.phases[h :=
              if w.phases[h].tries < 2 then Looking(w.phases[h].slot, w.phases[h].hash, w.phases[h].expiresAt, w.phases[h].tries + 1) else Finished])
  {
  }

  // ---- what the log shows ----

  predicate OpensSlot(e: Event, slot: Slot) {
    e.Opened? && e.slot == slot
  }

  predicate DroppedBetween(log: seq<Event>, i: nat, j: nat)
    requires i < j <= |log| && log[i].Opened?
  {
    exists k | i < k < j :: log[k] == Dropped(log[i].who, log[i].slot)
  }

  // Two fresh claims of a slot are separated by the first one's abandon or expiry.
  predicate Separated(log: seq<Event>) {
    forall i, j | 0 <= i < j < |log| && log[i].Opened? && OpensSlot(log[j], log[i].slot) ::
      DroppedBetween(log, i, j) || log[j].at >= log[i].expiresAt
  }

  // The response served at j was stored by the claimant that last since the slot before j,
  // for the same request hash.
  predicate HonestReplay(log: seq<Event>, j: nat)
    requires j < |log| && log[j].Served?
  {
    exists f, k | 0 <= f < k < j ::
      && OpensSlot(log[f], log[j].slot) && log[f].hash == log[j].hash
      && log[k].Answered? && log[k].who == log[f].who && log[k].slot == log[j].slot && log[j].reply == Some(log[k].response)
      && forall i | f < i < j :: !OpensSlot(log[i], log[j].slot)
  }

  predicate HonestReplays(log: seq<Event>) {
    forall j | 0 <= j < |log| && log[j].Served? :: HonestReplay(log, j)
  }

  // ---- invariant ----

  predicate LatestOk(w: World) {
    && (forall s | s in w.latest ::
          w.latest[s] < |w.log| && OpensSlot(w.log[w.latest[s]], s)
          && forall i | w.latest[s] < i < |w.log| :: !OpensSlot(w.log[i], s))
    && (forall i | 0 <= i < |w.log| && w.log[i].Opened? :: w.log[i].slot in w.latest && w.log[i].at <= w.now)
  }

  // The stored record is the latest fresh claim's, neither dropped nor, while it is open,
  // answered since; a completed one still to be replayed has that claimant's answer.
  predicate RecordOk(w: World, s: Slot)
    requires s in w.table
  {
    var r := w.table[s];
    && s in w.latest && w.latest[s] < |w.log| && OpensSlot(w.log[w.latest[s]], s)
    && r.hash == w.log[w.latest[s]].hash && r.expiresAt == w.log[w.latest[s]].expiresAt
    && !DroppedBetween(w.log, w.latest[s], |w.log|)
    && (r.status == Processing ==> !AnsweredSince(w.log, w.latest[s], s))
    && (r.status == Completed && w.now < r.expiresAt ==>
          s in w.answer && w.latest[s] < w.answer[s] < |w.log| && r.response.Some?
          && w.log[w.answer[s]] == Answered(w.log[w.latest[s]].who, s, r.response.value))
  }

  predicate AnsweredSince(log: seq<Event>, i: nat, s: Slot) {
    exists k | i < k < |log| :: log[k].Answered? && log[k].slot == s
  }

  predicate RecordsOk(w: World) {
    && (forall s | s in w.table :: RecordOk(w, s))
    && (forall s | s in w.latest && s !in w.table :: ClaimIsOver(w, s))
  }

  // A live claimant owns the stored record.
  predicate HolderOk(w: World, h: Handler)
    requires h in w.phases && w.phases[h].Holding?
  {
    var Holding(slot, pk, expiresAt, since) := w.phases[h];
    && since < |w.log| && OpensSlot(w.log[since], slot) && w.log[since].who == h && w.log[since].expiresAt == expiresAt
    && (w.now < expiresAt ==>
          slot in w.table && slot in w.latest && w.latest[slot] == since
          && w.table[slot].pk == pk && w.table[slot].status == Processing)
  }

  predicate HoldersOk(w: World) {
    forall h | h in w.phases && w.phases[h].Holding? :: HolderOk(w, h)
  }

  // A handler claims at most once.
  predicate ClaimsOk(w: World) {
    forall i | 0 <= i < |w.log| && w.log[i].Opened? ::
      var who := w.log[i].who;
      who in w.phases && (w.phases[who].Finished? || (w.phases[who].Holding? && w.phases[who].since == i))
  }

  predicate Inv(w: World) {
    LatestOk(w) && RecordsOk(w) && HoldersOk(w) && ClaimsOk(w) && Separated(w.log) && HonestReplays(w.log)
  }

  // ---- every step keeps it ----

  lemma DroppedStays(log: seq<Event>, more: seq<Event>, i: nat, j: nat)
    requires i < j <= |log| && log[i].Opened? && DroppedBetween(log, i, j)
    requires j <= |log + more|
    ensures DroppedBetween(log + more, i, j) && DroppedBetween(log + more, i, |log + more|)
  {
    var k :| i < k < j && log[k] == Dropped(log[i].who, log[i].slot);
    assert (log + more)[k] == log[k];
  }

  lemma AppendKeepsReplays(log: seq<Event>, e: Event)
    requires HonestReplays(log)
    requires e.Served? ==> HonestReplay(log + [e], |log|)
    ensures HonestReplays(log + [e])
  {
    var log' := log + [e];
    forall j | 0 <= j < |log'| && log'[j].Served? ensures HonestReplay(log', j) {
      if j < |log| {
        assert HonestReplay(log, j);
        var f, k :| 0 <= f < k < j
          && OpensSlot(log[f], log[j].slot) && log[f].hash == log[j].hash
          && log[k].Answered? && log[k].who == log[f].who && log[k].slot == log[j].slot && log[j].reply == Some(log[k].response)
          && forall i | f < i < j :: !OpensSlot(log[i], log[j].slot);
        assert log'[f] == log[f] && log'[k] == log[k] && log'[j] == log[j];
      }
    }
  }

  lemma AppendKeepsSeparation(log: seq<Event>, e: Event)
    requires Separated(log)
    requires e.Opened? ==> forall i | 0 <= i < |log| && OpensSlot(log[i], e.slot) ::
               DroppedBetween(log, i, |log|) || e.at >= log[i].expiresAt
    ensures Separated(log + [e])
  {
    var log' := log + [e];
    forall i, j | 0 <= i < j < |log'| && log'[i].Opened? && OpensSlot(log'[j], log'[i].slot)
      ensures DroppedBetween(log', i, j) || log'[j].at >= log'[i].expiresAt
    {
      if log[i].expiresAt > log'[j].at {
        assert DroppedBetween(log, i, j);
        DroppedStays(log, [e], i, j);
      }
    }
  }

  // A slot that is free, or whose record has expired, may be since: every earlier claim is over.
  lemma EarlierClaimsAreOver(w: World, slot: Slot, i: nat)
    requires Inv(w)
    requires slot in w.table ==> w.table[slot].expiresAt <= w.now
    requires i < |w.log| && OpensSlot(w.log[i], slot)
    ensures DroppedBetween(w.log, i, |w.log|) || w.now >= w.log[i].expiresAt
  {
    var f := w.latest[slot];
    if slot in w.table {
      assert RecordOk(w, slot);
    }
    if i < f && !(w.log[f].at >= w.log[i].expiresAt) {
      assert DroppedBetween(w.log, i, f);
      DroppedStays(w.log, [], i, f);
      assert w.log + [] == w.log;
    }
  }

  lemma OpenKeepsHolders(w: World, h: Handler, slot: Slot, r: Record)
    requires Inv(w) && (slot in w.table ==> w.table[slot].expiresAt <= w.now)
    requires r.status == Processing && !(h in w.phases && w.phases[h].Holding?)
    ensures HoldersOk(Open(w, h, slot, r))
  {
    var w' := Open(w, h, slot, r);
    forall g | g in w'.phases && w'.phases[g].Holding? ensures HolderOk(w', g) {
      if g != h {
        assert HolderOk(w, g);
        if slot in w.table {
          assert RecordOk(w, slot);
        }
      }
    }
  }

  lemma OpenKeepsLog(w: World, slot: Slot, e: Event)
    requires Inv(w) && (slot in w.table ==> w.table[slot].expiresAt <= w.now)
    requires e.Opened? && e.slot == slot && e.at == w.now
    ensures Separated(w.log + [e]) && HonestReplays(w.log + [e])
  {
    forall i | 0 <= i < |w.log| && OpensSlot(w.log[i], slot)
      ensures DroppedBetween(w.log, i, |w.log|) || w.now >= w.log[i].expiresAt
    {
      EarlierClaimsAreOver(w, slot, i);
    }
    AppendKeepsSeparation(w.log, e);
    AppendKeepsReplays(w.log, e);
  }

  lemma OpenKeepsClaims(w: World, h: Handler, slot: Slot, r: Record)
    requires ClaimsOk(w) && !(h in w.phases && (w.phases[h].Holding? || w.phases[h].Finished?))
    ensures ClaimsOk(Open(w, h, slot, r))
  {
  }

  lemma NewRecordIsOk(w: World, h: Handler, slot: Slot, r: Record)
    requires r.status == Processing
    ensures RecordOk(Open(w, h, slot, r), slot)
  {
  }

  lemma OpenKeepsRecords(w: World, h: Handler, slot: Slot, r: Record)
    requires Inv(w) && r.status == Processing
    ensures LatestOk(Open(w, h, slot, r)) && RecordsOk(Open(w, h, slot, r))
  {
    var e := Opened(h, slot, r.hash, w.now, r.expiresAt);
    var w' := Open(w, h, slot, r);
    OtherSlotsKeep(w, w', e, slot);
    EventKeepsLatest(w, w', e);
    NewRecordIsOk(w, h, slot, r);
  }

  lemma OpenKeeps(w: World, h: Handler, slot: Slot, r: Record, nextPk: Pk)
    requires Inv(w) && (slot in w.table ==> w.table[slot].expiresAt <= w.now)
    requires r.status == Processing && !(h in w.phases && (w.phases[h].Holding? || w.phases[h].Finished?))
    ensures Inv(Open(w, h, slot, r).(nextPk := nextPk))
  {
    OpenKeepsRecords(w, h, slot, r);
    OpenKeepsLog(w, slot, Opened(h, slot, r.hash, w.now, r.expiresAt));
    OpenKeepsHolders(w, h, slot, r);
    OpenKeepsClaims(w, h, slot, r);
    NextPkIsFree(Open(w, h, slot, r), nextPk);
  }

  lemma NextPkIsFree(w: World, nextPk: Pk)
    requires Inv(w)
    ensures Inv(w.(nextPk := nextPk))
  {
    var w' := w.(nextPk := nextPk);
    forall s | s in w'.table ensures RecordOk(w', s) {
      assert RecordOk(w, s);
    }
    forall g | g in w'.phases && w'.phases[g].Holding? ensures HolderOk(w', g) {
      assert HolderOk(w, g);
    }
  }

  // Only the slot of an event is touched by it.
  predicate OnlySlot(w: World, w': World, slot: Slot) {
    && w'.now == w.now
    && (forall s | s in w.table && s != slot :: s in w'.table && w'.table[s] == w.table[s])
    && (forall s | s in w'.table && s != slot :: s in w.table)
    && (forall s | s in w.latest && s != slot :: s in w'.latest && w'.latest[s] == w.latest[s])
    && (forall s | s in w'.latest && s != slot :: s in w.latest)
    && (forall s | s in w.answer && s != slot :: s in w'.answer && w'.answer[s] == w.answer[s])
  }

  predicate ClaimIsOver(w: World, s: Slot)
    requires s in w.latest
  {
    w.latest[s] < |w.log| && w.log[w.latest[s]].Opened?
    && (DroppedBetween(w.log, w.latest[s], |w.log|) || w.now >= w.log[w.latest[s]].expiresAt)
  }

  // Appending one event about `slot` leaves the records of the other slots in order.
  lemma OtherSlotsKeep(w: World, w': World, e: Event, slot: Slot)
    requires RecordsOk(w) && w'.log == w.log + [e] && e.slot == slot && OnlySlot(w, w', slot)
    ensures forall s | s in w'.table && s != slot :: RecordOk(w', s)
    ensures forall s | s in w'.latest && s !in w'.table && s != slot :: ClaimIsOver(w', s)
  {
    forall s | s in w'.table && s != slot ensures RecordOk(w', s) {
      OtherRecordStays(w, w', e, s);
    }
    forall s | s in w'.latest && s !in w'.table && s != slot ensures ClaimIsOver(w', s) {
      assert ClaimIsOver(w, s);
      if w.now < w.log[w.latest[s]].expiresAt {
        DroppedStays(w.log, [e], w.latest[s], |w.log|);
      }
    }
  }

  lemma OtherRecordStays(w: World, w': World, e: Event, s: Slot)
    requires s in w.table && RecordOk(w, s) && w'.log == w.log + [e] && e.slot != s && OnlySlot(w, w', e.slot)
    ensures RecordOk(w', s)
  {
    assert forall k | 0 <= k < |w.log| :: w'.log[k] == w.log[k];
  }

  lemma ServedIsHonest(w: World, e: Event)
    requires LatestOk(w) && e.Served? && e.slot in w.table && RecordOk(w, e.slot) && w.now < w.table[e.slot].expiresAt
    requires w.table[e.slot].status == Completed && w.table[e.slot].hash == e.hash && w.table[e.slot].response == e.reply
    ensures HonestReplay(w.log + [e], |w.log|)
  {
    assert RecordOk(w, e.slot);
    var log, f, k := w.log + [e], w.latest[e.slot], w.answer[e.slot];
    assert log[f] == w.log[f] && log[k] == w.log[k] && log[|w.log|] == e;
    assert OpensSlot(log[f], e.slot) && log[k].Answered?;
  }

  lemma EventKeepsLatest(w: World, w': World, e: Event)
    requires LatestOk(w) && w'.log == w.log + [e] && w'.now == w.now
    requires if e.Opened? then e.at == w.now && w'.latest == w.latest[e.slot := |w.log|] else w'.latest == w.latest
    ensures LatestOk(w')
  {
  }

  // A handler ends with one event about its slot.
  lemma EndingKeeps(w: World, w': World, h: Handler, e: Event)
    requires Inv(w) && !e.Opened? && (e.Served? ==> HonestReplay(w.log + [e], |w.log|))
    requires w' == Finish(w, h).(table := w'.table, log := w.log + [e], answer := w'.answer)
    requires OnlySlot(w, w', e.slot)
    requires e.slot in w'.table ==> RecordOk(w', e.slot)
    requires e.slot in w.latest && e.slot !in w'.table ==>
               DroppedBetween(w'.log, w.latest[e.slot], |w'.log|) || w.now >= w.log[w.latest[e.slot]].expiresAt
    requires forall g | g != h && g in w.phases && w.phases[g].Holding? :: HolderOk(w', g)
    ensures Inv(w')
  {
    AppendKeepsReplays(w.log, e);
    AppendKeepsSeparation(w.log, e);
    EndingKeepsRecords(w, w', h, e);
    EndingKeepsClaims(w, w', h, e);
  }

  lemma EndingKeepsRecords(w: World, w': World, h: Handler, e: Event)
    requires Inv(w) && !e.Opened?
    requires w' == Finish(w, h).(table := w'.table, log := w.log + [e], answer := w'.answer)
    requires OnlySlot(w, w', e.slot)
    requires e.slot in w'.table ==> RecordOk(w', e.slot)
    requires e.slot in w.latest && e.slot !in w'.table ==>
               DroppedBetween(w'.log, w.latest[e.slot], |w'.log|) || w.now >= w.log[w.latest[e.slot]].expiresAt
    ensures LatestOk(w') && RecordsOk(w')
  {
    OtherSlotsKeep(w, w', e, e.slot);
    EventKeepsLatest(w, w', e);
  }

  lemma EndingKeepsClaims(w: World, w': World, h: Handler, e: Event)
    requires ClaimsOk(w) && !e.Opened? && w'.log == w.log + [e] && w'.phases == w.phases[h := Finished]
    ensures ClaimsOk(w')
  {
  }

  lemma ServeKeeps(w: World, h: Handler)
    requires Inv(w) && h in w.phases && w.phases[h].Looking?
    requires Look(w.table, w.phases[h].slot, w.phases[h].hash, w.phases[h].expiresAt, w.now).Replay?
    ensures Inv(DoLookUp(w, h))
  {
    var w' := DoLookUp(w, h);
    var slot := w.phases[h].slot;
    var e := Served(h, slot, w.phases[h].hash, w.table[slot].response);
    ServedIsHonest(w, e);
    ServingLeavesRecord(w, w', slot, e);
    ServingLeavesHolders(w, w', h);
    EndingKeeps(w, w', h, e);
  }

  lemma ServingLeavesRecord(w: World, w': World, slot: Slot, e: Event)
    requires slot in w.table && RecordOk(w, slot) && e.Served?
    requires w' == w.(phases := w'.phases, log := w.log + [e])
    ensures RecordOk(w', slot)
  {
  }

  lemma ServingLeavesHolders(w: World, w': World, h: Handler)
    requires HoldersOk(w) && w.log <= w'.log && w' == w.(phases := w'.phases, log := w'.log)
    requires w'.phases == w.phases[h := Finished]
    ensures forall g | g != h && g in w.phases && w.phases[g].Holding? :: HolderOk(w', g)
  {
    forall g | g != h && g in w.phases && w.phases[g].Holding? ensures HolderOk(w', g) {
      assert HolderOk(w, g);
    }
  }

  lemma LookUpKeeps(w: World, h: Handler)
    requires Inv(w)
    ensures Inv(DoLookUp(w, h))
  {
    if h in w.phases && w.phases[h].Looking? {
      var Looking(slot, hash, expiresAt, tries) := w.phases[h];
      match Look(w.table, slot, hash, expiresAt, w.now)
      case TakenOver(r) => OpenKeeps(w, h, slot, r, w.nextPk);
      case Replay(_) => ServeKeeps(w, h);
      case _ => PhaseKeeps(w, DoLookUp(w, h), h);
    }
  }

  // A step that only moves a handler out of or between claim phases.
  lemma PhaseKeeps(w: World, w': World, h: Handler)
    requires Inv(w)
    requires h in w'.phases && !w'.phases[h].Holding?
    requires w' == w.(phases := w.phases[h := w'.phases[h]])
    requires w'.phases[h].Finished? || !(h in w.phases && (w.phases[h].Holding? || w.phases[h].Finished?))
    ensures Inv(w')
  {
    forall g | g in w'.phases && w'.phases[g].Holding? ensures HolderOk(w', g) {
      assert HolderOk(w, g);
    }
    forall s | s in w'.table ensures RecordOk(w', s) {
      assert RecordOk(w, s);
    }
  }

  lemma InsertNewKeeps(w: World, h: Handler)
    requires Inv(w) && h in w.phases && w.phases[h].Inserting? && w.phases[h].slot !in w.table
    ensures Inv(DoInsert(w, h))
  {
    var p := w.phases[h];
    var r := Record(w.nextPk, p.hash, Processing, None, p.expiresAt);
    assert DoInsert(w, h) == Open(w, h, p.slot, r).(nextPk := w.nextPk + 1);
    OpenKeeps(w, h, p.slot, r, w.nextPk + 1);
  }

  lemma InsertFailedKeeps(w: World, h: Handler)
    requires Inv(w) && h in w.phases && w.phases[h].Inserting? && w.phases[h].slot in w.table
    ensures Inv(DoInsert(w, h))
  {
    PhaseKeeps(w, DoInsert(w, h), h);
  }

  lemma InsertKeeps(w: World, h: Handler)
    requires Inv(w)
    ensures Inv(DoInsert(w, h))
  {
    if !(h in w.phases && w.phases[h].Inserting?) {
      assert DoInsert(w, h) == w;
    } else if w.phases[h].slot !in w.table {
      InsertNewKeeps(w, h);
    } else {
      InsertFailedKeeps(w, h);
    }
  }

  // No live claimant holds the slot of a handler that is not overtaken.
  lemma OthersAreElsewhere(w: World, h: Handler, g: Handler)
    requires Inv(w) && g != h && h in w.phases && w.phases[h].Holding? && w.phases[h].slot in w.table && !Overtaken(w, h)
    requires g in w.phases && w.phases[g].Holding?
    ensures w.phases[g].slot != w.phases[h].slot || w.now >= w.phases[g].expiresAt
  {
    assert HolderOk(w, g) && HolderOk(w, h) && RecordOk(w, w.phases[h].slot);
  }

  // When an unovertaken handler ends, the claims of the other live handlers stand.
  lemma OthersStand(w: World, w': World, h: Handler)
    requires Inv(w) && Writes(w, h) && !Overtaken(w, h)
    requires w'.phases == w.phases[h := Finished] && w'.now == w.now && w'.latest == w.latest && w.log <= w'.log
    requires forall s | s != w.phases[h].slot && s in w.table :: s in w'.table && w'.table[s] == w.table[s]
    ensures forall g | g != h && g in w.phases && w.phases[g].Holding? :: HolderOk(w', g)
  {
    forall g | g != h && g in w.phases && w.phases[g].Holding? ensures HolderOk(w', g) {
      OthersAreElsewhere(w, h, g);
      assert HolderOk(w, g);
    }
  }

  lemma NotDroppedNow(log: seq<Event>, i: nat, e: Event)
    requires i < |log| && log[i].Opened? && !DroppedBetween(log, i, |log|) && !e.Dropped?
    ensures !DroppedBetween(log + [e], i, |log + [e]|)
  {
    assert forall k | 0 <= k < |log| :: (log + [e])[k] == log[k];
  }

  lemma AnsweredRecordIsOk(w: World, h: Handler, response: Response)
    requires Inv(w) && Writes(w, h) && !Overtaken(w, h)
    ensures RecordOk(DoComplete(w, h, response), w.phases[h].slot)
  {
    var slot := w.phases[h].slot;
    assert HolderOk(w, h) && RecordOk(w, slot);
    NotDroppedNow(w.log, w.latest[slot], Answered(h, slot, response));
  }

  lemma CompleteKeeps(w: World, h: Handler, response: Response)
    requires Inv(w) && Writes(w, h) && !Overtaken(w, h)
    ensures Inv(DoComplete(w, h, response))
  {
    var w' := DoComplete(w, h, response);
    AnsweredRecordIsOk(w, h, response);
    OthersStand(w, w', h);
    EndingKeeps(w, w', h, Answered(h, w.phases[h].slot, response));
  }

  lemma AbandonKeeps(w: World, h: Handler)
    requires Inv(w) && Writes(w, h) && !Overtaken(w, h)
    ensures Inv(DoAbandon(w, h))
  {
    var slot := w.phases[h].slot;
    var w' := DoAbandon(w, h);
    assert HolderOk(w, h) && RecordOk(w, slot);
    assert w'.log[|w.log|] == Dropped(h, slot);
    OthersStand(w, w', h);
    EndingKeeps(w, w', h, Dropped(h, slot));
  }

  // The claimant that overtook a handler is another handler.
  lemma OvertakerIsAnother(w: World, h: Handler)
    requires Inv(w) && Writes(w, h) && Overtaken(w, h)
    ensures w.latest[w.phases[h].slot] < |w.log| && w.log[w.latest[w.phases[h].slot]].Opened?
    ensures w.log[w.latest[w.phases[h].slot]].who != h
  {
    assert RecordOk(w, w.phases[h].slot);
  }

  lemma OvertakenCompletionBreaks(w: World, h: Handler, response: Response)
    requires Inv(w) && Writes(w, h) && Overtaken(w, h)
    ensures !Inv(DoComplete(w, h, response))
  {
    var slot := w.phases[h].slot;
    var w' := DoComplete(w, h, response);
    OvertakerIsAnother(w, h);
    assert RecordOk(w, slot);
    assert w'.log[w'.answer[slot]].who == h && w'.log[w'.latest[slot]] == w.log[w.latest[slot]];
    assert !RecordOk(w', slot);
  }

  lemma OthersDropKeepsOut(log: seq<Event>, i: nat, e: Event)
    requires i < |log| && log[i].Opened? && !DroppedBetween(log, i, |log|) && e.Dropped? && e.who != log[i].who
    ensures !DroppedBetween(log + [e], i, |log + [e]|)
  {
    assert forall k | 0 <= k < |log| :: (log + [e])[k] == log[k];
  }

  lemma OvertakenAbandonBreaks(w: World, h: Handler)
    requires Inv(w) && Writes(w, h) && Overtaken(w, h)
    ensures !Inv(DoAbandon(w, h))
  {
    var slot := w.phases[h].slot;
    var w' := DoAbandon(w, h);
    OvertakerIsAnother(w, h);
    assert RecordOk(w, slot);
    var i := w.latest[slot];
    assert slot in w'.latest && slot !in w'.table && w'.log[i] == w.log[i];
    OthersDropKeepsOut(w.log, i, Dropped(h, slot));
  }

  // Time passes, and expired records may go.
  predicate Ages(w: World, w': World) {
    && w'.now >= w.now && w' == w.(now := w'.now, table := w'.table)
    && (forall s | s in w'.table :: s in w.table && w'.table[s] == w.table[s])
    && (forall s | s in w.table && s !in w'.table :: w.table[s].expiresAt <= w.now)
  }

  lemma TickOrPurgeKeeps(w: World, w': World)
    requires Inv(w) && Ages(w, w')
    ensures Inv(w')
  {
    RecordsOutlast(w, w');
    HoldersOutlast(w, w');
  }

  lemma RecordsOutlast(w: World, w': World)
    requires RecordsOk(w) && Ages(w, w')
    ensures RecordsOk(w')
  {
    forall s | s in w'.table ensures RecordOk(w', s) {
      assert RecordOk(w, s);
    }
    forall s | s in w'.latest && s !in w'.table ensures ClaimIsOver(w', s) {
      if s in w.table {
        assert RecordOk(w, s);
      } else {
        assert ClaimIsOver(w, s);
      }
    }
  }

  lemma HoldersOutlast(w: World, w': World)
    requires HoldersOk(w) && RecordsOk(w) && Ages(w, w')
    ensures HoldersOk(w')
  {
    forall g | g in w'.phases && w'.phases[g].Holding? ensures HolderOk(w', g) {
      assert HolderOk(w, g);
      if w.phases[g].slot in w.table {
        assert RecordOk(w, w.phases[g].slot);
      }
    }
  }

  lemma OtherStepsKeep(w: World, s: Step)
    requires Inv(w) && !s.Complete? && !s.Abandon?
    ensures Inv(Next(w, s))
  {
    match s
    case Tick(n) => TickOrPurgeKeeps(w, Next(w, s));
    case Begin(h, slot, hash, ttl) => if h !in w.phases { PhaseKeeps(w, Next(w, s), h); }
    case LookUp(h) => LookUpKeeps(w, h);
    case Insert(h) => InsertKeeps(w, h);
    case Purge(batch) => TickOrPurgeKeeps(w, Next(w, s));
  }

  // A completion keeps the protocol intact if and only if it writes nothing or its handler is
  // not overtaken.
  lemma CompletionExact(w: World, h: Handler, response: Response)
    requires Inv(w)
    ensures Inv(DoComplete(w, h, response)) <==> Rightful(w, Complete(h, response))
  {
    if Writes(w, h) {
      if Overtaken(w, h) {
        OvertakenCompletionBreaks(w, h, response);
      } else {
        CompleteKeeps(w, h, response);
      }
    } else if h in w.phases && w.phases[h].Holding? {
      PhaseKeeps(w, DoComplete(w, h, response), h);
    }
  }

  lemma AbandonExact(w: World, h: Handler)
    requires Inv(w)
    ensures Inv(DoAbandon(w, h)) <==> Rightful(w, Abandon(h))
  {
    if Writes(w, h) {
      if Overtaken(w, h) {
        OvertakenAbandonBreaks(w, h);
      } else {
        AbandonKeeps(w, h);
      }
    } else if h in w.phases && w.phases[h].Holding? {
      PhaseKeeps(w, DoAbandon(w, h), h);
    }
  }

  // Every step keeps the invariant if and only if it is rightful.
  lemma StepExact(w: World, s: Step)
    requires Inv(w)
    ensures Inv(Next(w, s)) <==> Rightful(w, s)
  {
    match s
    case Complete(h, response) => CompletionExact(w, h, response);
    case Abandon(h) => AbandonExact(w, h);
    case _ => OtherStepsKeep(w, s);
  }

  lemma {:induction false} RunKeeps(w: World, steps: seq<Step>)
    requires Inv(w) && AllRightful(w, steps)
    ensures Inv(Run(w, steps))
    decreases |steps|
  {
    if steps != [] {
      StepExact(w, steps[0]);
      RunKeeps(Next(w, steps[0]), steps[1..]);
    }
  }

  lemma InTimeIsRightful(w: World, s: Step)
    requires Inv(w) && InTime(w, s)
    ensures Rightful(w, s)
  {
    if (s.Complete? || s.Abandon?) && Writes(w, s.h) {
      assert HolderOk(w, s.h);
    }
  }

  // Handlers that finish before their claim expires are never overtaken.
  lemma {:induction false} PunctualIsRightful(w: World, steps: seq<Step>)
    requires Inv(w) && Punctual(w, steps)
    ensures AllRightful(w, steps)
    decreases |steps|
  {
    if steps != [] {
      InTimeIsRightful(w, steps[0]);
      StepExact(w, steps[0]);
      PunctualIsRightful(Next(w, steps[0]), steps[1..]);
    }
  }

  // ---- the protocol's promises ----

  predicate LiveClaim(w: World, h: Handler, slot: Slot) {
    h in w.phases && w.phases[h].Holding? && w.phases[h].slot == slot && w.now < w.phases[h].expiresAt
  }

  ghost predicate KeepsPromises(w: World) {
    && (forall slot, g, h | LiveClaim(w, g, slot) && LiveClaim(w, h, slot) :: g == h)
    && Separated(w.log)
    && HonestReplays(w.log)
  }

  // Over every run without an overtaken writer: one live claimant per slot, fresh claims
  // separated by an abandon or an expiry, and every replay is what the last claimant stored for
  // the same request.
  lemma ProtocolHolds(steps: seq<Step>)
    requires AllRightful(Start, steps)
    ensures KeepsPromises(Run(Start, steps))
  {
    RunKeeps(Start, steps);
    var w := Run(Start, steps);
    forall slot, g, h | LiveClaim(w, g, slot) && LiveClaim(w, h, slot) ensures g == h {
      assert HolderOk(w, g) && HolderOk(w, h);
    }
  }

  // In particular over every run whose handlers finish in time.
  lemma PunctualRunsKeepPromises(steps: seq<Step>)
    requires Punctual(Start, steps)
    ensures KeepsPromises(Run(Start, steps))
  {
    PunctualIsRightful(Start, steps);
    ProtocolHolds(steps);
  }

  // ---- what an overtaken handler does ----

  // Completing an open record and serving it to the next request with its hash is honest if and
  // only if the handler has not been overtaken.
  lemma AnswerIsHonestExactly(w: World, h: Handler, response: Response, g: Handler)
    requires Inv(w) && Writes(w, h) && AsksAgain(w, h, g)
    ensures var log := DoLookUp(DoComplete(w, h, response), g).log;
            && log == w.log + [Answer(w, h, response)] + [Reply(w, g, response)]
            && (HonestReplay(log, |w.log| + 1) <==> !Overtaken(w, h))
  {
    CompletedIsServed(w, h, response, g);
    if Overtaken(w, h) {
      OvertakenAnswerIsDishonest(w, h, response, w.log + [Answer(w, h, response)] + [Reply(w, g, response)]);
    } else {
      OwnAnswerIsHonest(w, h, response, g);
    }
  }

  // Another request for the same record with the same hash, while it has not expired.
  predicate AsksAgain(w: World, h: Handler, g: Handler)
    requires Writes(w, h)
  {
    && g != h && g in w.phases && w.phases[g].Looking?
    && w.phases[g].slot == w.phases[h].slot
    && w.phases[g].hash == w.table[w.phases[h].slot].hash && w.now < w.table[w.phases[h].slot].expiresAt
  }

  function Answer(w: World, h: Handler, response: Response): Event
    requires Writes(w, h)
  {
    Answered(h, w.phases[h].slot, response)
  }

  function Reply(w: World, g: Handler, response: Response): Event
    requires g in w.phases && w.phases[g].Looking?
  {
    Served(g, w.phases[g].slot, w.phases[g].hash, Some(response))
  }

  lemma OwnAnswerIsHonest(w: World, h: Handler, response: Response, g: Handler)
    requires Inv(w) && Writes(w, h) && AsksAgain(w, h, g) && !Overtaken(w, h)
    ensures HonestReplay(w.log + [Answer(w, h, response)] + [Reply(w, g, response)], |w.log| + 1)
  {
    CompletedRecordCanBeServed(w, h, response);
    ServedIsHonest(DoComplete(w, h, response), Reply(w, g, response));
  }

  lemma CompletedRecordCanBeServed(w: World, h: Handler, response: Response)
    requires Inv(w) && Writes(w, h) && !Overtaken(w, h)
    ensures var w', slot := DoComplete(w, h, response), w.phases[h].slot;
            && LatestOk(w') && slot in w'.table && RecordOk(w', slot) && w'.log == w.log + [Answer(w, h, response)] && w'.now == w.now
            && w'.table[slot] == w.table[slot].(status := Completed, response := Some(response))
  {
    AnsweredRecordIsOk(w, h, response);
    EventKeepsLatest(w, DoComplete(w, h, response), Answer(w, h, response));
  }

  lemma CompletedIsServed(w: World, h: Handler, response: Response, g: Handler)
    requires Writes(w, h) && AsksAgain(w, h, g)
    ensures DoLookUp(DoComplete(w, h, response), g).log == w.log + [Answer(w, h, response)] + [Reply(w, g, response)]
  {
  }

  // If the one answer since the last claim of a slot is served honestly, it is the claimant's own.
  lemma HonestAnswerIsOwn(log: seq<Event>, last: nat, n: nat, slot: Slot)
    requires last < n && |log| == n + 2 && OpensSlot(log[last], slot)
    requires forall i | last < i < n :: !OpensSlot(log[i], slot)
    requires !AnsweredSince(log[..n], last, slot)
    requires log[n].Answered? && log[n + 1].Served? && log[n + 1].slot == slot && HonestReplay(log, n + 1)
    ensures log[last].who == log[n].who
  {
    assert forall i | 0 <= i < n :: log[..n][i] == log[i];
    var j := n + 1;
    var f, k :| 0 <= f < k < j
      && OpensSlot(log[f], log[j].slot) && log[f].hash == log[j].hash
      && log[k].Answered? && log[k].who == log[f].who && log[k].slot == log[j].slot && log[j].reply == Some(log[k].response)
      && forall i | f < i < j :: !OpensSlot(log[i], log[j].slot);
    assert f == last;
  }

  lemma OvertakenAnswerIsDishonest(w: World, h: Handler, response: Response, log: seq<Event>)
    requires Inv(w) && Writes(w, h) && Overtaken(w, h)
    requires |log| == |w.log| + 2 && log[..|w.log|] == w.log && log[|w.log|] == Answer(w, h, response)
    requires log[|w.log| + 1].Served? && log[|w.log| + 1].slot == w.phases[h].slot
    ensures !HonestReplay(log, |w.log| + 1)
  {
    var slot := w.phases[h].slot;
    OvertakerIsAnother(w, h);
    assert RecordOk(w, slot);
    LastClaimIsLast(w, slot, log);
    if HonestReplay(log, |w.log| + 1) {
      HonestAnswerIsOwn(log, w.latest[slot], |w.log|, slot);
    }
  }

  lemma LastClaimIsLast(w: World, slot: Slot, log: seq<Event>)
    requires LatestOk(w) && slot in w.latest && |log| >= |w.log| && log[..|w.log|] == w.log
    ensures w.latest[slot] < |w.log| && log[w.latest[slot]] == w.log[w.latest[slot]] && OpensSlot(log[w.latest[slot]], slot)
    ensures forall i | w.latest[slot] < i < |w.log| :: !OpensSlot(log[i], slot)
  {
    assert forall i | 0 <= i < |w.log| :: log[i] == w.log[i];
  }

  // Abandoning an open record and letting the next request claim the key keeps claims separated if
  // and only if the handler has not been overtaken.
  lemma NextClaimIsSeparatedExactly(w: World, h: Handler, g: Handler)
    requires Inv(w) && Writes(w, h)
    requires g in w.phases && w.phases[g].Inserting? && w.phases[g].slot == w.phases[h].slot
    ensures var w' := DoInsert(DoAbandon(w, h), g);
            w'.phases[g].Holding? && (Separated(w'.log) <==> !Overtaken(w, h))
  {
    if Overtaken(w, h) {
      OvertakenAbandonDoesNotSeparate(w, h, g);
    } else {
      OwnAbandonSeparates(w, h, g);
    }
  }

  lemma OwnAbandonSeparates(w: World, h: Handler, g: Handler)
    requires Inv(w) && Writes(w, h) && !Overtaken(w, h)
    ensures Separated(DoInsert(DoAbandon(w, h), g).log)
  {
    AbandonKeeps(w, h);
    InsertKeeps(DoAbandon(w, h), g);
  }

  lemma OvertakenAbandonDoesNotSeparate(w: World, h: Handler, g: Handler)
    requires Inv(w) && Writes(w, h) && Overtaken(w, h)
    requires g in w.phases && w.phases[g].Inserting? && w.phases[g].slot == w.phases[h].slot
    ensures !Separated(DoInsert(DoAbandon(w, h), g).log)
  {
    var slot := w.phases[h].slot;
    OvertakerIsAnother(w, h);
    assert RecordOk(w, slot);
    OthersDropKeepsOut(w.log, w.latest[slot], Dropped(h, slot));
    NotSeparated(w.log + [Dropped(h, slot)], w.latest[slot], DoInsert(DoAbandon(w, h), g).log);
  }

  // A claim that comes before the last one of its key is dropped or expired.
  lemma NotSeparated(log: seq<Event>, i: nat, log': seq<Event>)
    requires i < |log| && |log'| == |log| + 1 && log'[..|log|] == log
    requires log[i].Opened? && !DroppedBetween(log, i, |log|)
    requires OpensSlot(log'[|log|], log[i].slot) && log'[|log|].at < log[i].expiresAt
    ensures !Separated(log')
  {
    assert forall k | 0 <= k < |log| :: log'[k] == log[k];
    assert !DroppedBetween(log', i, |log|);
  }

  // ---- concrete runs with an overtaken handler ----

  lemma {:induction false} RunAppend(w: World, first: seq<Step>, more: seq<Step>)
    ensures Run(w, first + more) == Run(Run(w, first), more)
    decreases |first|
  {
    if first == [] {
      assert first + more == more;
    } else {
      assert (first + more)[1..] == first[1..] + more;
      RunAppend(Next(w, first[0]), first[1..], more);
    }
  }

  lemma Peel(w: World, steps: seq<Step>, i: nat)
    requires i < |steps|
    ensures Run(w, steps[i..]) == Run(Next(w, steps[i]), steps[i + 1..])
  {
    assert steps[i..][0] == steps[i] && steps[i..][1..] == steps[i + 1..];
  }

  // Two requests claim one slot in turn, the second when the first claim has expired.
  function Contest(slot: Slot): seq<Step> {
    [Begin(0, slot, "old", 1), LookUp(0), Insert(0), Tick(1), Begin(1, slot, "new", 9), LookUp(1)]
  }

  function FirstClaim(slot: Slot): World {
    Start.(nextPk := 1,
      table := map[slot := Record(0, "old", Processing, None, 1)],
      phases := map[0 := Holding(slot, 0, 1, 0)],
      log := [Opened(0, slot, "old", 0, 1)], latest := map[slot := 0])
  }

  function TakenOverWorld(slot: Slot): World {
    Start.(now := 1, nextPk := 1,
      table := map[slot := Record(0, "new", Processing, None, 10)],
      phases := map[0 := Holding(slot, 0, 1, 0), 1 := Holding(slot, 0, 10, 1)],
      log := [Opened(0, slot, "old", 0, 1), Opened(1, slot, "new", 1, 10)], latest := map[slot := 1])
  }

  lemma FirstClaimReached(slot: Slot)
    ensures Run(Start, Contest(slot)) == Run(FirstClaim(slot), Contest(slot)[3..])
  {
    var s := Contest(slot);
    assert s[0..] == s;
    Peel(Start, s, 0);
    var w1 := Next(Start, s[0]);
    Peel(w1, s, 1);
    var w2 := Next(w1, s[1]);
    assert w2.phases == map[0 := Inserting(slot, "old", 1, 1)];
    Peel(w2, s, 2);
    assert Next(w2, s[2]) == FirstClaim(slot);
  }

  lemma TakeoverReached(slot: Slot)
    ensures Run(Start, Contest(slot)) == TakenOverWorld(slot)
  {
    FirstClaimReached(slot);
    var s, w3 := Contest(slot), FirstClaim(slot);
    Peel(w3, s, 3);
    var w4 := Next(w3, s[3]);
    Peel(w4, s, 4);
    var w5 := Next(w4, s[4]);
    Peel(w5, s, 5);
    assert w5 == w3.(now := 1, phases := map[0 := Holding(slot, 0, 1, 0), 1 := Looking(slot, "new", 10, 1)]);
    SecondClaimTakesOver(slot);
    assert s[6..] == [];
  }

  lemma SecondClaimTakesOver(slot: Slot)
    ensures DoLookUp(FirstClaim(slot).(now := 1, phases := map[0 := Holding(slot, 0, 1, 0), 1 := Looking(slot, "new", 10, 1)]), 1)
            == TakenOverWorld(slot)
  {
    var w6 := DoLookUp(FirstClaim(slot).(now := 1, phases := map[0 := Holding(slot, 0, 1, 0), 1 := Looking(slot, "new", 10, 1)]), 1);
    assert w6.phases == TakenOverWorld(slot).phases && w6.table == TakenOverWorld(slot).table;
    assert w6.latest == TakenOverWorld(slot).latest && w6.log == TakenOverWorld(slot).log;
  }

  function LateAnswer(slot: Slot): seq<Step> {
    [Complete(0, Response(200, "old answer")), Begin(2, slot, "new", 9), LookUp(2)]
  }

  // The late answer of the first request is replayed to a third one as if it answered the second.
  lemma LateAnswerIsReplayed(slot: Slot)
    ensures var log := Run(Start, Contest(slot) + LateAnswer(slot)).log;
            && |log| == 4 && log[3] == Served(2, slot, "new", Some(Response(200, "old answer")))
            && !HonestReplay(log, 3)
  {
    TakeoverReached(slot);
    RunAppend(Start, Contest(slot), LateAnswer(slot));
    LateAnswerIsLogged(slot);
  }

  lemma LateAnswerIsLogged(slot: Slot)
    ensures Run(TakenOverWorld(slot), LateAnswer(slot)).log
            == TakenOverWorld(slot).log
               + [Answered(0, slot, Response(200, "old answer")), Served(2, slot, "new", Some(Response(200, "old answer")))]
  {
    var s, w6 := LateAnswer(slot), TakenOverWorld(slot);
    assert s[0..] == s;
    Peel(w6, s, 0);
    var w7 := Next(w6, s[0]);
    assert w7.table[slot] == Record(0, "new", Completed, Some(Response(200, "old answer")), 10);
    Peel(w7, s, 1);
    var w8 := Next(w7, s[1]);
    Peel(w8, s, 2);
    var w9 := Next(w8, s[2]);
    assert Run(w9, s[3..]) == w9;
  }

  function LateAbandon(slot: Slot): seq<Step> {
    [Abandon(0), Begin(2, slot, "third", 9), LookUp(2), Insert(2)]
  }

  // The late abandon of the first request deletes the second one's record, and a third request
  // gets a second live claim of the key.
  lemma LateAbandonOpensTwice(slot: Slot)
    ensures var w := Run(Start, Contest(slot) + LateAbandon(slot));
            LiveClaim(w, 1, slot) && LiveClaim(w, 2, slot)
  {
    TakeoverReached(slot);
    RunAppend(Start, Contest(slot), LateAbandon(slot));
    ThirdClaimOpens(slot);
  }

  lemma ThirdClaimOpens(slot: Slot)
    ensures var w := Run(TakenOverWorld(slot), LateAbandon(slot));
            LiveClaim(w, 1, slot) && LiveClaim(w, 2, slot)
  {
    var s, w6 := LateAbandon(slot), TakenOverWorld(slot);
    assert s[0..] == s;
    Peel(w6, s, 0);
    var w7 := Next(w6, s[0]);
    assert w7.table == map[] && w7.phases == map[0 := Finished, 1 := Holding(slot, 0, 10, 1)];
    Peel(w7, s, 1);
    var w8 := Next(w7, s[1]);
    Peel(w8, s, 2);
    var w9 := Next(w8, s[2]);
    assert w9.phases[2] == Inserting(slot, "third", 10, 1) && w9.table == map[];
    Peel(w9, s, 3);
    var w10 := Next(w9, s[3]);
    assert Run(w10, s[4..]) == w10;
  }
}
