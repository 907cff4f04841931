// What a finished job says about its targets (_refresh_job_status in apps/orchestrator/tasks.py,
// on the compacted entries).
module JobVerdict {
  import opened Common
  import opened EanPool
  import opened Listings
  import opened Lifecycle
  import opened ExternalJson
  import opened JsonSnapshot
  import JsonLossless
  import opened Worker

  predicate RoomyLimits(lim: Limits) {
    lim.maxDepth >= 2 && lim.maxItems >= 10 && lim.maxChars >= 33
  }

  const EntryKeys := ["marketplace", "account", "ean", "publication_id", "first_successful_publication", "ean_consumed",
                      "awaiting_marketplace_confirmation", "ok", "status_code", "details"]

  lemma EntryKeysDiffer()
    ensures forall i, j | 0 <= i < j < 10 :: EntryKeys[i] != EntryKeys[j]
    ensures forall i | 0 <= i < 10 :: |EntryKeys[i]| <= 33
  {
    assert EntryKeys[0][0] == 'm' && EntryKeys[8][0] == 's';
    assert EntryKeys[1][0] == 'a' && EntryKeys[9][0] == 'd';
  }

  lemma EntryFields(k: Key, ean: string, verdict: Verdict, call: Call)
    ensures var fields := Entry(k, ean, verdict, call).fields;
            |fields| == 10 && forall i | 0 <= i < 10 :: fields[i].key == EntryKeys[i]
    ensures Entry(k, ean, verdict, call).fields[6].value == Bool(false)
    ensures Entry(k, ean, verdict, call).fields[7].value == Bool(verdict != NotSent && call.reply.IsOk())
  {
  }

  lemma DistinctShortKeys(fields: seq<Field>, lim: Limits)
    requires |fields| == 10 && (forall i | 0 <= i < 10 :: fields[i].key == EntryKeys[i]) && RoomyLimits(lim)
    ensures UniqueKeys(fields) && KeysFit(fields, lim)
  {
    EntryKeysDiffer();
    forall i, j | 0 <= i < j < 10 ensures fields[i].key != fields[j].key {
      assert EntryKeys[i] != EntryKeys[j];
    }
  }

  lemma ShortDictCompacts(fields: seq<Field>, lim: Limits)
    requires |fields| <= lim.maxItems && lim.maxDepth > 0 && UniqueKeys(fields) && KeysFit(fields, lim)
    ensures Compact(Obj(fields), 0, lim) == Obj(CompactEach(fields, 0, lim))
  {
    DictClosed(fields, 0, lim);
  }

  lemma EntryCompacts(k: Key, ean: string, verdict: Verdict, call: Call, lim: Limits)
    requires RoomyLimits(lim)
    ensures var entry := Entry(k, ean, verdict, call);
            Compact(entry, 0, lim) == Obj(CompactEach(entry.fields, 0, lim))
  {
    var fields := Entry(k, ean, verdict, call).fields;
    EntryFields(k, ean, verdict, call);
    DistinctShortKeys(fields, lim);
    ShortDictCompacts(fields, lim);
  }

  lemma SetDefaultKeepsFields(fields: seq<Field>, f: Field)
    requires f.key != "_truncated"
    ensures f in SetDefault(fields, "_truncated", Bool(true)) <==> f in fields
  {
  }

  // A snapshot that is too large says nothing about the target any more.
  lemma {:induction false} ShrunkSaysNothing(size: nat, preview: string, lim: Limits, key: string)
    requires key == "ok" || key == "awaiting_marketplace_confirmation"
    ensures !Says(Shrink(size, preview, lim), key)
    decreases |preview|
  {
    if preview != "" && Size(WithPreview(size, preview)) > lim.maxBytes {
      ShrunkSaysNothing(size, DropLast(preview, Size(WithPreview(size, preview)) - lim.maxBytes), lim, key);
    }
  }

  // The entry kept for a target says ok exactly when the call did and the entry fits the byte limit.
  lemma SavedEntrySays(k: Key, ean: string, verdict: Verdict, call: Call, lim: Limits)
    requires RoomyLimits(lim)
    ensures var entry := Entry(k, ean, verdict, call);
            var saved := JsonSnapshot.Snapshot(entry, lim);
            && !Says(saved, "awaiting_marketplace_confirmation")
            && (Says(saved, "ok") <==> verdict != NotSent && call.reply.IsOk() && Size(Compact(entry, 0, lim)) <= lim.maxBytes)
  {
    var entry := Entry(k, ean, verdict, call);
    var compacted := CompactEach(entry.fields, 0, lim);
    EntryCompacts(k, ean, verdict, call, lim);
    var size := Size(Obj(compacted));
    if size > lim.maxBytes {
      ShrunkSaysNothing(size, DecodePrefix(Dumps(Obj(compacted)), PreviewBytes(size, lim)), lim, "ok");
      ShrunkSaysNothing(size, DecodePrefix(Dumps(Obj(compacted)), PreviewBytes(size, lim)), lim, "awaiting_marketplace_confirmation");
    } else {
      SetDefaultKeepsFields(compacted, Field("ok", Bool(true)));
      SetDefaultKeepsFields(compacted, Field("awaiting_marketplace_confirmation", Bool(true)));
      EntryFlags(k, ean, verdict, call, lim);
    }
  }

  lemma EntryFlags(k: Key, ean: string, verdict: Verdict, call: Call, lim: Limits)
    requires RoomyLimits(lim)
    ensures var compacted := CompactEach(Entry(k, ean, verdict, call).fields, 0, lim);
            && Field("awaiting_marketplace_confirmation", Bool(true)) !in compacted
            && (Field("ok", Bool(true)) in compacted <==> verdict != NotSent && call.reply.IsOk())
  {
    var fields := Entry(k, ean, verdict, call).fields;
    var compacted := CompactEach(fields, 0, lim);
    EntryKeysDiffer();
    EntryFields(k, ean, verdict, call);
    assert compacted[6] == Field(EntryKeys[6], Bool(false));
    assert compacted[7] == Field(EntryKeys[7], fields[7].value);
    forall i | 0 <= i < 10 ensures compacted[i].key == EntryKeys[i] {
    }
  }

  predicate KeptWhole(entry: Json, lim: Limits) {
    Size(Compact(entry, 0, lim)) <= lim.maxBytes
  }

  // A finished job has succeeded exactly when it has targets, every target did, and no entry is
  // so large that its snapshot loses the flag; it has failed exactly when no target did visibly.
  lemma JobStatusExact(card: EanCard, targets: seq<Key>, calls: seq<Call>, verdicts: seq<Verdict>, results: seq<Json>, saved: seq<Json>,
                       status: JobStatus, lim: Limits)
    requires RoomyLimits(lim) && |verdicts| == |results| == |targets| == |calls|
    requires Reported(card, targets, calls, verdicts, results) && Compacted(results, saved, lim) && JudgedBy(status, saved)
    ensures status == JobSucceeded <==>
              targets != [] && forall i | 0 <= i < |targets| :: verdicts[i].IsOk() && KeptWhole(results[i], lim)
    ensures status == JobFailed <==>
              targets != [] && forall i | 0 <= i < |targets| :: !(verdicts[i].IsOk() && KeptWhole(results[i], lim))
    ensures status != PendingConfirmation
  {
    forall i | 0 <= i < |targets|
      ensures !Says(saved[i], "awaiting_marketplace_confirmation")
      ensures Says(saved[i], "ok") <==> verdicts[i].IsOk() && KeptWhole(results[i], lim)
    {
      assert EntryOf(card, targets[i], verdicts[i], calls[i], results[i]);
      SavedEntrySays(targets[i], card.CodeFor(targets[i].account), verdicts[i], calls[i], lim);
    }
    SayingAll(saved, "ok");
    SayingAll(saved, "awaiting_marketplace_confirmation");
  }

  lemma SayingAll(saved: seq<Json>, key: string)
    ensures (forall r | r in saved :: Says(r, key)) <==> forall i | 0 <= i < |saved| :: Says(saved[i], key)
    ensures (forall r | r in saved :: !Says(r, key)) <==> forall i | 0 <= i < |saved| :: !Says(saved[i], key)
  {
    forall i | 0 <= i < |saved| ensures saved[i] in saved {
    }
  }

  // ---- a successful job that ends FAILED ----

  function Copies(j: Json, n: nat): (js: seq<Json>)
    ensures |js| == n && forall i | 0 <= i < n :: js[i] == j
  {
    seq(n, i requires 0 <= i < n => j)
  }

  lemma JoinedSize(head: string, rest: string)
    ensures ByteLen(head + ", " + rest) >= ByteLen(head) + ByteLen(rest)
  {
    ByteLenAppend(head + ", ", rest);
    ByteLenAppend(head, ", ");
  }

  lemma OneMoreCopy(j: Json, n: nat)
    requires n > 0
    ensures ByteLen(DumpItems(Copies(j, n + 1))) >= Size(j) + ByteLen(DumpItems(Copies(j, n)))
  {
    assert Copies(j, n + 1)[1..] == Copies(j, n);
    JoinedSize(Dumps(j), DumpItems(Copies(j, n)));
  }

  lemma {:induction false} CopiesSize(j: Json, n: nat)
    ensures ByteLen(DumpItems(Copies(j, n))) >= n * Size(j)
  {
    if n == 1 {
      assert Copies(j, 1) == [j];
    } else if n > 1 {
      CopiesSize(j, n - 1);
      OneMoreCopy(j, n - 1);
      Times(n, Size(j));
    }
  }

  lemma Times(n: nat, size: nat)
    requires n > 0
    ensures n * size == size + (n - 1) * size
  {
  }

  lemma ArraySize(items: seq<Json>)
    ensures Size(Arr(items)) >= ByteLen(DumpItems(items))
  {
    ByteLenAppend("[" + DumpItems(items), "]");
    ByteLenAppend("[", DumpItems(items));
  }

  lemma FieldSize(f: Field)
    ensures ByteLen(DumpField(f)) >= Size(f.value)
  {
    FieldBytes(f);
  }

  lemma {:induction false} FieldsSize(fields: seq<Field>, i: nat)
    requires i < |fields|
    ensures ByteLen(DumpFields(fields)) >= Size(fields[i].value)
  {
    FieldSize(fields[0]);
    if |fields| > 1 {
      JoinedSize(DumpField(fields[0]), DumpFields(fields[1..]));
      if i > 0 {
        FieldsSize(fields[1..], i - 1);
      }
    }
  }

  lemma ObjectSize(fields: seq<Field>, i: nat)
    requires i < |fields|
    ensures Size(Obj(fields)) >= Size(fields[i].value)
  {
    FieldsSize(fields, i);
    ByteLenAppend("{" + DumpFields(fields), "}");
    ByteLenAppend("{", DumpFields(fields));
  }

  // As many texts as a list may have, each as long as a text may be.
  function LargeAnswer(lim: Limits): Json {
    Arr(Copies(Str(JsonLossless.Repeat('x', lim.maxChars)), lim.maxItems))
  }

  lemma LargeAnswerSize(lim: Limits)
    ensures Size(LargeAnswer(lim)) >= lim.maxItems * lim.maxChars
  {
    var text := JsonLossless.Repeat('x', lim.maxChars);
    PlainTextSize(text);
    CopiesSize(Str(text), lim.maxItems);
    ArraySize(Copies(Str(text), lim.maxItems));
    assert lim.maxItems * (lim.maxChars + 2) == lim.maxItems * lim.maxChars + lim.maxItems * 2;
  }

  function LargeReply(lim: Limits): Reply {
    Answer(true, "200", LargeAnswer(lim))
  }

  function LargeCall(lim: Limits, now: Time, publicationId: string): Call {
    Call([], [], LargeReply(lim), now, publicationId)
  }

  lemma LargeEntryIsNotKept(k: Key, ean: string, now: Time, publicationId: string, lim: Limits)
    requires RoomyLimits(lim) && lim.maxDepth >= 3 && lim.maxItems * lim.maxChars > lim.maxBytes
    ensures !KeptWhole(Entry(k, ean, Won(true, true), LargeCall(lim, now, publicationId)), lim)
  {
    var call := LargeCall(lim, now, publicationId);
    var fields := Entry(k, ean, Won(true, true), call).fields;
    EntryCompacts(k, ean, Won(true, true), call, lim);
    assert fields[9].value == LargeAnswer(lim);
    UntruncatedIsIdentity(LargeAnswer(lim), 1, lim);
    LargeAnswerSize(lim);
    ObjectSize(CompactEach(fields, 0, lim), 9);
  }

  // Under any limits that let a list of texts outgrow the byte limit, a job whose only target was
  // published, with its EAN consumed, is judged FAILED when the marketplace answers at length.
  lemma LongAnswerFailsTheJob(k: Key, card: EanCard, now: Time, publicationId: string, saved: seq<Json>, status: JobStatus, lim: Limits)
    requires RoomyLimits(lim) && lim.maxDepth >= 3 && lim.maxItems * lim.maxChars > lim.maxBytes
    requires Compacted([Entry(k, card.CodeFor(k.account), Won(true, true), LargeCall(lim, now, publicationId))], saved, lim) && JudgedBy(status, saved)
    ensures Reported(card, [k], [LargeCall(lim, now, publicationId)], [Won(true, true)],
                     [Entry(k, card.CodeFor(k.account), Won(true, true), LargeCall(lim, now, publicationId))])
    ensures status == JobFailed
  {
    var call, ean := LargeCall(lim, now, publicationId), card.CodeFor(k.account);
    var entry := Entry(k, ean, Won(true, true), call);
    LargeEntryIsNotKept(k, ean, now, publicationId, lim);
    JobStatusExact(card, [k], [call], [Won(true, true)], [entry], saved, status, lim);
  }

  lemma DefaultLimitsAllowIt()
    ensures var lim := JsonLossless.DefaultLimits;
            RoomyLimits(lim) && lim.maxDepth >= 3 && lim.maxItems * lim.maxChars > lim.maxBytes
  {
  }
}
