// Reading the output of a translation batch, and repairing what it did not bring.
module TranslationBatch {
  import opened Common
  import opened Chunking
  import opened Translation

  datatype Item = Item(key: Key, text: Raw) | NotAnObject

  // One line of the batch output: which request it answers (an id past the last one is unknown)
  // and what became of the request.
  datatype Body = BadStatus | BadBody | BadOutput | Items(items: seq<Item>)

  datatype Line = Line(request: nat, body: Body)

  type Texts = map<Key, string>

  predicate NonBlankTexts(t: Texts) {
    forall k | k in t :: t[k] != ""
  }

  // ---- one response ----

  // Item i offers a usable text for the key.
  predicate Offers(item: Item, k: Key) {
    item.Item? && item.key == k && NonEmpty(item.text).Some?
  }

  function Received(items: seq<Item>): Texts {
    if items == [] then map[]
    else
      var before, last := Received(items[..|items| - 1]), items[|items| - 1];
      if last.Item? && NonEmpty(last.text).Some? then before[last.key := NonEmpty(last.text).value] else before
  }

  // The response gives the key this text: that of the last item that offers one.
  predicate GivesText(items: seq<Item>, k: Key, text: string) {
    exists i | 0 <= i < |items| ::
      Offers(items[i], k) && NonEmpty(items[i].text).value == text && forall m | i < m < |items| :: !Offers(items[m], k)
  }

  // Blank texts and foreign items are dropped, and the last text wins.
  lemma {:induction false} ReceivedMeans(items: seq<Item>, k: Key)
    ensures k in Received(items) <==> exists i | 0 <= i < |items| :: Offers(items[i], k)
    ensures k in Received(items) ==> Received(items)[k] != "" && GivesText(items, k, Received(items)[k])
  {
    if items != [] {
      var front, n := items[..|items| - 1], |items| - 1;
      ReceivedMeans(front, k);
      if k in Received(items) && !Offers(items[n], k) {
        var i :| 0 <= i < n && Offers(front[i], k) && NonEmpty(front[i].text).value == Received(front)[k]
          && forall m | i < m < n :: !Offers(front[m], k);
        assert Offers(items[i], k) && forall m | i < m < |items| :: !Offers(items[m], k);
      }
    }
  }

  method ReceivedTexts(items: seq<Item>) returns (received: Texts)
    ensures received == Received(items)
  {
    received := map[];
    for i := 0 to |items|
      invariant received == Received(items[..i])
    {
      assert items[..i + 1][..i] == items[..i];
      if items[i].Item? && NonEmpty(items[i].text).Some? {
        received := received[items[i].key := NonEmpty(items[i].text).value];
      }
    }
    assert items[..|items|] == items;
  }

  // ---- the lines of the output ----

  // Keys of each request, by position.
  type Expected = seq<set<Key>>

  // A failure lists the keys to ask for again; a line for an unknown request lists none.
  type Failures = seq<set<Key>>

  predicate Known(line: Line, expected: Expected) {
    line.request < |expected|
  }

  // The texts of a line that are used: of a response that misses keys or brings others, the
  // expected part.
  function LineTexts(line: Line, expected: Expected): Texts {
    if !Known(line, expected) || !line.body.Items? then map[]
    else
      var received := Received(line.body.items);
      map k | k in received && k in expected[line.request] :: received[k]
  }

  // A line is complete when it answers a known request with exactly its keys.
  predicate Complete(line: Line, expected: Expected) {
    Known(line, expected) && line.body.Items? && Received(line.body.items).Keys == expected[line.request]
  }

  function MissingOf(line: Line, expected: Expected): set<Key> {
    if Known(line, expected) then expected[line.request] - LineTexts(line, expected).Keys else {}
  }

  function LinesTexts(lines: seq<Line>, expected: Expected): Texts {
    if lines == [] then map[]
    else LinesTexts(lines[..|lines| - 1], expected) + LineTexts(lines[|lines| - 1], expected)
  }

  function LinesFailures(lines: seq<Line>, expected: Expected): Failures {
    if lines == [] then []
    else
      LinesFailures(lines[..|lines| - 1], expected)
      + if Complete(lines[|lines| - 1], expected) then [] else [MissingOf(lines[|lines| - 1], expected)]
  }

  predicate Answered(lines: seq<Line>, r: nat) {
    exists i | 0 <= i < |lines| :: lines[i].request == r
  }

  // A request that no line answers fails as a whole.
  function UnansweredFailures(lines: seq<Line>, expected: Expected, n: nat): Failures
    requires n <= |expected|
  {
    if n == 0 then []
    else UnansweredFailures(lines, expected, n - 1) + if Answered(lines, n - 1) then [] else [expected[n - 1]]
  }

  function BatchFailures(lines: seq<Line>, expected: Expected): Failures {
    LinesFailures(lines, expected) + UnansweredFailures(lines, expected, |expected|)
  }

  method ReadBatchTranslations(lines: seq<Line>, expected: Expected) returns (t: Texts, failures: Failures)
    ensures t == LinesTexts(lines, expected) && failures == BatchFailures(lines, expected)
  {
    t, failures := map[], [];
    var answered: set<nat> := {};
    for i := 0 to |lines|
      invariant t == LinesTexts(lines[..i], expected) && failures == LinesFailures(lines[..i], expected)
      invariant forall r: nat | r < |expected| :: r in answered <==> Answered(lines[..i], r)
    {
      assert lines[..i + 1][..i] == lines[..i];
      AnsweredByOneMore(lines, i);
      var line := lines[i];
      if line.request < |expected| {
        answered := answered + {line.request};
      }
      var texts, failure := ReadLine(line, expected);
      t := t + texts;
      if failure.Some? {
        failures := failures + [failure.value];
      }
    }
    assert lines[..|lines|] == lines;
    for r := 0 to |expected|
      invariant failures == LinesFailures(lines, expected) + UnansweredFailures(lines, expected, r)
    {
      if r !in answered {
        failures := failures + [expected[r]];
      }
    }
  }

  lemma AnsweredByOneMore(lines: seq<Line>, i: nat)
    requires i < |lines|
    ensures forall r :: Answered(lines[..i + 1], r) <==> Answered(lines[..i], r) || lines[i].request == r
  {
    forall r: nat ensures Answered(lines[..i + 1], r) <==> Answered(lines[..i], r) || lines[i].request == r {
      assert lines[..i + 1] == lines[..i] + [lines[i]];
      if Answered(lines[..i], r) {
        var n :| 0 <= n < i && lines[..i][n].request == r;
        assert lines[..i + 1][n].request == r;
      }
      assert lines[..i + 1][i] == lines[i];
    }
  }

  method ReadLine(line: Line, expected: Expected) returns (texts: Texts, failure: Option<set<Key>>)
    ensures texts == LineTexts(line, expected)
    ensures failure == if Complete(line, expected) then None else Some(MissingOf(line, expected))
  {
    if line.request >= |expected| {
      return map[], Some({});
    }
    var keys := expected[line.request];
    if !line.body.Items? {
      assert keys - LineTexts(line, expected).Keys == keys;
      return map[], Some(keys);
    }
    var received := ReceivedTexts(line.body.items);
    if received.Keys != keys {
      assert keys - received.Keys == MissingOf(line, expected);
      return map k | k in received && k in keys :: received[k], Some(keys - received.Keys);
    }
    return received, None;
  }

  // ---- what a batch output comes to ----

  function AllExpected(expected: Expected, n: nat): set<Key>
    requires n <= |expected|
  {
    if n == 0 then {} else AllExpected(expected, n - 1) + expected[n - 1]
  }

  lemma {:induction false} ExpectedIsAll(expected: Expected, n: nat, k: Key)
    requires n <= |expected|
    ensures k in AllExpected(expected, n) <==> exists r | 0 <= r < n :: k in expected[r]
  {
    if n > 0 {
      ExpectedIsAll(expected, n - 1, k);
    }
  }

  // Line i is the last one that gives the key a text.
  predicate LastGiver(lines: seq<Line>, expected: Expected, i: nat, k: Key) {
    i < |lines| && k in LineTexts(lines[i], expected) && forall m | i < m < |lines| :: k !in LineTexts(lines[m], expected)
  }

  // A key is translated exactly if some line gives it a text.
  lemma {:induction false} LinesTextsKeys(lines: seq<Line>, expected: Expected, k: Key)
    ensures k in LinesTexts(lines, expected) <==> exists i | 0 <= i < |lines| :: k in LineTexts(lines[i], expected)
  {
    if lines != [] {
      var front := lines[..|lines| - 1];
      LinesTextsKeys(front, expected, k);
      assert forall i | 0 <= i < |front| :: front[i] == lines[i];
    }
  }

  // And the last line that gives it one wins.
  lemma {:induction false} LastGiverWins(lines: seq<Line>, expected: Expected, k: Key) returns (i: nat)
    requires k in LinesTexts(lines, expected)
    ensures LastGiver(lines, expected, i, k) && LinesTexts(lines, expected)[k] == LineTexts(lines[i], expected)[k]
  {
    var front, n := lines[..|lines| - 1], |lines| - 1;
    if k in LineTexts(lines[n], expected) {
      i := n;
    } else {
      i := LastGiverWins(front, expected, k);
      assert forall m | 0 <= m < n :: front[m] == lines[m];
    }
  }

  lemma LineTextsMean(line: Line, expected: Expected, k: Key)
    requires k in LineTexts(line, expected)
    ensures Known(line, expected) && k in expected[line.request] && line.body.Items?
    ensures LineTexts(line, expected)[k] != "" && GivesText(line.body.items, k, LineTexts(line, expected)[k])
  {
    ReceivedMeans(line.body.items, k);
  }

  function RetryKeys(failures: Failures): set<Key> {
    if failures == [] then {} else RetryKeys(failures[..|failures| - 1]) + failures[|failures| - 1]
  }

  lemma {:induction false} RetryKeysJoin(a: Failures, b: Failures)
    ensures RetryKeys(a + b) == RetryKeys(a) + RetryKeys(b)
  {
    if b == [] {
      assert a + b == a;
    } else {
      assert (a + b)[..|a + b| - 1] == a + b[..|b| - 1];
      RetryKeysJoin(a, b[..|b| - 1]);
    }
  }

  lemma RetryKeysOfOne(keys: set<Key>)
    ensures RetryKeys([keys]) == keys
  {
    assert [keys][..0] == [];
    assert RetryKeys([]) == {};
  }

  lemma RetryKeysAppend(failures: Failures, keys: set<Key>)
    ensures RetryKeys(failures + [keys]) == RetryKeys(failures) + keys
  {
    RetryKeysJoin(failures, [keys]);
    RetryKeysOfOne(keys);
  }

  predicate MissedBySome(lines: seq<Line>, expected: Expected, k: Key) {
    exists i | 0 <= i < |lines| :: k in MissingOf(lines[i], expected)
  }

  lemma MissedByOneMore(lines: seq<Line>, expected: Expected, k: Key)
    requires lines != []
    ensures MissedBySome(lines, expected, k)
            <==> MissedBySome(lines[..|lines| - 1], expected, k) || k in MissingOf(lines[|lines| - 1], expected)
  {
    var front, last := lines[..|lines| - 1], lines[|lines| - 1];
    assert forall i | 0 <= i < |front| :: front[i] == lines[i];
  }

  lemma {:induction false} LinesRetry(lines: seq<Line>, expected: Expected, k: Key)
    ensures k in RetryKeys(LinesFailures(lines, expected)) <==> MissedBySome(lines, expected, k)
  {
    if lines != [] {
      var front, last := lines[..|lines| - 1], lines[|lines| - 1];
      LinesRetry(front, expected, k);
      MissedByOneMore(lines, expected, k);
      if Complete(last, expected) {
        assert MissingOf(last, expected) == {};
        assert LinesFailures(lines, expected) == LinesFailures(front, expected);
      } else {
        RetryKeysAppend(LinesFailures(front, expected), MissingOf(last, expected));
      }
    }
  }

  lemma {:induction false} NoLineFails(lines: seq<Line>, expected: Expected)
    ensures LinesFailures(lines, expected) == [] <==> forall i | 0 <= i < |lines| :: Complete(lines[i], expected)
  {
    if lines != [] {
      var front := lines[..|lines| - 1];
      NoLineFails(front, expected);
      assert forall i | 0 <= i < |front| :: front[i] == lines[i];
    }
  }

  predicate Unanswered(lines: seq<Line>, expected: Expected, n: nat, k: Key)
    requires n <= |expected|
  {
    exists r: nat | r < n :: !Answered(lines, r) && k in expected[r]
  }

  lemma {:induction false} UnansweredRetry(lines: seq<Line>, expected: Expected, n: nat, k: Key)
    requires n <= |expected|
    ensures k in RetryKeys(UnansweredFailures(lines, expected, n)) <==> Unanswered(lines, expected, n, k)
  {
    if n > 0 {
      UnansweredRetry(lines, expected, n - 1, k);
      assert Unanswered(lines, expected, n, k)
             <==> Unanswered(lines, expected, n - 1, k) || (!Answered(lines, n - 1) && k in expected[n - 1]);
      if Answered(lines, n - 1) {
        assert UnansweredFailures(lines, expected, n) == UnansweredFailures(lines, expected, n - 1);
      } else {
        RetryKeysAppend(UnansweredFailures(lines, expected, n - 1), expected[n - 1]);
      }
    }
  }

  lemma {:induction false} NoRequestFails(lines: seq<Line>, expected: Expected, n: nat)
    requires n <= |expected|
    ensures UnansweredFailures(lines, expected, n) == [] <==> forall r: nat | r < n :: Answered(lines, r)
  {
    if n > 0 {
      NoRequestFails(lines, expected, n - 1);
    }
  }

  // The key is asked for again.
  predicate ToRetry(lines: seq<Line>, expected: Expected, k: Key) {
    MissedBySome(lines, expected, k) || Unanswered(lines, expected, |expected|, k)
  }

  lemma RetryKeysMean(lines: seq<Line>, expected: Expected, k: Key)
    ensures k in RetryKeys(BatchFailures(lines, expected)) <==> ToRetry(lines, expected, k)
  {
    RetryKeysJoin(LinesFailures(lines, expected), UnansweredFailures(lines, expected, |expected|));
    LinesRetry(lines, expected, k);
    UnansweredRetry(lines, expected, |expected|, k);
  }

  // Nothing has failed exactly when every line is complete and every request is answered.
  lemma CleanBatchExact(lines: seq<Line>, expected: Expected)
    ensures BatchFailures(lines, expected) == []
            <==> (forall i | 0 <= i < |lines| :: Complete(lines[i], expected)) && forall r: nat | r < |expected| :: Answered(lines, r)
  {
    NoLineFails(lines, expected);
    NoRequestFails(lines, expected, |expected|);
  }

  lemma ExpectedIsGivenOrMissing(lines: seq<Line>, expected: Expected, k: Key)
    requires k in AllExpected(expected, |expected|)
    ensures k in LinesTexts(lines, expected) || ToRetry(lines, expected, k)
  {
    ExpectedIsAll(expected, |expected|, k);
    LinesTextsKeys(lines, expected, k);
    var r: nat :| r < |expected| && k in expected[r];
    if Answered(lines, r) {
      var i :| 0 <= i < |lines| && lines[i].request == r;
      assert k in LineTexts(lines[i], expected) || k in MissingOf(lines[i], expected);
    }
  }

  // Whatever the lines are: the translated and the failed keys together are the expected ones.
  lemma BatchIsAccounted(lines: seq<Line>, expected: Expected)
    ensures LinesTexts(lines, expected).Keys + RetryKeys(BatchFailures(lines, expected)) == AllExpected(expected, |expected|)
    ensures BatchFailures(lines, expected) == [] ==> LinesTexts(lines, expected).Keys == AllExpected(expected, |expected|)
    ensures NonBlankTexts(LinesTexts(lines, expected))
  {
    forall k ensures k in LinesTexts(lines, expected).Keys + RetryKeys(BatchFailures(lines, expected)) <==> k in AllExpected(expected, |expected|) {
      RetryKeysMean(lines, expected, k);
      if k in AllExpected(expected, |expected|) {
        ExpectedIsGivenOrMissing(lines, expected, k);
      } else {
        UnexpectedIsLeftOut(lines, expected, k);
      }
    }
    forall k | k in LinesTexts(lines, expected) ensures LinesTexts(lines, expected)[k] != "" {
      var i := LastGiverWins(lines, expected, k);
      LineTextsMean(lines[i], expected, k);
    }
  }

  lemma UnexpectedIsLeftOut(lines: seq<Line>, expected: Expected, k: Key)
    requires k !in AllExpected(expected, |expected|)
    ensures k !in LinesTexts(lines, expected) && !ToRetry(lines, expected, k)
  {
    ExpectedIsAll(expected, |expected|, k);
    LinesTextsKeys(lines, expected, k);
  }

  // ---- retry_missing_translations ----

  datatype RetryResponse = InvalidJson | RetryItems(items: seq<Item>)

  datatype RetryError = NotRetryable | UnknownKey | BadRetryResponse | RetryKeysMismatch

  datatype Result<T, E> = Ok(value: T) | Err(error: E)

  predicate Distinct(order: seq<Key>) {
    forall i, j | 0 <= i < j < |order| :: order[i] != order[j]
  }

  function Listed(order: seq<Key>): set<Key> {
    set k | k in order
  }

  predicate Lists(order: seq<Key>, keys: set<Key>) {
    Distinct(order) && Listed(order) == keys
  }

  // Some order of the keys; the source sorts them, any order serves.
  method KeysInOrder(keys: set<Key>) returns (order: seq<Key>)
    ensures Lists(order, keys)
  {
    order := [];
    var rest := keys;
    while rest != {}
      invariant forall k :: k in keys <==> k in order || k in rest
      invariant forall k | k in rest :: k !in order
      invariant Distinct(order)
      decreases rest
    {
      var k :| k in rest;
      order, rest := order + [k], rest - {k};
    }
  }

  const RETRY_CHUNK := 5

  // Chunk c asks for the positions from here to the start of the next one.
  function ChunkStart(c: nat, n: nat): nat {
    if RETRY_CHUNK * c <= n then RETRY_CHUNK * c else n
  }

  // Aliases number the retried keys from 1.
  function AliasFor(position: nat): Key {
    Alias(position + 1)
  }

  function Aliases(c: nat, n: nat): set<Key> {
    set i | ChunkStart(c, n) <= i < ChunkStart(c + 1, n) :: AliasFor(i)
  }

  // The chunk comes back with exactly its aliases.
  predicate ChunkAnswered(c: nat, n: nat, response: RetryResponse) {
    response.RetryItems? && Received(response.items).Keys == Aliases(c, n)
  }

  predicate RepairAnswered(n: nat, chunks: nat, respond: nat -> RetryResponse) {
    chunks == 0 || (RepairAnswered(n, chunks - 1, respond) && ChunkAnswered(chunks - 1, n, respond(chunks - 1)))
  }

  lemma {:induction false} EveryChunkIsAnswered(n: nat, chunks: nat, respond: nat -> RetryResponse, c: nat)
    requires RepairAnswered(n, chunks, respond) && c < chunks
    ensures ChunkAnswered(c, n, respond(c))
  {
    if c < chunks - 1 {
      EveryChunkIsAnswered(n, chunks - 1, respond, c);
    }
  }

  function Chunks(n: nat): nat {
    (n + RETRY_CHUNK - 1) / RETRY_CHUNK
  }

  // The text that the response to a position's chunk gives to the position's alias.
  function AliasText(respond: nat -> RetryResponse, i: nat): Option<string> {
    var response, alias := respond(i / RETRY_CHUNK), AliasFor(i);
    if response.RetryItems? && alias in Received(response.items) then Some(Received(response.items)[alias]) else None
  }

  // The recovered texts of the first m retried keys.
  function Recovery(order: seq<Key>, respond: nat -> RetryResponse, m: nat): Texts
    requires m <= |order|
  {
    if m == 0 then map[]
    else
      var before := Recovery(order, respond, m - 1);
      if AliasText(respond, m - 1).Some? then before[order[m - 1] := AliasText(respond, m - 1).value] else before
  }

  // The repair succeeds if and only if there is something to ask for, all of it is known, and
  // every chunk comes back with exactly its aliases; it then returns the texts of the aliases.
  method RetryMissing(unique: Entries, failures: Failures, respond: nat -> RetryResponse)
    returns (r: Result<Texts, RetryError>, order: seq<Key>)
    ensures Lists(order, RetryKeys(failures))
    ensures r == Err(NotRetryable) <==> RetryKeys(failures) == {}
    ensures r == Err(UnknownKey) <==> !(RetryKeys(failures) <= Keys(unique))
    ensures r.Ok? <==> RetryKeys(failures) != {} && RetryKeys(failures) <= Keys(unique) && RepairAnswered(|order|, Chunks(|order|), respond)
    ensures r.Ok? ==> r.value == Recovery(order, respond, |order|)
  {
    order := KeysInOrder(RetryKeys(failures));
    if order == [] {
      assert RetryKeys(failures) == {};
      return Err(NotRetryable), order;
    }
    assert order[0] in RetryKeys(failures);
    if exists i | 0 <= i < |order| :: order[i] !in Keys(unique) {
      return Err(UnknownKey), order;
    }
    r := RecoverChunks(order, respond);
  }

  method RecoverChunks(order: seq<Key>, respond: nat -> RetryResponse) returns (r: Result<Texts, RetryError>)
    ensures r.Ok? <==> RepairAnswered(|order|, Chunks(|order|), respond)
    ensures r.Ok? ==> r.value == Recovery(order, respond, |order|)
    ensures r.Err? ==> r.error == BadRetryResponse || r.error == RetryKeysMismatch
  {
    var recovered: Texts, c := map[], 0;
    while RETRY_CHUNK * c < |order|
      invariant c <= Chunks(|order|) && RepairAnswered(|order|, c, respond)
      invariant recovered == Recovery(order, respond, ChunkStart(c, |order|))
    {
      ChunkIsThere(c, |order|);
      var answer := RetryChunk(order, c, respond, recovered);
      if answer.Err? {
        if RepairAnswered(|order|, Chunks(|order|), respond) {
          EveryChunkIsAnswered(|order|, Chunks(|order|), respond, c);
        }
        return answer;
      }
      recovered, c := answer.value, c + 1;
    }
    NoMoreChunks(c, |order|);
    r := Ok(recovered);
  }

  method RetryChunk(order: seq<Key>, c: nat, respond: nat -> RetryResponse, recovered: Texts) returns (r: Result<Texts, RetryError>)
    requires RETRY_CHUNK * c < |order| && recovered == Recovery(order, respond, ChunkStart(c, |order|))
    ensures r.Ok? <==> ChunkAnswered(c, |order|, respond(c))
    ensures r.Ok? ==> r.value == Recovery(order, respond, ChunkStart(c + 1, |order|))
    ensures r.Err? ==> r.error == BadRetryResponse || r.error == RetryKeysMismatch
  {
    if respond(c) == InvalidJson {
      return Err(BadRetryResponse);
    }
    var received := ReceivedTexts(respond(c).items);
    if received.Keys != Aliases(c, |order|) {
      return Err(RetryKeysMismatch);
    }
    var more := RecoverChunk(order, c, received, recovered, respond);
    r := Ok(more);
  }

  // The retried keys are numbered from one and asked for five at a time.
  lemma AliasesSay(c: nat, n: nat, position: nat)
    ensures Alias(position) in Aliases(c, n) <==> 5 * c < position <= 5 * c + 5 && position <= n
    ensures Chunks(n) == (n + 4) / 5
  {
    if 5 * c < position <= 5 * c + 5 && position <= n {
      assert AliasFor(position - 1) == Alias(position);
    }
  }

  lemma ChunkIsThere(c: nat, n: nat)
    requires RETRY_CHUNK * c < n
    ensures c < Chunks(n)
  {
  }

  lemma NoMoreChunks(c: nat, n: nat)
    requires RETRY_CHUNK * c >= n && c <= Chunks(n)
    ensures c == Chunks(n) && ChunkStart(c, n) == n
  {
  }

  method RecoverChunk(order: seq<Key>, c: nat, received: Texts, recovered: Texts, ghost respond: nat -> RetryResponse)
    returns (more: Texts)
    requires RETRY_CHUNK * c < |order| && respond(c).RetryItems? && received == Received(respond(c).items)
    requires received.Keys == Aliases(c, |order|) && recovered == Recovery(order, respond, ChunkStart(c, |order|))
    ensures more == Recovery(order, respond, ChunkStart(c + 1, |order|))
  {
    more := recovered;
    for n := ChunkStart(c, |order|) to ChunkStart(c + 1, |order|)
      invariant more == Recovery(order, respond, n)
    {
      assert n / RETRY_CHUNK == c;
      assert AliasFor(n) in Aliases(c, |order|);
      more := more[order[n] := received[AliasFor(n)]];
    }
  }

  // A successful repair has a non-blank text for exactly the retried keys, each from its alias.
  lemma {:induction false} RecoveryMeans(order: seq<Key>, respond: nat -> RetryResponse, m: nat)
    requires m <= |order| && Distinct(order) && forall i: nat | i < m :: AliasText(respond, i).Some?
    ensures forall k :: k in Recovery(order, respond, m) <==> k in order[..m]
    ensures forall i: nat | i < m :: order[i] in Recovery(order, respond, m) && Some(Recovery(order, respond, m)[order[i]]) == AliasText(respond, i)
  {
    if m > 0 {
      RecoveryMeans(order, respond, m - 1);
      assert order[..m] == order[..m - 1] + [order[m - 1]];
    }
  }

  lemma AliasesAreAnswered(n: nat, respond: nat -> RetryResponse, i: nat)
    requires i < n && RepairAnswered(n, Chunks(n), respond)
    ensures AliasText(respond, i).Some? && AliasText(respond, i).value != ""
  {
    var c := i / RETRY_CHUNK;
    assert c < Chunks(n) && ChunkStart(c, n) <= i < ChunkStart(c + 1, n);
    EveryChunkIsAnswered(n, Chunks(n), respond, c);
    assert AliasFor(i) in Aliases(c, n);
    ReceivedMeans(respond(c).items, AliasFor(i));
  }

  lemma RepairGivesAliasTexts(order: seq<Key>, respond: nat -> RetryResponse)
    requires Distinct(order) && RepairAnswered(|order|, Chunks(|order|), respond)
    ensures forall k :: k in Recovery(order, respond, |order|) <==> k in order
    ensures forall i: nat | i < |order| ::
              order[i] in Recovery(order, respond, |order|) && Some(Recovery(order, respond, |order|)[order[i]]) == AliasText(respond, i)
  {
    forall i: nat | i < |order| ensures AliasText(respond, i).Some? {
      AliasesAreAnswered(|order|, respond, i);
    }
    RecoveryMeans(order, respond, |order|);
    assert order[..|order|] == order;
  }

  lemma RepairIsComplete(order: seq<Key>, keys: set<Key>, respond: nat -> RetryResponse)
    requires Lists(order, keys) && RepairAnswered(|order|, Chunks(|order|), respond)
    ensures Recovery(order, respond, |order|).Keys == keys && NonBlankTexts(Recovery(order, respond, |order|))
  {
    RepairGivesAliasTexts(order, respond);
    var t := Recovery(order, respond, |order|);
    forall k | k in t ensures t[k] != "" {
      var i: nat :| i < |order| && order[i] == k;
      AliasesAreAnswered(|order|, respond, i);
    }
  }
}
