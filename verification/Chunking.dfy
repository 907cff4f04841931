// Splitting the translation input into batch requests (chunk_entries).
module Chunking {

  const MAX_ENTRIES := 35
  const MAX_CHARS := 10000

  // An entry as the chunker sees it: a translation key, a source text and a context.
  datatype Entry<K> = Entry(key: K, text: string, context: string)

  // Characters of one entry; the length of a key is a parameter of the chunker.
  function EntrySize<K>(e: Entry<K>, keyLen: K -> nat): nat {
    |e.text| + |e.context| + keyLen(e.key)
  }

  function TotalSize<K>(es: seq<Entry<K>>, keyLen: K -> nat): nat {
    if es == [] then 0 else TotalSize(es[..|es| - 1], keyLen) + EntrySize(es[|es| - 1], keyLen)
  }

  // What one request may hold: some entries within both limits, or any single entry.
  predicate Legal<K>(chunk: seq<Entry<K>>, keyLen: K -> nat) {
    |chunk| == 1 || (1 < |chunk| <= MAX_ENTRIES && TotalSize(chunk, keyLen) <= MAX_CHARS)
  }

  predicate AllLegal<K>(chunks: seq<seq<Entry<K>>>, keyLen: K -> nat) {
    forall i | 0 <= i < |chunks| :: Legal(chunks[i], keyLen)
  }

  function Flatten<T>(chunks: seq<seq<T>>): seq<T> {
    if chunks == [] then [] else chunks[0] + Flatten(chunks[1..])
  }

  // The first entry of `next` would not have fitted into `chunk`.
  predicate FullBefore<K>(chunk: seq<Entry<K>>, next: seq<Entry<K>>, keyLen: K -> nat) {
    next != [] && !Legal(chunk + [next[0]], keyLen)
  }

  predicate Greedy<K>(chunks: seq<seq<Entry<K>>>, keyLen: K -> nat) {
    forall i, j | 0 <= i < |chunks| && 0 <= j < |chunks| && j == i + 1 :: FullBefore(chunks[i], chunks[j], keyLen)
  }

  lemma {:induction false} FlattenAppend<T>(chunks: seq<seq<T>>, last: seq<T>)
    ensures Flatten(chunks + [last]) == Flatten(chunks) + last
  {
    if chunks == [] {
      assert [] + [last] == [last] && [last][1..] == [];
    } else {
      FlattenAppend(chunks[1..], last);
      assert (chunks + [last])[1..] == chunks[1..] + [last];
    }
  }

  lemma AddEntry<K>(current: seq<Entry<K>>, entry: Entry<K>, keyLen: K -> nat)
    ensures TotalSize(current + [entry], keyLen) == TotalSize(current, keyLen) + EntrySize(entry, keyLen)
    ensures Legal(current + [entry], keyLen)
            <==> current == [] || (|current| < MAX_ENTRIES && TotalSize(current, keyLen) + EntrySize(entry, keyLen) <= MAX_CHARS)
  {
    assert (current + [entry])[..|current|] == current;
  }

  // A request holds up to 35 entries with up to 10000 characters of texts, contexts and keys; one
  // entry alone may be longer.
  lemma LegalSays<K>(chunk: seq<Entry<K>>, e: Entry<K>, keyLen: K -> nat)
    ensures Legal(chunk, keyLen) <==> |chunk| == 1 || (2 <= |chunk| <= 35 && TotalSize(chunk, keyLen) <= 10000)
    ensures TotalSize<K>([], keyLen) == 0
    ensures TotalSize(chunk + [e], keyLen) == TotalSize(chunk, keyLen) + |e.text| + |e.context| + keyLen(e.key)
  {
    AddEntry(chunk, e, keyLen);
  }

  predicate Fits<K>(current: seq<Entry<K>>, entry: Entry<K>, keyLen: K -> nat) {
    current == [] || (|current| < MAX_ENTRIES && TotalSize(current, keyLen) + EntrySize(entry, keyLen) <= MAX_CHARS)
  }

  // The loop's state: closed chunks, each full before the next, and the chunk being filled.
  predicate Building<K>(chunks: seq<seq<Entry<K>>>, current: seq<Entry<K>>, keyLen: K -> nat) {
    && AllLegal(chunks, keyLen) && Greedy(chunks, keyLen)
    && if current == [] then chunks == []
       else Legal(current, keyLen) && (chunks == [] || FullBefore(chunks[|chunks| - 1], current, keyLen))
  }

  lemma Grow<K>(chunks: seq<seq<Entry<K>>>, current: seq<Entry<K>>, entry: Entry<K>, keyLen: K -> nat)
    requires Building(chunks, current, keyLen) && Fits(current, entry, keyLen)
    ensures Building(chunks, current + [entry], keyLen)
    ensures Flatten(chunks) + (current + [entry]) == (Flatten(chunks) + current) + [entry]
  {
    AddEntry(current, entry, keyLen);
  }

  lemma Close<K>(chunks: seq<seq<Entry<K>>>, current: seq<Entry<K>>, keyLen: K -> nat)
    requires Building(chunks, current, keyLen) && current != []
    ensures AllLegal(chunks + [current], keyLen) && Greedy(chunks + [current], keyLen)
    ensures Flatten(chunks + [current]) == Flatten(chunks) + current
  {
    FlattenAppend(chunks, current);
  }

  lemma OpenNext<K>(chunks: seq<seq<Entry<K>>>, current: seq<Entry<K>>, entry: Entry<K>, keyLen: K -> nat)
    requires Building(chunks, current, keyLen) && !Fits(current, entry, keyLen)
    ensures Building(chunks + [current], [entry], keyLen)
    ensures Flatten(chunks + [current]) + [entry] == (Flatten(chunks) + current) + [entry]
  {
    Close(chunks, current, keyLen);
    AddEntry(current, entry, keyLen);
  }

  method ChunkEntries<K>(entries: seq<Entry<K>>, keyLen: K -> nat) returns (chunks: seq<seq<Entry<K>>>)
    ensures Flatten(chunks) == entries
    ensures AllLegal(chunks, keyLen)
    ensures Greedy(chunks, keyLen)
  {
    chunks := [];
    var current: seq<Entry<K>> := [];
    var currentSize := 0;
    for i := 0 to |entries|
      invariant Flatten(chunks) + current == entries[..i]
      invariant currentSize == TotalSize(current, keyLen)
      invariant Building(chunks, current, keyLen)
    {
      var entry := entries[i];
      var entrySize := EntrySize(entry, keyLen);
      assert entries[..i + 1] == entries[..i] + [entry];
      if current != [] && (|current| >= MAX_ENTRIES || currentSize + entrySize > MAX_CHARS) {
        OpenNext(chunks, current, entry, keyLen);
        chunks := chunks + [current];
        current, currentSize := [], 0;
      } else {
        Grow(chunks, current, entry, keyLen);
      }
      AddEntry(current, entry, keyLen);
      assert [] + [entry] == [entry];
      current := current + [entry];
      currentSize := currentSize + entrySize;
    }
    if current != [] {
      Close(chunks, current, keyLen);
      chunks := chunks + [current];
    }
    assert entries[..|entries|] == entries;
  }

  // ---- optimality ----

  lemma {:induction false} SizeOfPart<K>(es: seq<Entry<K>>, lo: nat, hi: nat, keyLen: K -> nat)
    requires lo <= hi <= |es|
    ensures TotalSize(es[lo..hi], keyLen) <= TotalSize(es, keyLen)
    decreases |es|
  {
    if hi < |es| {
      assert es[lo..hi] == es[..|es| - 1][lo..hi];
      SizeOfPart(es[..|es| - 1], lo, hi, keyLen);
    } else if lo < |es| {
      assert es[lo..hi][..|es[lo..hi]| - 1] == es[..|es| - 1][lo..|es| - 1];
      SizeOfPart(es[..|es| - 1], lo, |es| - 1, keyLen);
    }
  }

  lemma PartOfLegal<K>(chunk: seq<Entry<K>>, lo: nat, hi: nat, keyLen: K -> nat)
    requires Legal(chunk, keyLen) && lo < hi <= |chunk|
    ensures Legal(chunk[lo..hi], keyLen)
  {
    SizeOfPart(chunk, lo, hi, keyLen);
  }

  // The greedy chunks of any tail of a legally partitioned list are no more than the parts.
  lemma {:induction false} GreedyNeedsNoMore<K>(greedy: seq<seq<Entry<K>>>, parts: seq<seq<Entry<K>>>, skip: nat, keyLen: K -> nat)
    requires AllLegal(greedy, keyLen) && Greedy(greedy, keyLen) && AllLegal(parts, keyLen)
    requires skip <= |Flatten(parts)| && Flatten(greedy) == Flatten(parts)[skip..]
    ensures |greedy| <= |parts|
    decreases |parts|, |greedy|
  {
    if greedy != [] {
      assert Legal(greedy[0], keyLen);
      assert Flatten(greedy) != [];
      var first, rest := parts[0], parts[1..];
      if skip >= |first| {
        assert Flatten(parts)[skip..] == Flatten(rest)[skip - |first|..];
        GreedyNeedsNoMore(greedy, rest, skip - |first|, keyLen);
      } else {
        var taken := |greedy[0]|;
        FirstChunkReaches(greedy, parts, skip, keyLen);
        assert Flatten(greedy[1..]) == Flatten(greedy)[taken..];
        assert Flatten(greedy[1..]) == Flatten(rest)[skip + taken - |first|..];
        forall i | 0 <= i < |greedy[1..]| ensures Legal(greedy[1..][i], keyLen) {
          assert greedy[1..][i] == greedy[i + 1];
        }
        GreedyNeedsNoMore(greedy[1..], rest, skip + taken - |first|, keyLen);
      }
    }
  }

  lemma SliceOfFirst<T>(first: seq<T>, rest: seq<T>, skip: nat, n: nat)
    requires skip + n <= |first|
    ensures (first + rest)[skip..][..n] == first[skip..skip + n]
  {
  }

  // The first greedy chunk reaches at least to the end of the part it starts in.
  lemma FirstChunkReaches<K>(greedy: seq<seq<Entry<K>>>, parts: seq<seq<Entry<K>>>, skip: nat, keyLen: K -> nat)
    requires AllLegal(greedy, keyLen) && Greedy(greedy, keyLen) && AllLegal(parts, keyLen)
    requires greedy != [] && parts != [] && skip < |parts[0]| && Flatten(greedy) == Flatten(parts)[skip..]
    ensures skip + |greedy[0]| >= |parts[0]|
  {
    var first, taken := parts[0], |greedy[0]|;
    if skip + taken < |first| {
      assert |Flatten(greedy)| > taken;
      SecondChunkFollows(greedy, keyLen);
      SliceOfFirst(first, Flatten(parts[1..]), skip, taken + 1);
      assert greedy[0] + [greedy[1][0]] == first[skip..skip + taken + 1];
      PartOfLegal(first, skip, skip + taken + 1, keyLen);
    }
  }

  lemma SecondChunkFollows<K>(greedy: seq<seq<Entry<K>>>, keyLen: K -> nat)
    requires AllLegal(greedy, keyLen) && Greedy(greedy, keyLen)
    requires greedy != [] && |Flatten(greedy)| > |greedy[0]|
    ensures |greedy| > 1 && FullBefore(greedy[0], greedy[1], keyLen)
    ensures Flatten(greedy)[..|greedy[0]| + 1] == greedy[0] + [greedy[1][0]]
  {
    assert greedy[1..] != [] && greedy[1] == greedy[1..][0];
    assert FullBefore(greedy[0], greedy[1], keyLen);
    assert Flatten(greedy[1..])[0] == greedy[1][0];
  }

  // No contiguous partition into legal requests uses fewer of them.
  lemma ChunksAreOptimal<K>(chunks: seq<seq<Entry<K>>>, parts: seq<seq<Entry<K>>>, keyLen: K -> nat)
    requires AllLegal(chunks, keyLen) && Greedy(chunks, keyLen) && AllLegal(parts, keyLen)
    requires Flatten(parts) == Flatten(chunks)
    ensures |chunks| <= |parts|
  {
    assert Flatten(parts)[0..] == Flatten(parts);
    GreedyNeedsNoMore(chunks, parts, 0, keyLen);
  }
}
