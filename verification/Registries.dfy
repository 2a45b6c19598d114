/** Name search in a sanctions or PEP registry. */
module Registries {
  import opened Schemas
  import opened Text
  import opened Resilience
  import Confidence

  datatype Entry = Entry(name: string, id: string)

  function Score(lib: Library, query: string, entry: Entry): real {
    lib.ratio(Normalize(lib, query), Normalize(lib, entry.name))
  }

  function HitFor(lib: Library, registry: Registry, query: string, entry: Entry): RegistryHit {
    RegistryHit(registry, entry.name, Confidence.Round4(Score(lib, query, entry)), entry.id)
  }

  /** Hits in list order. */
  function Hits(lib: Library, registry: Registry, entries: seq<Entry>, threshold: real, query: string): seq<RegistryHit> {
    if entries == [] then []
    else
      var last := entries[|entries| - 1];
      Hits(lib, registry, entries[..|entries| - 1], threshold, query)
      + if Score(lib, query, last) >= threshold then [HitFor(lib, registry, query, last)] else []
  }

  // --- stable descending sort ---

  /** Places `h` behind every hit that scores at least as much. */
  function Insert(hits: seq<RegistryHit>, h: RegistryHit): seq<RegistryHit> {
    if hits == [] || hits[|hits| - 1].score >= h.score then hits + [h]
    else Insert(hits[..|hits| - 1], h) + [hits[|hits| - 1]]
  }

  function Sorted(hits: seq<RegistryHit>): seq<RegistryHit> {
    if hits == [] then [] else Insert(Sorted(hits[..|hits| - 1]), hits[|hits| - 1])
  }

  ghost predicate Descending(hits: seq<RegistryHit>) {
    forall i, j :: 0 <= i < j < |hits| ==> hits[i].score >= hits[j].score
  }

  /** The hits with one score, in order. */
  function WithScore(hits: seq<RegistryHit>, score: real): seq<RegistryHit> {
    if hits == [] then []
    else
      var last := hits[|hits| - 1];
      WithScore(hits[..|hits| - 1], score) + if last.score == score then [last] else []
  }

  lemma {:induction false} InsertKeeps(hits: seq<RegistryHit>, h: RegistryHit)
    ensures forall x :: x in Insert(hits, h) <==> x in hits || x == h
  {
    if hits != [] && hits[|hits| - 1].score < h.score {
      InsertKeeps(hits[..|hits| - 1], h);
      assert hits == hits[..|hits| - 1] + [hits[|hits| - 1]];
    }
  }

  lemma {:induction false} InsertDescending(hits: seq<RegistryHit>, h: RegistryHit)
    requires Descending(hits)
    ensures Descending(Insert(hits, h))
  {
    if hits != [] && hits[|hits| - 1].score < h.score {
      InsertDescending(hits[..|hits| - 1], h);
      InsertKeeps(hits[..|hits| - 1], h);
      var front := Insert(hits[..|hits| - 1], h);
      forall i | 0 <= i < |front|
        ensures front[i].score >= hits[|hits| - 1].score
      {
        assert front[i] in front;
      }
    }
  }

  lemma {:induction false} InsertStable(hits: seq<RegistryHit>, h: RegistryHit, score: real)
    ensures WithScore(Insert(hits, h), score)
            == WithScore(hits, score) + if h.score == score then [h] else []
  {
    if hits == [] || hits[|hits| - 1].score >= h.score {
      assert (hits + [h])[..|hits|] == hits;
    } else {
      var front := Insert(hits[..|hits| - 1], h);
      InsertStable(hits[..|hits| - 1], h, score);
      assert (front + [hits[|hits| - 1]])[..|front|] == front;
    }
  }

  /** Sorting puts the scores in descending order and keeps, for every score, exactly the
      hits with that score in their original order. */
  lemma {:induction false} SortedExact(hits: seq<RegistryHit>)
    ensures Descending(Sorted(hits))
    ensures forall score :: WithScore(Sorted(hits), score) == WithScore(hits, score)
    ensures forall h :: h in Sorted(hits) <==> h in hits
  {
    if hits != [] {
      var front, last := hits[..|hits| - 1], hits[|hits| - 1];
      SortedExact(front);
      InsertDescending(Sorted(front), last);
      InsertKeeps(Sorted(front), last);
      assert hits == front + [last];
      forall score
        ensures WithScore(Sorted(hits), score) == WithScore(hits, score)
      {
        InsertStable(Sorted(front), last, score);
      }
    }
  }

  method SortHits(hits: seq<RegistryHit>) returns (sorted: seq<RegistryHit>)
    ensures sorted == Sorted(hits)
  {
    sorted := [];
    for i := 0 to |hits|
      invariant sorted == Sorted(hits[..i])
    {
      assert hits[..i + 1][..i] == hits[..i];
      sorted := Insert(sorted, hits[i]);
    }
    assert hits[..|hits|] == hits;
  }

  /** `MockRegistryClient.search`; `fails` is what the failure injection decides. */
  method Search(
    lib: Library, registry: Registry, entries: seq<Entry>, threshold: real, fails: bool, query: string)
    returns (r: Reply<seq<RegistryHit>>)
    ensures r.Raised? <==> fails
    ensures r.Answer? ==> r.value == Sorted(Hits(lib, registry, entries, threshold, query))
  {
    if fails {
      return Raised("RegistryUnavailableError", "registry: connection failed");
    }
    var hits: seq<RegistryHit> := [];
    for i := 0 to |entries|
      invariant hits == Hits(lib, registry, entries[..i], threshold, query)
    {
      assert entries[..i + 1][..i] == entries[..i];
      if Score(lib, query, entries[i]) >= threshold {
        hits := hits + [HitFor(lib, registry, query, entries[i])];
      }
    }
    assert entries[..|entries|] == entries;
    hits := SortHits(hits);
    return Answer(hits);
  }

  lemma {:induction false} HitsOrigin(
    lib: Library, registry: Registry, entries: seq<Entry>, threshold: real, query: string, h: RegistryHit)
    ensures h in Hits(lib, registry, entries, threshold, query)
            <==> exists e :: e in entries && Score(lib, query, e) >= threshold
                             && h == HitFor(lib, registry, query, e)
  {
    if entries != [] {
      var last := |entries| - 1;
      HitsOrigin(lib, registry, entries[..last], threshold, query, h);
      assert entries == entries[..last] + [entries[last]];
    }
  }

  /** An answer is empty if and only if no entry reaches the threshold. */
  lemma EmptyAnswerExact(lib: Library, registry: Registry, entries: seq<Entry>, threshold: real, query: string)
    ensures Sorted(Hits(lib, registry, entries, threshold, query)) == []
            <==> forall e :: e in entries ==> Score(lib, query, e) < threshold
  {
    var hits := Hits(lib, registry, entries, threshold, query);
    SortedExact(hits);
    assert hits != [] ==> hits[0] in hits;
    assert Sorted(hits) != [] ==> Sorted(hits)[0] in Sorted(hits);
    if e :| e in entries && Score(lib, query, e) >= threshold {
      HitsOrigin(lib, registry, entries, threshold, query, HitFor(lib, registry, query, e));
    }
    if hits != [] {
      HitsOrigin(lib, registry, entries, threshold, query, hits[0]);
    }
  }

  /** What a hit says: the registry asked, the entry's name and number, and to four places how
      similar the normalised query is to the normalised name. */
  lemma HitExact(lib: Library, registry: Registry, query: string, e: Entry)
    ensures var h := HitFor(lib, registry, query, e);
            && h.registry == registry && h.name == e.name && h.entry == e.id
            && Confidence.Round4(lib.ratio(Normalize(lib, query), Normalize(lib, e.name))) == h.score
  {
  }

  /** Who is a hit: the entries at least as similar as the threshold, in the list's order. */
  lemma OneMoreEntry(
    lib: Library, registry: Registry, entries: seq<Entry>, e: Entry, threshold: real, query: string)
    ensures Hits(lib, registry, [], threshold, query) == []
    ensures Hits(lib, registry, entries + [e], threshold, query)
            == Hits(lib, registry, entries, threshold, query)
               + if lib.ratio(Normalize(lib, query), Normalize(lib, e.name)) >= threshold
                 then [HitFor(lib, registry, query, e)] else []
  {
    assert (entries + [e])[..|entries|] == entries;
  }
}
