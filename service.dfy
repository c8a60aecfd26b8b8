/**
 * The newer challenge service (`ImHumane` with validated tokens).
 *
 * A generated challenge's answer is recorded under its id. `check_answer`
 * consumes that entry and, when the answer is right, turns the id into a
 * validated token; `check_token` consumes the token. Both are one-shot.
 *
 * The ledger is first given as a value with one transition function per
 * operation, so that whole call sequences can be reasoned about; the class
 * `ImHumane` then holds the same state in fields and its methods are tied to
 * those functions.
 */
module Service {
  import opened Bits
  import opened Domain
  import opened Generation
  import opened Thumbnails

  // ---------------------------------------------------------------------------
  // The answer and token ledger as a value
  // ---------------------------------------------------------------------------

  datatype Ledger = Ledger(answers: map<string, u32>, validated: set<string>)

  datatype Outcome = Outcome(ok: bool, after: Ledger)

  /**
   * `check_answer`: the entry for id is removed whatever the answer; the
   * check succeeds exactly when it existed and equalled the answer, and only
   * then does id become a validated token.
   */
  function AfterCheckAnswer(l: Ledger, id: string, answer: u32): (r: Outcome)
    ensures r.ok <==> id in l.answers && l.answers[id] == answer
    ensures r.after.answers == l.answers - {id}
    ensures r.after.validated == if r.ok then l.validated + {id} else l.validated
  {
    if id in l.answers then
      var correct := l.answers[id];
      var rest := l.answers - {id};
      if correct == answer then Outcome(true, Ledger(rest, l.validated + {id}))
      else Outcome(false, Ledger(rest, l.validated))
    else Outcome(false, l)
  }

  /** `check_token`: succeeds exactly when id was a validated token, which it no longer is. */
  function AfterCheckToken(l: Ledger, id: string): (r: Outcome)
    ensures r.ok <==> id in l.validated
    ensures r.after == Ledger(l.answers, l.validated - {id})
  {
    Outcome(id in l.validated, Ledger(l.answers, l.validated - {id}))
  }

  /** The generator recording a new challenge's answer (`answers.insert`). */
  function AfterRecord(l: Ledger, id: string, answer: u32): (r: Ledger)
    ensures id in r.answers && r.answers[id] == answer
    ensures r.answers.Keys == l.answers.Keys + {id}
    ensures forall k :: k in l.answers && k != id ==> r.answers[k] == l.answers[k]
    ensures r.validated == l.validated
  {
    Ledger(l.answers[id := answer], l.validated)
  }

  /** One call into the ledger. */
  datatype Call =
    | Record(id: string, answer: u32)
    | CheckAnswer(id: string, answer: u32)
    | CheckToken(id: string)

  function Apply(l: Ledger, c: Call): Outcome {
    match c
    case Record(id, a) => Outcome(true, AfterRecord(l, id, a))
    case CheckAnswer(id, a) => AfterCheckAnswer(l, id, a)
    case CheckToken(id) => AfterCheckToken(l, id)
  }

  /** The ledger after a sequence of calls, and each call's result in order. */
  function Replay(l: Ledger, calls: seq<Call>): (Ledger, seq<bool>)
  {
    if calls == [] then (l, [])
    else
      var (before, oks) := Replay(l, calls[..|calls| - 1]);
      var o := Apply(before, calls[|calls| - 1]);
      (o.after, oks + [o.ok])
  }

  function Count(calls: seq<Call>, oks: seq<bool>, matches: Call -> bool): nat
    requires |oks| == |calls|
  {
    if calls == [] then 0
    else Count(calls[..|calls| - 1], oks[..|oks| - 1], matches)
         + (if oks[|oks| - 1] && matches(calls[|calls| - 1]) then 1 else 0)
  }

  /** The number of Record calls for id. */
  function Records(calls: seq<Call>, id: string): nat {
    if calls == [] then 0
    else Records(calls[..|calls| - 1], id) + (if calls[|calls| - 1].Record? && calls[|calls| - 1].id == id then 1 else 0)
  }

  predicate IsTokenCheck(id: string, c: Call) {
    c.CheckToken? && c.id == id
  }

  predicate IsAnswerCheck(id: string, c: Call) {
    c.CheckAnswer? && c.id == id
  }

  /** What an id can still be redeemed for: a pending answer and a validated token. */
  function Credit(l: Ledger, id: string): nat {
    (if id in l.answers then 1 else 0) + (if id in l.validated then 1 else 0)
  }

  lemma {:induction false} ReplayLength(l: Ledger, calls: seq<Call>)
    ensures |Replay(l, calls).1| == |calls|
  {
    if calls != [] {
      ReplayLength(l, calls[..|calls| - 1]);
    }
  }

  /**
   * Over any sequence of calls, the successful token checks for id, plus
   * what id can still be redeemed for at the end, never exceed what it could
   * be redeemed for at the start plus the number of times it was recorded.
   */
  lemma {:induction false} TokenChecksBounded(l: Ledger, calls: seq<Call>, id: string)
    ensures |Replay(l, calls).1| == |calls|
    ensures Count(calls, Replay(l, calls).1, c => IsTokenCheck(id, c)) + Credit(Replay(l, calls).0, id)
            <= Credit(l, id) + Records(calls, id)
  {
    ReplayLength(l, calls);
    if calls != [] {
      var init := calls[..|calls| - 1];
      TokenChecksBounded(l, init, id);
      var (before, oks) := Replay(l, init);
      assert Replay(l, calls).1[..|calls| - 1] == oks;
    }
  }

  /**
   * A token is redeemed at most once: starting from a ledger that does not
   * know id, if id is recorded at most once (a fresh UUID), at most one
   * token check for id succeeds.
   */
  lemma RedeemedAtMostOnce(l: Ledger, calls: seq<Call>, id: string)
    requires id !in l.answers && id !in l.validated
    requires Records(calls, id) <= 1
    ensures |Replay(l, calls).1| == |calls|
    ensures Count(calls, Replay(l, calls).1, c => IsTokenCheck(id, c)) <= 1
  {
    TokenChecksBounded(l, calls, id);
  }

  /**
   * Every successful token check is paid for by a successful answer check
   * for the same id in the same sequence, or by a token already validated at
   * the start.
   */
  lemma {:induction false} TokenNeedsCorrectAnswer(l: Ledger, calls: seq<Call>, id: string)
    ensures |Replay(l, calls).1| == |calls|
    ensures Count(calls, Replay(l, calls).1, c => IsTokenCheck(id, c))
            + (if id in Replay(l, calls).0.validated then 1 else 0)
            <= (if id in l.validated then 1 else 0)
               + Count(calls, Replay(l, calls).1, c => IsAnswerCheck(id, c))
  {
    ReplayLength(l, calls);
    if calls != [] {
      var init := calls[..|calls| - 1];
      TokenNeedsCorrectAnswer(l, init, id);
      var (before, oks) := Replay(l, init);
      assert Replay(l, calls).1[..|calls| - 1] == oks;
    }
  }

  /** A second check of the same id fails, whatever either answer was. */
  lemma SecondAnswerCheckFails(l: Ledger, id: string, a: u32, b: u32)
    ensures !AfterCheckAnswer(AfterCheckAnswer(l, id, a).after, id, b).ok
  {
  }

  // ---------------------------------------------------------------------------
  // Scanning the collection directory
  // ---------------------------------------------------------------------------

  /** A file found inside a collection directory; whether its thumbnail already exists on disk. */
  datatype ImageEntry = ImageEntry(path: FilePath, isFile: bool, thumbnailExists: bool)

  /**
   * An entry of the root directory: whether it is a directory, its name if
   * it is valid Unicode, and (for a directory) its listing.
   */
  datatype RootEntry = RootEntry(path: FilePath, isDir: bool, name: Option<string>, listing: seq<ImageEntry>)

  /** The image test of the scan: a regular file whose name is not a thumbnail's. */
  predicate Kept(e: ImageEntry) {
    e.isFile && !IsThumbnailName(e.path.fileName)
  }

  function KeptImages(es: seq<ImageEntry>): seq<FilePath> {
    if es == [] then []
    else KeptImages(es[..|es| - 1]) + (if Kept(es[|es| - 1]) then [es[|es| - 1].path] else [])
  }

  /** The kept images that are pushed onto the thumbnail queue: those without a thumbnail yet. */
  function NeedThumbnail(es: seq<ImageEntry>): seq<FilePath> {
    if es == [] then []
    else NeedThumbnail(es[..|es| - 1])
         + (if Kept(es[|es| - 1]) && !es[|es| - 1].thumbnailExists then [es[|es| - 1].path] else [])
  }

  datatype ScanState = ScanState(result: Result<seq<Collection>>, queued: seq<FilePath>)

  /**
   * The outcome of scanning a root listing: the collections found (or the
   * first CollectionName error) and every path pushed onto the thumbnail
   * queue before the scan ended.
   */
  function Scan(entries: seq<RootEntry>): ScanState
  {
    if entries == [] then ScanState(Ok([]), [])
    else ScanEntry(Scan(entries[..|entries| - 1]), entries[|entries| - 1])
  }

  /** One entry of the root listing: a directory with images becomes a collection. */
  function ScanEntry(prev: ScanState, e: RootEntry): ScanState
  {
    if prev.result.Err? || !e.isDir then prev
    else
      var images := KeptImages(e.listing);
      var queued := prev.queued + NeedThumbnail(e.listing);
      if images == [] then ScanState(prev.result, queued)
      else if e.name.None? then ScanState(Err(CollectionName(e.path)), queued)
      else ScanState(Ok(prev.result.value + [Collection(e.name.value, images)]), queued)
  }

  /**
   * One entry only ever adds: queued paths are appended, at most one
   * collection is appended, an error is final, and a new error names a
   * directory whose name is not valid Unicode.
   */
  lemma ScanEntryExtends(prev: ScanState, e: RootEntry)
    ensures var r := ScanEntry(prev, e);
      && (prev.result.Err? ==> r == prev)
      && |prev.queued| <= |r.queued| && r.queued[..|prev.queued|] == prev.queued
      && (r.result.Ok? ==>
            && prev.result.Ok?
            && |prev.result.value| <= |r.result.value| <= |prev.result.value| + 1
            && r.result.value[..|prev.result.value|] == prev.result.value)
      && (r.result.Err? && prev.result.Ok? ==> e.isDir && e.name.None? && r.result.error == CollectionName(e.path))
  {
  }

  /**
   * A scan finds at most one collection per root entry, and its only error
   * names a directory of the listing whose name is not valid Unicode.
   */
  lemma {:induction false} ScanOutcome(entries: seq<RootEntry>)
    ensures Scan(entries).result.Ok? ==> |Scan(entries).result.value| <= |entries|
    ensures Scan(entries).result.Err? ==>
              exists e :: e in entries && e.isDir && e.name.None? && Scan(entries).result.error == CollectionName(e.path)
  {
    if entries != [] {
      var init := entries[..|entries| - 1];
      var last := entries[|entries| - 1];
      ScanOutcome(init);
      ScanEntryExtends(Scan(init), last);
      if Scan(init).result.Err? {
        var e :| e in init && e.isDir && e.name.None? && Scan(init).result.error == CollectionName(e.path);
        assert e in entries;
      }
    }
  }

  lemma ScanPrefix(root: seq<RootEntry>, i: nat)
    requires i < |root|
    ensures Scan(root[..i + 1]) == ScanEntry(Scan(root[..i]), root[i])
  {
    assert root[..i + 1][..i] == root[..i];
  }

  lemma {:induction false} KeptImagesClean(es: seq<ImageEntry>)
    ensures forall p :: p in KeptImages(es) ==> !IsThumbnailName(p.fileName)
    ensures forall p :: p in KeptImages(es) ==> exists e :: e in es && e.isFile && e.path == p
  {
    if es != [] {
      KeptImagesClean(es[..|es| - 1]);
    }
  }

  /** Every regular file whose name is not a thumbnail's is kept. */
  lemma {:induction false} KeptImagesComplete(es: seq<ImageEntry>)
    ensures forall e :: e in es && Kept(e) ==> e.path in KeptImages(es)
  {
    if es != [] {
      var init := es[..|es| - 1];
      KeptImagesComplete(init);
      forall e | e in es && Kept(e)
        ensures e.path in KeptImages(es)
      {
        if e != es[|es| - 1] {
          var k :| 0 <= k < |es| && es[k] == e;
          assert e in init by {
            assert k < |es| - 1;
            assert init[k] == e;
          }
        }
      }
    }
  }

  /**
   * A successful scan finds every directory of the listing that holds at
   * least one image: its name is valid Unicode and its collection, with
   * exactly the images kept from its listing, is among those found.
   */
  lemma {:induction false} ScanFindsEveryCollection(entries: seq<RootEntry>, e: RootEntry)
    requires Scan(entries).result.Ok? && e in entries && e.isDir && KeptImages(e.listing) != []
    ensures e.name.Some? && Collection(e.name.value, KeptImages(e.listing)) in Scan(entries).result.value
  {
    var init := entries[..|entries| - 1];
    var last := entries[|entries| - 1];
    ScanEntryExtends(Scan(init), last);
    if e != last {
      var k :| 0 <= k < |entries| && entries[k] == e;
      assert e in init by {
        assert k < |entries| - 1;
        assert init[k] == e;
      }
      ScanFindsEveryCollection(init, e);
      var prev := Scan(init).result.value;
      var j :| 0 <= j < |prev| && prev[j] == Collection(e.name.value, KeptImages(e.listing));
      assert Scan(entries).result.value[j] == prev[j];
    }
  }

  /** What the scan promises of every collection it keeps. */
  predicate CleanCollection(c: Collection, entries: seq<RootEntry>) {
    && c.images != []
    && (forall p :: p in c.images ==> !IsThumbnailName(p.fileName))
    && exists e :: e in entries && e.isDir && e.name == Some(c.name)
  }

  /**
   * Every collection the scan keeps is a named directory of the listing,
   * holds at least one image, and none of its images is a thumbnail file.
   */
  lemma {:induction false} ScanKeepsCleanCollections(entries: seq<RootEntry>)
    ensures Scan(entries).result.Ok? ==>
              forall c :: c in Scan(entries).result.value ==> CleanCollection(c, entries)
  {
    if entries != [] {
      var init := entries[..|entries| - 1];
      ScanKeepsCleanCollections(init);
      KeptImagesClean(entries[|entries| - 1].listing);
      forall c | Scan(init).result.Ok? && c in Scan(init).result.value
        ensures CleanCollection(c, entries)
      {
        var e :| e in init && e.isDir && e.name == Some(c.name);
        assert e in entries;
      }
    }
  }

  /** No thumbnail the service writes is ever taken for a collection image. */
  lemma ThumbnailsNeverCollected(entries: seq<RootEntry>, p: FilePath)
    requires p.fileName != "" && p.fileName != ".."
    ensures Scan(entries).result.Ok? ==>
              forall c :: c in Scan(entries).result.value ==> ThumbnailPath(p) !in c.images
  {
    ScanKeepsCleanCollections(entries);
  }

  // ---------------------------------------------------------------------------
  // The service object
  // ---------------------------------------------------------------------------

  class ImHumane {
    var queue: seq<Challenge>
    var thumbnailQueue: seq<FilePath>
    var collections: seq<Collection>
    var answers: map<string, u32>
    var validatedTokens: set<string>

    /** The ledger part of the service's state. */
    function State(): Ledger
      reads this
    {
      Ledger(answers, validatedTokens)
    }

    /** `ImHumane::new`: everything empty (the queue's capacity is not modelled). */
    constructor ()
      ensures queue == [] && thumbnailQueue == [] && collections == []
      ensures answers == map[] && validatedTokens == {}
    {
      queue := [];
      thumbnailQueue := [];
      collections := [];
      answers := map[];
      validatedTokens := {};
    }

    method CheckAnswer(challengeId: string, answer: u32) returns (ok: bool)
      modifies this
      ensures Outcome(ok, State()) == AfterCheckAnswer(old(State()), challengeId, answer)
      ensures queue == old(queue) && thumbnailQueue == old(thumbnailQueue) && collections == old(collections)
    {
      if challengeId in answers {
        var correctAnswer := answers[challengeId];
        answers := answers - {challengeId};
        if correctAnswer == answer {
          validatedTokens := validatedTokens + {challengeId};
          return true;
        }
      }
      return false;
    }

    method CheckToken(challengeId: string) returns (ok: bool)
      modifies this
      ensures Outcome(ok, State()) == AfterCheckToken(old(State()), challengeId)
      ensures queue == old(queue) && thumbnailQueue == old(thumbnailQueue) && collections == old(collections)
    {
      ok := challengeId in validatedTokens;
      validatedTokens := validatedTokens - {challengeId};
    }

    /**
     * One round of `run_generator`: a generated challenge has its answer
     * recorded under its id and is then queued; a failed generation changes
     * nothing.
     */
    method RunGeneratorStep(draw: Draw) returns (r: Result<Challenge>)
      requires |collections| >= MinSampled ==> ValidDraw(collections, draw)
      modifies this
      ensures collections == old(collections) && thumbnailQueue == old(thumbnailQueue)
      ensures r.Err? <==> |collections| < MinSampled
      ensures r.Ok? ==> State() == AfterRecord(old(State()), r.value.id, r.value.answer)
      ensures r.Ok? ==> queue == old(queue) + [r.value]
      ensures r.Err? ==> State() == old(State()) && queue == old(queue)
      ensures r.Ok? ==> r.value.id == draw.id && r.value.topic == collections[draw.sample[0]].name
    {
      r := Generate(collections, draw);
      if r.Ok? {
        answers := answers[r.value.id := r.value.answer];
        queue := queue + [r.value];
      }
    }

    /**
     * `scan_for_collections` over a root listing: images without a
     * thumbnail are queued as they are found; on success the stored
     * collection list is replaced by exactly the collections found, on a
     * CollectionName error it is left as it was.
     */
    method ScanForCollections(root: seq<RootEntry>) returns (r: Result<()>)
      modifies this
      ensures thumbnailQueue == old(thumbnailQueue) + Scan(root).queued
      ensures r.Ok? <==> Scan(root).result.Ok?
      ensures r.Ok? ==> collections == Scan(root).result.value
      ensures r.Err? ==> r.error == Scan(root).result.error && collections == old(collections)
      ensures queue == old(queue) && State() == old(State())
    {
      var found: seq<Collection> := [];
      var i := 0;
      ghost var scanned := Scan(root[..0]);
      while i < |root|
        invariant 0 <= i <= |root|
        invariant scanned == Scan(root[..i])
        invariant scanned.result == Ok(found)
        invariant thumbnailQueue == old(thumbnailQueue) + scanned.queued
        invariant collections == old(collections) && queue == old(queue) && State() == old(State())
      {
        var entry := root[i];
        ScanPrefix(root, i);
        ghost var queuedBefore := thumbnailQueue;
        scanned := ScanEntry(scanned, entry);
        if entry.isDir {
          var images := ScanDirectory(entry.listing);
          assert thumbnailQueue == old(thumbnailQueue) + scanned.queued by {
            assert scanned.queued == Scan(root[..i]).queued + NeedThumbnail(entry.listing);
            assert thumbnailQueue == queuedBefore + NeedThumbnail(entry.listing);
          }
          if images != [] {
            if entry.name.None? {
              ScanStopsAtError(root, i + 1);
              return Err(CollectionName(entry.path));
            }
            found := found + [Collection(entry.name.value, images)];
          }
        }
        i := i + 1;
      }
      assert root[..i] == root;
      collections := found;
      return Ok(());
    }

    /** The inner loop of the scan: keep the image files, queue those without a thumbnail. */
    method ScanDirectory(listing: seq<ImageEntry>) returns (images: seq<FilePath>)
      modifies this
      ensures images == KeptImages(listing)
      ensures thumbnailQueue == old(thumbnailQueue) + NeedThumbnail(listing)
      ensures collections == old(collections) && queue == old(queue) && State() == old(State())
    {
      images := [];
      var k := 0;
      while k < |listing|
        invariant 0 <= k <= |listing|
        invariant images == KeptImages(listing[..k])
        invariant thumbnailQueue == old(thumbnailQueue) + NeedThumbnail(listing[..k])
        invariant collections == old(collections) && queue == old(queue) && State() == old(State())
      {
        var image := listing[k];
        assert listing[..k + 1][..k] == listing[..k];
        if image.isFile && !IsThumbnailName(image.path.fileName) {
          if !image.thumbnailExists {
            thumbnailQueue := thumbnailQueue + [image.path];
          }
          images := images + [image.path];
        }
        k := k + 1;
      }
      assert listing[..k] == listing;
    }
  }

  /** Once the scan has failed, later entries change nothing. */
  lemma {:induction false} ScanStopsAtError(root: seq<RootEntry>, i: nat)
    requires i <= |root| && Scan(root[..i]).result.Err?
    ensures Scan(root) == Scan(root[..i])
    decreases |root| - i
  {
    if i < |root| {
      ScanPrefix(root, i);
      ScanStopsAtError(root, i + 1);
    } else {
      assert root[..i] == root;
    }
  }
}
