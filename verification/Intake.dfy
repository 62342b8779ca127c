// couchdb_capture_adapter.py: when a re-delivered capture may replace the stored intake job.
module Intake {
  import opened Json
  import Text

  /** A media record: the fields that identify it, and everything else it carries. */
  datatype Record = Record(uploadId: string, filename: string, mimeType: string, rest: Doc)

  /** `_media_record_key` */
  function RecordKey(r: Record): string {
    var uploadId, filename, mimeType := Text.Strip(r.uploadId), Text.Strip(r.filename), Text.Strip(r.mimeType);
    if uploadId != "" then uploadId
    else if filename != "" then filename + "\0" + mimeType
    else ""
  }

  /** An intake job; `rest` is everything but the export time and the media. */
  datatype Job = Job(rest: Doc, exportedAt: string, photos: seq<Record>, audio: seq<Record>)

  /** `{key(record): record for record in records}`: a later record wins. */
  function ByKey(records: seq<Record>): (m: map<string, Record>)
    ensures |m| <= |records|
    ensures forall key <- m :: m[key] in records && RecordKey(m[key]) == key
  {
    if records == [] then map[]
    else
      var last := records[|records| - 1];
      var init := ByKey(records[..|records| - 1]);
      assert |init[RecordKey(last) := last]| <= |init| + 1;
      init[RecordKey(last) := last]
  }

  /** Every record has a key, and no key occurs twice. */
  predicate Clean(records: seq<Record>) {
    "" !in ByKey(records) && |ByKey(records)| == |records|
  }

  predicate SubMap(a: map<string, Record>, b: map<string, Record>) {
    forall key <- a :: key in b && b[key] == a[key]
  }

  /** One media field only gains records. */
  predicate FieldKept(existing: seq<Record>, incoming: seq<Record>) {
    Clean(existing) && Clean(incoming) && SubMap(ByKey(existing), ByKey(incoming))
  }

  /** `is_safe_intake_media_expansion` as a predicate. */
  predicate SafeExpansion(existing: Job, incoming: Job) {
    && existing.rest == incoming.rest && existing.exportedAt == incoming.exportedAt
    && FieldKept(existing.photos, incoming.photos) && FieldKept(existing.audio, incoming.audio)
    && |incoming.photos| + |incoming.audio| > |existing.photos| + |existing.audio|
  }

  /** The dictionary of a media field, built record by record. */
  method IndexRecords(records: seq<Record>) returns (m: map<string, Record>)
    ensures m == ByKey(records)
  {
    m := map[];
    for i := 0 to |records|
      invariant m == ByKey(records[..i])
    {
      assert records[..i + 1][..i] == records[..i];
      m := m[RecordKey(records[i]) := records[i]];
    }
    assert records[..|records|] == records;
  }

  /** The loop of `is_safe_intake_media_expansion` over the two media fields. */
  method IsSafeExpansion(existing: Job, incoming: Job) returns (safe: bool)
    ensures safe <==> SafeExpansion(existing, incoming)
  {
    if existing.rest != incoming.rest || existing.exportedAt != incoming.exportedAt {
      return false;
    }
    var before, after := [existing.photos, existing.audio], [incoming.photos, incoming.audio];
    var existingCount, incomingCount := 0, 0;
    for field := 0 to 2
      invariant field >= 1 ==> FieldKept(existing.photos, incoming.photos)
      invariant field >= 2 ==> FieldKept(existing.audio, incoming.audio)
      invariant existingCount == (if field >= 1 then |existing.photos| else 0)
                                 + (if field >= 2 then |existing.audio| else 0)
      invariant incomingCount == (if field >= 1 then |incoming.photos| else 0)
                                 + (if field >= 2 then |incoming.audio| else 0)
    {
      var existingByKey := IndexRecords(before[field]);
      var incomingByKey := IndexRecords(after[field]);
      if "" in existingByKey || "" in incomingByKey || |existingByKey| != |before[field]|
         || |incomingByKey| != |after[field]| {
        return false;
      }
      if exists key <- existingByKey :: key !in incomingByKey || incomingByKey[key] != existingByKey[key] {
        return false;
      }
      existingCount := existingCount + |before[field]|;
      incomingCount := incomingCount + |after[field]|;
    }
    return incomingCount > existingCount;
  }

  /** One delivered snapshot of a capture, and the clock reading of its import. */
  datatype Delivery = Delivery(rest: Doc, photos: seq<Record>, audio: seq<Record>, now: string)

  /** The job an import builds: an export time that is already stored is kept. */
  function IncomingJob(stored: Option<Job>, d: Delivery): Job {
    var exportedAt := if stored.Some? && stored.value.exportedAt != "" then stored.value.exportedAt else d.now;
    Job(d.rest, exportedAt, d.photos, d.audio)
  }

  /** The intake decision of `import_couchdb_capture`. */
  function Deliver(stored: Option<Job>, d: Delivery): Job {
    match stored
    case None => IncomingJob(None, d)
    case Some(existing) => if SafeExpansion(existing, IncomingJob(stored, d)) then IncomingJob(stored, d) else existing
  }

  class IntakeFile {
    var stored: Option<Job>
    var writes: nat

    constructor ()
      ensures stored == None && writes == 0
    {
      stored, writes := None, 0;
    }

    /** The import of one delivery; a dry run writes nothing. */
    method Import(d: Delivery, dryRun: bool) returns (written: bool)
      modifies this
      ensures stored == if dryRun then old(stored) else Some(Deliver(old(stored), d))
      ensures writes == old(writes) + (if written then 1 else 0)
      ensures written <==> !dryRun && (old(stored).None? || Deliver(old(stored), d) != old(stored).value)
    {
      var job := IncomingJob(stored, d);
      written := !dryRun;
      if stored.Some? {
        var safe := IsSafeExpansion(stored.value, job);
        written := safe && !dryRun;
      }
      if written {
        stored, writes := Some(job), writes + 1;
      }
    }
  }

  function DeliverAll(stored: Option<Job>, ds: seq<Delivery>): (final: Option<Job>)
    ensures final.Some? <==> stored.Some? || ds != []
  {
    if ds == [] then stored else Some(Deliver(DeliverAll(stored, ds[..|ds| - 1]), ds[|ds| - 1]))
  }

  // ---- Media inclusion ----

  /** The media of a job or a delivery, by key. */
  datatype Media = Media(photos: map<string, Record>, audio: map<string, Record>)

  function MediaOf(job: Job): Media {
    Media(ByKey(job.photos), ByKey(job.audio))
  }

  function Offered(d: Delivery): Media {
    Media(ByKey(d.photos), ByKey(d.audio))
  }

  predicate Included(a: Media, b: Media) {
    SubMap(a.photos, b.photos) && SubMap(a.audio, b.audio)
  }

  predicate CleanJob(job: Job) {
    Clean(job.photos) && Clean(job.audio)
  }

  predicate CleanDelivery(d: Delivery) {
    Clean(d.photos) && Clean(d.audio)
  }

  lemma SubMapSize(a: map<string, Record>, b: map<string, Record>)
    requires SubMap(a, b)
    ensures |a| <= |b|
    ensures |a| == |b| ==> a == b
  {
    var extra := b.Keys - a.Keys;
    assert b.Keys == a.Keys + extra;
    assert |b| == |b.Keys| && |a| == |a.Keys|;
    if extra == {} {
      assert a.Keys == b.Keys;
    }
  }

  /** For clean snapshots, a safe expansion is exactly a proper inclusion of media with nothing else changed. */
  lemma SafeMeansProperInclusion(existing: Job, incoming: Job)
    requires CleanJob(existing) && CleanJob(incoming)
    ensures SafeExpansion(existing, incoming) <==>
              && existing.rest == incoming.rest && existing.exportedAt == incoming.exportedAt
              && Included(MediaOf(existing), MediaOf(incoming)) && MediaOf(existing) != MediaOf(incoming)
  {
    if Included(MediaOf(existing), MediaOf(incoming)) {
      SubMapSize(ByKey(existing.photos), ByKey(incoming.photos));
      SubMapSize(ByKey(existing.audio), ByKey(incoming.audio));
    }
  }

  // ---- Any deliveries: nothing stored is lost ----

  /** Whatever is delivered, in whatever order: once an intake exists, everything outside the media stays, no stored
      record is lost or changed, and every rewrite adds at least one record. */
  lemma {:induction false} NothingIsLost(stored: Job, ds: seq<Delivery>)
    requires stored.exportedAt != ""
    ensures var final := DeliverAll(Some(stored), ds);
            && final.Some?
            && final.value.rest == stored.rest && final.value.exportedAt == stored.exportedAt
            && Included(MediaOf(stored), MediaOf(final.value))
            && (final.value == stored || CleanJob(final.value))
            && |stored.photos| + |stored.audio| + Rewrites(Some(stored), ds)
               <= |final.value.photos| + |final.value.audio|
    decreases |ds|
  {
    if ds != [] {
      var init, d := ds[..|ds| - 1], ds[|ds| - 1];
      NothingIsLost(stored, init);
      var before := DeliverAll(Some(stored), init).value;
      OneDeliveryLosesNothing(before, d);
      IncludedChains(MediaOf(stored), MediaOf(before), MediaOf(Deliver(Some(before), d)));
    }
  }

  lemma OneDeliveryLosesNothing(existing: Job, d: Delivery)
    requires existing.exportedAt != ""
    ensures var job := Deliver(Some(existing), d);
            && job.rest == existing.rest && job.exportedAt == existing.exportedAt
            && Included(MediaOf(existing), MediaOf(job)) && (job == existing || CleanJob(job))
            && |existing.photos| + |existing.audio| + (if job == existing then 0 else 1) <= |job.photos| + |job.audio|
  {
  }

  /** How many of the deliveries replaced an existing intake. */
  function Rewrites(stored: Option<Job>, ds: seq<Delivery>): nat {
    if ds == [] then 0
    else
      var before := DeliverAll(stored, ds[..|ds| - 1]);
      Rewrites(stored, ds[..|ds| - 1])
      + (if before.Some? && Deliver(before, ds[|ds| - 1]) != before.value then 1 else 0)
  }

  // ---- When the delivery order does not matter ----

  /** A snapshot with this content outside the media, and with unique, non-blank media keys. */
  predicate Fits(d: Delivery, rest: Doc) {
    CleanDelivery(d) && d.now != "" && d.rest == rest
  }

  predicate FitsAt(ds: seq<Delivery>, i: nat, rest: Doc)
    requires i < |ds|
  {
    Fits(ds[i], rest)
  }

  ghost predicate AllFit(ds: seq<Delivery>, rest: Doc) {
    forall i :: 0 <= i < |ds| ==> FitsAt(ds, i, rest)
  }

  /** Snapshots of one capture. */
  ghost predicate OneCapture(ds: seq<Delivery>) {
    ds != [] && AllFit(ds, ds[0].rest)
  }

  function Offers(ds: seq<Delivery>): seq<Media> {
    seq(|ds|, i requires 0 <= i < |ds| => Offered(ds[i]))
  }

  predicate IncludedAt(offers: seq<Media>, i: nat, top: Media)
    requires i < |offers|
  {
    Included(offers[i], top)
  }

  ghost predicate Covers(top: Media, offers: seq<Media>) {
    forall i :: 0 <= i < |offers| ==> IncludedAt(offers, i, top)
  }

  /** One of the media includes all the others. */
  ghost predicate HasTop(offers: seq<Media>) {
    exists top :: top in offers && Covers(top, offers)
  }

  lemma IncludedChains(a: Media, b: Media, c: Media)
    requires Included(a, b) && Included(b, c)
    ensures Included(a, c)
  {
  }

  lemma IncludedBothWays(a: Media, b: Media)
    requires Included(a, b) && Included(b, a)
    ensures a == b
  {
    assert a.photos.Keys == b.photos.Keys && a.audio.Keys == b.audio.Keys;
  }

  /** A clean intake of the capture with no media beyond `top`. */
  predicate Below(job: Job, rest: Doc, top: Media) {
    CleanJob(job) && job.rest == rest && job.exportedAt != "" && Included(MediaOf(job), top)
  }

  /** The intake after some deliveries; once the top snapshot was among them, it holds its media. */
  predicate Keeps(final: Option<Job>, rest: Doc, top: Media, topSeen: bool) {
    final.Some? && Below(final.value, rest, top) && (topSeen ==> MediaOf(final.value) == top)
  }

  lemma DeliveryKeeps(existing: Job, d: Delivery, rest: Doc, top: Media, topSeen: bool)
    requires Keeps(Some(existing), rest, top, topSeen) && Fits(d, rest) && Included(Offered(d), top)
    ensures Keeps(Some(Deliver(Some(existing), d)), rest, top, topSeen || Offered(d) == top)
  {
    SafeMeansProperInclusion(existing, IncomingJob(Some(existing), d));
    if topSeen && Included(top, Offered(d)) {
      IncludedBothWays(top, Offered(d));
    }
  }

  lemma FirstKeeps(d: Delivery, rest: Doc, top: Media)
    requires Fits(d, rest) && Included(Offered(d), top)
    ensures Keeps(Some(Deliver(None, d)), rest, top, Offered(d) == top)
  {
  }

  lemma DeliverNext(ds: seq<Delivery>, n: nat)
    requires n < |ds|
    ensures DeliverAll(None, ds[..n + 1]) == Some(Deliver(DeliverAll(None, ds[..n]), ds[n]))
  {
    assert ds[..n + 1][..n] == ds[..n];
  }

  lemma AnyKeeps(before: Option<Job>, d: Delivery, rest: Doc, top: Media, topSeen: bool)
    requires if before.Some? then Keeps(before, rest, top, topSeen) else !topSeen
    requires Fits(d, rest) && Included(Offered(d), top)
    ensures Keeps(Some(Deliver(before, d)), rest, top, topSeen || Offered(d) == top)
  {
    match before
    case None => FirstKeeps(d, rest, top);
    case Some(existing) => DeliveryKeeps(existing, d, rest, top, topSeen);
  }

  lemma PrefixKeeps(ds: seq<Delivery>, n: nat, rest: Doc, top: Media, topSeen: bool)
    requires n < |ds| && AllFit(ds, rest) && Covers(top, Offers(ds))
    requires if n > 0 then Keeps(DeliverAll(None, ds[..n]), rest, top, topSeen) else !topSeen
    ensures Keeps(DeliverAll(None, ds[..n + 1]), rest, top, topSeen || Offers(ds)[n] == top)
  {
    assert FitsAt(ds, n, rest) && IncludedAt(Offers(ds), n, top);
    DeliverNext(ds, n);
    AnyKeeps(DeliverAll(None, ds[..n]), ds[n], rest, top, topSeen);
  }

  lemma {:induction false} TopIsKept(ds: seq<Delivery>, rest: Doc, top: Media, k: nat, n: nat)
    requires 0 < n <= |ds| && AllFit(ds, rest)
    requires k < |ds| && Offers(ds)[k] == top && Covers(top, Offers(ds))
    ensures Keeps(DeliverAll(None, ds[..n]), rest, top, k < n)
  {
    if n > 1 {
      TopIsKept(ds, rest, top, k, n - 1);
    }
    PrefixKeeps(ds, n - 1, rest, top, k < n - 1);
  }

  /** The intake holds the largest of the media offered. */
  ghost predicate HoldsLargest(final: Option<Job>, offers: seq<Media>) {
    final.Some? && MediaOf(final.value) in offers && Covers(MediaOf(final.value), offers)
  }

  /** When one delivered snapshot includes all the others, the intake ends with its media, whatever the order and
      the repeats. */
  lemma LargestIsKept(ds: seq<Delivery>)
    requires OneCapture(ds) && HasTop(Offers(ds))
    ensures var final := DeliverAll(None, ds);
            HoldsLargest(final, Offers(ds)) && final.value.rest == ds[0].rest && CleanJob(final.value)
  {
    var top :| top in Offers(ds) && Covers(top, Offers(ds));
    var k :| 0 <= k < |ds| && Offers(ds)[k] == top;
    TopIsKept(ds, ds[0].rest, top, k, |ds|);
    assert ds[..|ds|] == ds;
  }

  /** Both intakes exist and hold the same media and the same content outside them. */
  predicate Agree(left: Option<Job>, right: Option<Job>) {
    left.Some? && right.Some? && MediaOf(left.value) == MediaOf(right.value) && left.value.rest == right.value.rest
  }

  lemma OffersSubset(ds: seq<Delivery>, es: seq<Delivery>)
    requires forall d :: d in ds ==> d in es
    ensures forall m :: m in Offers(ds) ==> m in Offers(es)
  {
    forall m | m in Offers(ds)
      ensures m in Offers(es)
    {
      var k :| 0 <= k < |ds| && Offers(ds)[k] == m;
      var d := ds[k];
      assert d in es;
      var j :| 0 <= j < |es| && es[j] == d;
      assert Offers(es)[j] == m;
    }
  }

  lemma FitsCarries(ds: seq<Delivery>, es: seq<Delivery>, rest: Doc)
    requires AllFit(ds, rest)
    requires forall e :: e in es ==> e in ds
    ensures AllFit(es, rest)
  {
    forall i | 0 <= i < |es|
      ensures FitsAt(es, i, rest)
    {
      var e := es[i];
      assert e in ds;
      var k :| 0 <= k < |ds| && ds[k] == e;
      assert FitsAt(ds, k, rest);
    }
  }

  lemma CoversCarries(top: Media, offers: seq<Media>, others: seq<Media>)
    requires Covers(top, offers)
    requires forall m :: m in others ==> m in offers
    ensures Covers(top, others)
  {
    forall i | 0 <= i < |others|
      ensures IncludedAt(others, i, top)
    {
      var m := others[i];
      assert m in offers;
      var k :| 0 <= k < |offers| && offers[k] == m;
      assert IncludedAt(offers, k, top);
    }
  }

  lemma LargestIsUnique(a: Media, b: Media, offers: seq<Media>)
    requires a in offers && b in offers && Covers(a, offers) && Covers(b, offers)
    ensures a == b
  {
    var i :| 0 <= i < |offers| && offers[i] == a;
    var j :| 0 <= j < |offers| && offers[j] == b;
    assert IncludedAt(offers, i, b) && IncludedAt(offers, j, a);
    IncludedBothWays(a, b);
  }

  /** Delivery-order independence: two sequences that deliver the same snapshots, one of which includes all the
      others, in any order and with any repeats, leave the same intake but for its export time. */
  lemma OrderDoesNotMatter(ds: seq<Delivery>, es: seq<Delivery>)
    requires OneCapture(ds) && HasTop(Offers(ds))
    requires forall d :: d in ds <==> d in es
    ensures Agree(DeliverAll(None, ds), DeliverAll(None, es))
  {
    assert ds[0] in es;
    FitsCarries(ds, es, ds[0].rest);
    assert FitsAt(es, 0, ds[0].rest);
    OffersSubset(ds, es);
    OffersSubset(es, ds);
    var top :| top in Offers(ds) && Covers(top, Offers(ds));
    CoversCarries(top, Offers(ds), Offers(es));
    LargestIsKept(ds);
    LargestIsKept(es);
    SameLargest(DeliverAll(None, ds), Offers(ds), DeliverAll(None, es), Offers(es));
  }

  lemma SameLargest(left: Option<Job>, offers: seq<Media>, right: Option<Job>, others: seq<Media>)
    requires HoldsLargest(left, offers) && HoldsLargest(right, others)
    requires forall m :: m in offers <==> m in others
    ensures MediaOf(left.value) == MediaOf(right.value)
  {
    CoversCarries(MediaOf(right.value), others, offers);
    LargestIsUnique(MediaOf(left.value), MediaOf(right.value), offers);
  }

  // ---- When the delivery order matters ----

  lemma {:induction false} FirstThenRest(d: Delivery, rest: seq<Delivery>)
    ensures DeliverAll(None, [d] + rest) == DeliverAll(Some(IncomingJob(None, d)), rest)
    decreases |rest|
  {
    if rest == [] {
      assert [d] + rest == [d] && [d][..0] == [];
    } else {
      FirstThenRest(d, rest[..|rest| - 1]);
      assert ([d] + rest)[..|rest|] == [d] + rest[..|rest| - 1];
    }
  }

  /** The snapshot that is delivered first is never lost. */
  lemma FirstIsNeverLost(d: Delivery, rest: seq<Delivery>)
    requires d.now != ""
    ensures var final := DeliverAll(None, [d] + rest); final.Some? && Included(Offered(d), MediaOf(final.value))
  {
    FirstThenRest(d, rest);
    NothingIsLost(IncomingJob(None, d), rest);
  }

  /** The intake holds the media of one of the delivered snapshots. */
  lemma {:induction false} MediaWereOffered(ds: seq<Delivery>)
    requires ds != []
    ensures MediaOf(DeliverAll(None, ds).value) in Offers(ds)
  {
    var init, last := ds[..|ds| - 1], ds[|ds| - 1];
    assert Offers(ds) == Offers(init) + [Offered(last)];
    MediaAfter(DeliverAll(None, init), last);
    if init != [] {
      MediaWereOffered(init);
    }
  }

  lemma MediaAfter(before: Option<Job>, d: Delivery)
    ensures MediaOf(Deliver(before, d)) == Offered(d) || (before.Some? && Deliver(before, d) == before.value)
  {
  }

  /** The deliveries with one of them moved to the front. */
  function MovedFirst(ds: seq<Delivery>, k: nat): seq<Delivery>
    requires k < |ds|
  {
    [ds[k]] + (ds[..k] + ds[k + 1..])
  }

  lemma MovedFirstIsAnOrder(ds: seq<Delivery>, k: nat)
    requires k < |ds|
    ensures multiset(MovedFirst(ds, k)) == multiset(ds)
  {
    assert ds == ds[..k] + [ds[k]] + ds[k + 1..];
  }

  /** Every order of the deliveries leaves the same intake but for its export time. */
  ghost predicate OrderFree(ds: seq<Delivery>) {
    forall es :: multiset(es) == multiset(ds) ==> Agree(DeliverAll(None, ds), DeliverAll(None, es))
  }

  /** Without a snapshot that includes all the others, some order leaves other media: deliver first one that the
      intake misses. */
  lemma WithoutTop(ds: seq<Delivery>) returns (k: nat)
    requires OneCapture(ds) && !HasTop(Offers(ds))
    ensures k < |ds| && !Agree(DeliverAll(None, ds), DeliverAll(None, MovedFirst(ds, k)))
  {
    var media := MediaOf(DeliverAll(None, ds).value);
    MediaWereOffered(ds);
    assert !Covers(media, Offers(ds));
    k :| 0 <= k < |ds| && !IncludedAt(Offers(ds), k, media);
    assert FitsAt(ds, k, ds[0].rest);
    FirstIsNeverLost(ds[k], ds[..k] + ds[k + 1..]);
  }

  /** The exact condition: all orders of the deliveries of one capture leave the same intake, but for its export
      time, if and only if one of the snapshots includes all the others. */
  lemma OrderFreeIffTop(ds: seq<Delivery>)
    requires OneCapture(ds)
    ensures OrderFree(ds) <==> HasTop(Offers(ds))
  {
    if HasTop(Offers(ds)) {
      forall es | multiset(es) == multiset(ds)
        ensures Agree(DeliverAll(None, ds), DeliverAll(None, es))
      {
        SameElements(ds, es);
        OrderDoesNotMatter(ds, es);
      }
    } else {
      var k := WithoutTop(ds);
      MovedFirstIsAnOrder(ds, k);
    }
  }

  lemma SameElements(ds: seq<Delivery>, es: seq<Delivery>)
    requires multiset(es) == multiset(ds)
    ensures forall d :: d in ds <==> d in es
  {
    forall d
      ensures d in ds <==> d in es
    {
      assert d in ds <==> d in multiset(ds);
      assert d in es <==> d in multiset(es);
    }
  }

  // ---- Special cases ----

  predicate Comparable(a: Media, b: Media) {
    Included(a, b) || Included(b, a)
  }

  predicate ComparableAt(offers: seq<Media>, i: nat, j: nat)
    requires i < |offers| && j < |offers|
  {
    Comparable(offers[i], offers[j])
  }

  /** Any two snapshots are comparable by media inclusion. */
  ghost predicate Chain(offers: seq<Media>) {
    forall i, j :: 0 <= i < |offers| && 0 <= j < |offers| ==> ComparableAt(offers, i, j)
  }

  /** The larger of `top` and the last of the media includes all of them, when `top` includes the others. */
  lemma LargerOf(top: Media, init: seq<Media>, last: Media)
    requires Covers(top, init) && Comparable(top, last)
    ensures Covers(if Included(top, last) then last else top, init + [last])
  {
    var larger, all := if Included(top, last) then last else top, init + [last];
    forall i | 0 <= i < |all|
      ensures IncludedAt(all, i, larger)
    {
      if i < |init| {
        assert IncludedAt(init, i, top);
        IncludedChains(init[i], top, larger);
      }
    }
  }

  /** In a chain one snapshot includes all the others. */
  lemma {:induction false} ChainHasTop(offers: seq<Media>)
    requires offers != [] && Chain(offers)
    ensures HasTop(offers)
  {
    var init, last := offers[..|offers| - 1], offers[|offers| - 1];
    if init == [] {
      assert Covers(last, offers);
    } else {
      forall i, j | 0 <= i < |init| && 0 <= j < |init|
        ensures ComparableAt(init, i, j)
      {
        assert ComparableAt(offers, i, j);
      }
      ChainHasTop(init);
      var top :| top in init && Covers(top, init);
      var k :| 0 <= k < |init| && init[k] == top;
      assert ComparableAt(offers, k, |offers| - 1);
      LargerOf(top, init, last);
      assert offers == init + [last];
    }
  }

  /** Two snapshots of one capture leave the same media in both orders if and only if one includes the other. */
  lemma TwoOrdersAgreeIffComparable(a: Delivery, b: Delivery)
    requires OneCapture([a, b])
    ensures MediaOf(DeliverAll(None, [a, b]).value) == MediaOf(DeliverAll(None, [b, a]).value)
            <==> Comparable(Offered(a), Offered(b))
  {
    assert [a, b][0] == a && [a, b][1] == b;
    assert FitsAt([a, b], 0, a.rest) && FitsAt([a, b], 1, a.rest);
    SecondDelivery(a, b);
    SecondDelivery(b, a);
    if Included(Offered(a), Offered(b)) && Included(Offered(b), Offered(a)) {
      IncludedBothWays(Offered(a), Offered(b));
    }
  }

  /** The second of two deliveries wins exactly when it includes the first. */
  lemma SecondDelivery(a: Delivery, b: Delivery)
    requires CleanDelivery(a) && CleanDelivery(b) && a.rest == b.rest && a.now != ""
    ensures DeliverAll(None, [a, b]).Some?
    ensures MediaOf(DeliverAll(None, [a, b]).value)
            == if Included(Offered(a), Offered(b)) then Offered(b) else Offered(a)
  {
    var stored := IncomingJob(None, a);
    assert [a, b][..1] == [a] && [a][..0] == [];
    assert DeliverAll(None, [a]) == Some(stored);
    SafeMeansProperInclusion(stored, IncomingJob(Some(stored), b));
  }
}
