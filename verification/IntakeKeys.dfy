// Which media records of an intake count as one and the same.
module IntakeKeys {
  import opened Json
  import opened Intake
  import Text

  /** The upload id decides wherever there is one: two records with upload ids are one exactly when these are equal,
      whatever their file names. */
  lemma UploadIdDecides(a: Record, b: Record)
    requires Text.Strip(a.uploadId) != "" && Text.Strip(b.uploadId) != ""
    ensures RecordKey(a) == RecordKey(b) <==> Text.Strip(a.uploadId) == Text.Strip(b.uploadId)
  {
  }

  /** Without upload ids two records are one exactly when file name and type are equal. */
  lemma FileDecides(a: Record, b: Record)
    requires Text.Strip(a.uploadId) == "" && Text.Strip(b.uploadId) == ""
    requires Text.Strip(a.filename) != "" && Text.Strip(b.filename) != ""
    requires '\0' !in Text.Strip(a.filename) && '\0' !in Text.Strip(b.filename)
    ensures RecordKey(a) == RecordKey(b)
            <==> Text.Strip(a.filename) == Text.Strip(b.filename) && Text.Strip(a.mimeType) == Text.Strip(b.mimeType)
  {
    if RecordKey(a) == RecordKey(b) {
      SplitAtNul(Text.Strip(a.filename), Text.Strip(a.mimeType), Text.Strip(b.filename), Text.Strip(b.mimeType));
    }
  }

  lemma SplitAtNul(a: string, x: string, b: string, y: string)
    requires '\0' !in a && '\0' !in b && a + "\0" + x == b + "\0" + y
    ensures a == b && x == y
  {
    var s, t := a + "\0" + x, b + "\0" + y;
    assert s[|a|] == '\0' && t[|b|] == '\0';
    assert forall i :: 0 <= i < |a| ==> s[i] == a[i];
    assert forall i :: 0 <= i < |b| ==> t[i] == b[i];
    assert |a| == |b|;
    assert a == s[..|a|] && b == t[..|b|] && x == s[|a| + 1..] && y == t[|b| + 1..];
  }

  /** A record with an upload id and one without are not one, unless the id holds a NUL. */
  lemma UploadIsNoFile(a: Record, b: Record)
    requires Text.Strip(a.uploadId) != "" && '\0' !in Text.Strip(a.uploadId) && Text.Strip(b.uploadId) == ""
    ensures RecordKey(a) != RecordKey(b)
  {
    if Text.Strip(b.filename) != "" {
      var key := RecordKey(b);
      assert key[|Text.Strip(b.filename)|] == '\0';
    }
  }

  /** A record without upload id and file name has no key, whatever its type. */
  lemma NoKey(r: Record)
    ensures RecordKey(r) == "" <==> Text.Strip(r.uploadId) == "" && Text.Strip(r.filename) == ""
  {
  }

  /** Record `i` is the last one with this key. */
  predicate LastWithKey(records: seq<Record>, key: string, i: nat) {
    i < |records| && RecordKey(records[i]) == key && forall j :: i < j < |records| ==> RecordKey(records[j]) != key
  }

  lemma LastOfPrefix(records: seq<Record>, key: string, i: nat)
    requires records != [] && RecordKey(records[|records| - 1]) != key
    ensures LastWithKey(records, key, i) <==> LastWithKey(records[..|records| - 1], key, i)
  {
    var init := records[..|records| - 1];
    assert forall j :: 0 <= j < |init| ==> init[j] == records[j];
  }

  /** The dictionary of a media field holds the last record of every key that occurs, and nothing else. */
  lemma {:induction false} LastRecordWins(records: seq<Record>, key: string)
    ensures key in ByKey(records) <==> exists i: nat :: LastWithKey(records, key, i)
    ensures forall i: nat :: LastWithKey(records, key, i) ==> key in ByKey(records) && ByKey(records)[key] == records[i]
  {
    if records != [] {
      var init, last := records[..|records| - 1], |records| - 1;
      LastRecordWins(init, key);
      if RecordKey(records[last]) == key {
        assert LastWithKey(records, key, last);
      } else {
        forall i: nat
          ensures LastWithKey(records, key, i) <==> LastWithKey(init, key, i)
        {
          LastOfPrefix(records, key, i);
        }
        assert forall i: nat :: LastWithKey(init, key, i) ==> init[i] == records[i];
      }
    }
  }

  function KeysOf(records: seq<Record>): (keys: seq<string>)
    ensures |keys| == |records|
  {
    seq(|records|, i requires 0 <= i < |records| => RecordKey(records[i]))
  }

  lemma KeysOfLast(records: seq<Record>)
    requires records != []
    ensures KeysOf(records) == KeysOf(records[..|records| - 1]) + [RecordKey(records[|records| - 1])]
  {
  }

  predicate Distinct(keys: seq<string>) {
    forall i, j :: 0 <= i < j < |keys| ==> keys[i] != keys[j]
  }

  lemma DistinctLast(init: seq<string>, key: string)
    ensures Distinct(init + [key]) <==> Distinct(init) && key !in init
  {
    var keys := init + [key];
    assert keys[|init|] == key && forall i :: 0 <= i < |init| ==> keys[i] == init[i];
    if Distinct(keys) {
      assert forall i, j :: 0 <= i < j < |init| ==> keys[i] != keys[j];
    }
  }

  lemma {:induction false} KeyOccurs(records: seq<Record>, key: string)
    ensures key in ByKey(records) <==> key in KeysOf(records)
  {
    if records != [] {
      KeyOccurs(records[..|records| - 1], key);
      KeysOfLast(records);
      OneMoreKey(records, key);
    }
  }

  lemma OneMoreKey(records: seq<Record>, key: string)
    requires records != []
    ensures key in ByKey(records) <==> key in ByKey(records[..|records| - 1]) || key == RecordKey(records[|records| - 1])
  {
  }

  lemma SizeOfOneMore(records: seq<Record>)
    requires records != []
    ensures var init, key := ByKey(records[..|records| - 1]), RecordKey(records[|records| - 1]);
            |ByKey(records)| == |init| + if key in init then 0 else 1
  {
    SizeWith(ByKey(records[..|records| - 1]), RecordKey(records[|records| - 1]), records[|records| - 1]);
  }

  lemma {:induction false} FullMeansDistinct(records: seq<Record>)
    ensures |ByKey(records)| == |records| <==> Distinct(KeysOf(records))
  {
    if records != [] {
      var init, key := records[..|records| - 1], RecordKey(records[|records| - 1]);
      FullMeansDistinct(init);
      KeyOccurs(init, key);
      KeysOfLast(records);
      DistinctLast(KeysOf(init), key);
      SizeOfOneMore(records);
    }
  }

  lemma SizeWith(m: map<string, Record>, key: string, r: Record)
    ensures |m[key := r]| == |m| + if key in m then 0 else 1
  {
    if key in m {
      assert m[key := r].Keys == m.Keys;
    } else {
      assert m[key := r].Keys == m.Keys + {key};
    }
    assert |m[key := r]| == |m[key := r].Keys| && |m| == |m.Keys|;
  }

  /** A media field is clean exactly when every record has a key and no two records share one. */
  lemma CleanMeans(records: seq<Record>)
    ensures Clean(records)
            <==> Distinct(KeysOf(records)) && "" !in KeysOf(records)
  {
    KeyOccurs(records, "");
    FullMeansDistinct(records);
  }

  /** The job of a delivery: its content and media, with the export time that is already stored, if there is one. */
  lemma DeliveryIsStored(stored: Option<Job>, d: Delivery)
    ensures var job := Deliver(stored, d);
            stored == Some(job)
            || (job.rest == d.rest && job.photos == d.photos && job.audio == d.audio
                && job.exportedAt == (if stored.None? || stored.value.exportedAt == "" then d.now
                                      else stored.value.exportedAt))
    ensures stored.None? ==> Deliver(stored, d) == Job(d.rest, d.now, d.photos, d.audio)
  {
  }
}
