// What a field patch of an action candidate says, in terms of the entries of the request.
module CandidatePatch {
  import opened Json
  import opened CandidateOps
  import Text

  /** The entry gives this field a value: itself, or inside the channel metadata. */
  predicate Gives(entry: (Key, Value), key: Key) {
    if entry.0 == ChannelMetadata then entry.1.Obj? && key in entry.1.fields else key == entry.0
  }

  function Given(entry: (Key, Value), key: Key): Value
    requires Gives(entry, key)
  {
    if entry.0 == ChannelMetadata then entry.1.fields[key] else entry.1
  }

  predicate AllowedEntry(entry: (Key, Value)) {
    if entry.0 == ChannelMetadata then
      entry.1.Obj? && forall name <- entry.1.fields :: name in [SiteId, Area, VisitProposed, VisitType]
    else entry.0 in [SiteId, Area, VisitProposed, VisitType, Summary, Rationale, SourceText, Confidence]
  }

  lemma EntryIsAllowed(patch: Doc, entry: (Key, Value))
    ensures AddField(patch, entry.0, entry.1).Some? <==> AllowedEntry(entry)
  {
  }

  lemma EntryAdded(patch: Doc, entry: (Key, Value), key: Key)
    ensures var r := AddField(patch, entry.0, entry.1);
            && (r.Some? ==> (key in r.value <==> key in patch || Gives(entry, key)))
            && (r.Some? && key in r.value ==>
                  r.value[key] == if Gives(entry, key) then Given(entry, key) else patch[key])
  {
  }

  /** A patch is refused exactly when one of its entries is not allowed. */
  lemma {:induction false} PatchIsAllowed(fields: seq<(Key, Value)>)
    ensures NormalPatch(fields).Some? <==> forall i :: 0 <= i < |fields| ==> AllowedEntry(fields[i])
  {
    if fields != [] {
      var init, last := fields[..|fields| - 1], fields[|fields| - 1];
      PatchIsAllowed(init);
      assert forall i :: 0 <= i < |init| ==> init[i] == fields[i];
      if NormalPatch(init).Some? {
        EntryIsAllowed(NormalPatch(init).value, last);
      }
    }
  }

  /** Entry `i` is the last one to give this field a value. */
  predicate LastToGive(fields: seq<(Key, Value)>, key: Key, i: nat) {
    i < |fields| && Gives(fields[i], key) && forall j :: i < j < |fields| ==> !Gives(fields[j], key)
  }

  /** What comes before an entry that says nothing of the field. */
  lemma LastIsSilent(fields: seq<(Key, Value)>, key: Key, i: nat)
    requires fields != [] && !Gives(fields[|fields| - 1], key)
    ensures LastToGive(fields, key, i) <==> LastToGive(fields[..|fields| - 1], key, i)
  {
    var init := fields[..|fields| - 1];
    assert forall j :: 0 <= j < |init| ==> init[j] == fields[j];
  }

  /** A normalized patch holds exactly the fields that some entry gives, with the value of the last such entry. */
  lemma {:induction false} LastEntryDecides(fields: seq<(Key, Value)>, key: Key)
    requires NormalPatch(fields).Some?
    ensures key in NormalPatch(fields).value <==> exists i: nat :: LastToGive(fields, key, i)
    ensures forall i: nat :: LastToGive(fields, key, i) ==>
              key in NormalPatch(fields).value && NormalPatch(fields).value[key] == Given(fields[i], key)
  {
    if fields != [] {
      var init, last := fields[..|fields| - 1], |fields| - 1;
      LastEntryDecides(init, key);
      EntryAdded(NormalPatch(init).value, fields[last], key);
      if Gives(fields[last], key) {
        assert LastToGive(fields, key, last);
      } else {
        forall i: nat
          ensures LastToGive(fields, key, i) <==> LastToGive(init, key, i)
        {
          LastIsSilent(fields, key, i);
        }
        assert forall i: nat :: LastToGive(init, key, i) ==> init[i] == fields[i];
      }
    }
  }

  /** The same letters, where `s` may have capitals. */
  predicate SameButCase(s: string, word: string) {
    |s| == |word| && forall i :: 0 <= i < |s| ==>
      (if 'A' <= s[i] <= 'Z' then word[i] as int == s[i] as int + 32 else word[i] == s[i])
  }

  predicate SaysYes(v: Value) {
    match v
    case Bool(b) => b
    case Num(n) => n != 0
    case Str(s) => exists word <- ["1", "true", "yes", "on"] :: SameButCase(Text.Strip(s), word)
    case _ => false
  }

  lemma LowerIs(s: string, word: string)
    ensures Lower(s) == word <==> SameButCase(s, word)
  {
    if SameButCase(s, word) {
      assert Lower(s) == word;
    } else if |s| == |word| {
      var i :| 0 <= i < |s|
               && !(if 'A' <= s[i] <= 'Z' then word[i] as int == s[i] as int + 32 else word[i] == s[i]);
      assert Lower(s)[i] != word[i];
    }
  }

  lemma AnyOf(s: string)
    ensures Lower(s) in {"1", "true", "yes", "on"} <==> exists word <- ["1", "true", "yes", "on"] :: SameButCase(s, word)
  {
    LowerIs(s, "1");
    LowerIs(s, "true");
    LowerIs(s, "yes");
    LowerIs(s, "on");
    assert forall word <- ["1", "true", "yes", "on"] :: word == "1" || word == "true" || word == "yes" || word == "on";
    assert "1" in ["1", "true", "yes", "on"] && "true" in ["1", "true", "yes", "on"];
    assert "yes" in ["1", "true", "yes", "on"] && "on" in ["1", "true", "yes", "on"];
  }

  /** A proposed visit is stored as yes or no, the confidence as given, and every other field as text; a value that has
      been stored is stored again unchanged. */
  lemma CoercedIs(key: Key, v: Value)
    ensures Coerced(key, v) == if key == VisitProposed then Bool(SaysYes(v)) else if key == Confidence then v
                               else Str(TextOf(v))
    ensures Coerced(key, Coerced(key, v)) == Coerced(key, v)
  {
    assert TextOf(Str(TextOf(v))) == TextOf(v);
    if key == VisitProposed && v.Str? {
      AnyOf(Text.Strip(TextOf(v)));
    } else if key == VisitProposed && !v.Bool? && !v.Num? {
      NoTextSaysYes(v);
    }
  }

  lemma NoTextSaysYes(v: Value)
    requires !v.Str? && !v.Bool? && !v.Num?
    ensures Lower(Text.Strip(TextOf(v))) !in {"1", "true", "yes", "on"}
  {
    if Truthy(v) {
      NothingStripped("<value>");
      assert Lower("<value>")[0] == '<';
    } else {
      assert Text.Strip("") == "" && Lower("") == "";
    }
  }

  lemma NothingStripped(s: string)
    requires s != "" && Text.Trimmed(s)
    ensures Text.Strip(s) == s
  {
  }
}
