// Submitting a shift report and repairing what the inspection service dropped
// (project/btq_cli/shift_report_to_sc.py).
module Repair {
  import opened Json
  import opened Text

  /** An entry of a `selected` list: an object with an id (empty when absent), or something else. */
  datatype Choice = Choice(id: string) | NotChoice

  /** The `responses` object of an item. An absent or null text is the empty text where it is compared. */
  datatype Answer = Answer(text: Option<string>, datetime: Option<string>, selected: Option<seq<Choice>>,
                           others: map<string, string>)

  datatype Responses = NotObject | Object(answer: Answer)

  /** A list entry: an object with its item id (empty when absent) and its responses, or something else. */
  datatype Item = Item(id: string, responses: Responses) | NotItem

  datatype Body = Body(headerItems: seq<Item>, items: seq<Item>)

  function OrEmpty(s: Option<string>): string {
    if s.Some? then s.value else ""
  }

  /** `s.replace(".000Z", "Z")`. */
  function ShortZ(s: string): string {
    if s == "" then ""
    else if |s| >= 5 && s[..5] == ".000Z" then "Z" + ShortZ(s[5..])
    else [s[0]] + ShortZ(s[1..])
  }

  function Ids(choices: seq<Choice>): set<string> {
    set c | c in choices && c.Choice? :: c.id
  }

  /** `_responses_match`. */
  predicate Match(expected: Responses, actual: Responses) {
    if expected.NotObject? || actual.NotObject? then false
    else
      var e, a := expected.answer, actual.answer;
      if e.text.Some? then OrEmpty(a.text) == OrEmpty(e.text)
      else if e.datetime.Some? then ShortZ(OrEmpty(a.datetime)) == ShortZ(OrEmpty(e.datetime))
      else if e.selected.Some? then
        Ids(if a.selected.Some? then a.selected.value else []) == Ids(e.selected.value)
      else e == a
  }

  // ---- What it means to match ----

  const FRACTION := ".000Z"

  predicate OccursAt(pattern: string, s: string, i: nat) {
    i + |pattern| <= |s| && s[i..i + |pattern|] == pattern
  }

  ghost predicate Occurs(pattern: string, s: string) {
    exists i: nat :: OccursAt(pattern, s, i)
  }

  /** The parts with a separator between them. */
  function Join(parts: seq<string>, separator: string): string {
    if parts == [] then "" else if |parts| == 1 then parts[0] else parts[0] + separator + Join(parts[1..], separator)
  }

  /** `r` is `s` with every ".000Z" replaced by "Z". */
  ghost predicate Shortens(s: string, r: string) {
    exists parts: seq<string> ::
      s == Join(parts, FRACTION) && r == Join(parts, "Z") && forall p <- parts :: !Occurs(FRACTION, p)
  }

  /** The same time, zero milliseconds or not. */
  ghost predicate SameTime(a: string, b: string) {
    exists r :: Shortens(a, r) && Shortens(b, r)
  }

  /** A text without the fraction, followed by nothing or by the fraction, keeps its characters. */
  lemma {:induction false} ShortPart(p: string, rest: string)
    requires !Occurs(FRACTION, p) && (rest == "" || rest[0] == '.')
    ensures ShortZ(p + rest) == p + ShortZ(rest)
  {
    if p == "" {
      assert p + rest == rest;
    } else {
      var s := p + rest;
      assert s[1..] == p[1..] + rest;
      if |s| >= 5 && s[..5] == FRACTION {
        NotAtTheStart(p, rest);
      }
      NoLaterOccurrence(p);
      ShortPart(p[1..], rest);
    }
  }

  lemma NotAtTheStart(p: string, rest: string)
    requires p != "" && !Occurs(FRACTION, p) && (rest == "" || rest[0] == '.')
    ensures !(|p + rest| >= 5 && (p + rest)[..5] == FRACTION)
  {
    var s := p + rest;
    if |p| >= 5 {
      assert p[0..0 + |FRACTION|] == s[..5];
      assert !OccursAt(FRACTION, p, 0);
    } else if |s| >= 5 {
      assert s[|p|] == rest[0] && s[..5][|p|] == s[|p|];
      assert FRACTION[1] == FRACTION[2] == FRACTION[3] == '0' && FRACTION[4] == 'Z';
    }
  }

  lemma LaterOccurrence(p: string, i: nat)
    requires p != "" && OccursAt(FRACTION, p[1..], i)
    ensures OccursAt(FRACTION, p, i + 1)
  {
    var here, there := p[i + 1..i + 1 + |FRACTION|], p[1..][i..i + |FRACTION|];
    assert forall k :: 0 <= k < |FRACTION| ==> here[k] == p[i + 1 + k] == there[k];
    assert here == there;
  }

  lemma NoLaterOccurrence(p: string)
    requires p != "" && !Occurs(FRACTION, p)
    ensures !Occurs(FRACTION, p[1..])
  {
    if Occurs(FRACTION, p[1..]) {
      var i: nat :| OccursAt(FRACTION, p[1..], i);
      LaterOccurrence(p, i);
    }
  }

  lemma {:induction false} ShortOfJoin(parts: seq<string>)
    requires forall p <- parts :: !Occurs(FRACTION, p)
    ensures ShortZ(Join(parts, FRACTION)) == Join(parts, "Z")
  {
    if |parts| == 1 {
      ShortPart(parts[0], "");
      assert parts[0] + "" == parts[0];
    } else if parts != [] {
      var tail, short := Join(parts[1..], FRACTION), Join(parts[1..], "Z");
      ShortOfJoin(parts[1..]);
      StartsWithDot(tail);
      ShortPart(parts[0], FRACTION + tail);
      ShortFraction(tail);
      assert parts[0] + FRACTION + tail == parts[0] + (FRACTION + tail);
      assert parts[0] + "Z" + short == parts[0] + ("Z" + short);
    }
  }

  lemma StartsWithDot(tail: string)
    ensures (FRACTION + tail)[0] == '.'
  {
  }

  lemma ShortFraction(tail: string)
    ensures ShortZ(FRACTION + tail) == "Z" + ShortZ(tail)
  {
    assert (FRACTION + tail)[..5] == FRACTION && (FRACTION + tail)[5..] == tail;
  }

  /** Where the fractions of a text are. */
  lemma {:induction false} SplitAtFractions(s: string) returns (parts: seq<string>)
    ensures parts != [] && s == Join(parts, FRACTION) && forall p <- parts :: !Occurs(FRACTION, p)
    ensures |parts[0]| <= |s| && parts[0] == s[..|parts[0]|]
  {
    if s == "" {
      parts := [""];
    } else if |s| >= 5 && s[..5] == FRACTION {
      var rest := SplitAtFractions(s[5..]);
      parts := [""] + rest;
      assert parts[1..] == rest && s == "" + FRACTION + s[5..];
    } else {
      var rest := SplitAtFractions(s[1..]);
      parts := rest[0 := [s[0]] + rest[0]];
      OneCharacterMore(s, rest[0]);
      assert parts[1..] == rest[1..];
      assert s == [s[0]] + s[1..];
      if |rest| > 1 {
        assert [s[0]] + (rest[0] + FRACTION + Join(rest[1..], FRACTION))
            == [s[0]] + rest[0] + FRACTION + Join(rest[1..], FRACTION);
      }
      forall p <- parts
        ensures !Occurs(FRACTION, p)
      {
        if p != parts[0] {
          assert p in rest;
        }
      }
    }
  }

  lemma OneCharacterMore(s: string, first: string)
    requires s != "" && !(|s| >= 5 && s[..5] == FRACTION) && !Occurs(FRACTION, first)
    requires |first| < |s| && first == s[1..1 + |first|]
    ensures !Occurs(FRACTION, [s[0]] + first) && [s[0]] + first == s[..1 + |first|]
  {
    var longer := [s[0]] + first;
    forall i: nat
      ensures !OccursAt(FRACTION, longer, i)
    {
      if i + |FRACTION| <= |longer| {
        if i == 0 {
          assert longer[0..0 + |FRACTION|] == s[..5];
        } else {
          assert longer[i..i + |FRACTION|] == first[i - 1..i - 1 + |FRACTION|];
          assert !OccursAt(FRACTION, first, i - 1);
        }
      }
    }
  }

  /** The replacement in the code is the replacement of every fraction. */
  lemma ShortZReplaces(s: string, r: string)
    ensures Shortens(s, r) <==> r == ShortZ(s)
  {
    var parts := SplitAtFractions(s);
    ShortOfJoin(parts);
    if Shortens(s, r) {
      var others: seq<string> :|
        s == Join(others, FRACTION) && r == Join(others, "Z") && forall p <- others :: !Occurs(FRACTION, p);
      ShortOfJoin(others);
    }
  }

  predicate Selects(choices: Option<seq<Choice>>, id: string) {
    choices.Some? && Choice(id) in choices.value
  }

  /** The item shows what was expected: the same text, else the same time, else the same selected ids, else the same
      responses altogether. Which of them counts is decided by what was expected. */
  ghost predicate ShowsSame(expected: Responses, actual: Responses) {
    && expected.Object? && actual.Object?
    && var e, a := expected.answer, actual.answer;
       if e.text.Some? then (if a.text.Some? then a.text.value else "") == e.text.value
       else if e.datetime.Some? then SameTime(e.datetime.value, if a.datetime.Some? then a.datetime.value else "")
       else if e.selected.Some? then forall id :: Selects(e.selected, id) <==> Selects(a.selected, id)
       else e == a
  }

  lemma SameTimeIsShort(a: string, b: string)
    ensures SameTime(a, b) <==> ShortZ(a) == ShortZ(b)
  {
    ShortZReplaces(a, ShortZ(a));
    ShortZReplaces(b, ShortZ(a));
    if SameTime(a, b) {
      var r :| Shortens(a, r) && Shortens(b, r);
      ShortZReplaces(a, r);
      ShortZReplaces(b, r);
    }
  }

  lemma SameIds(e: seq<Choice>, a: Option<seq<Choice>>)
    ensures Ids(if a.Some? then a.value else []) == Ids(e) <==> forall id :: Selects(Some(e), id) <==> Selects(a, id)
  {
    var shown := if a.Some? then a.value else [];
    forall id
      ensures id in Ids(e) <==> Selects(Some(e), id)
      ensures id in Ids(shown) <==> Selects(a, id)
    {
      IdsAre(e, id);
      IdsAre(shown, id);
    }
    if forall id :: Selects(Some(e), id) <==> Selects(a, id) {
      assert Ids(shown) == Ids(e);
    }
  }

  lemma IdsAre(choices: seq<Choice>, id: string)
    ensures id in Ids(choices) <==> Choice(id) in choices
  {
    var c := Choice(id);
    assert c in choices ==> c.id in Ids(choices);
  }

  /** The comparison in the code decides whether the item shows what was expected, both ways. */
  lemma MatchMeansSame(expected: Responses, actual: Responses)
    ensures Match(expected, actual) <==> ShowsSame(expected, actual)
  {
    if expected.Object? && actual.Object? {
      var e, a := expected.answer, actual.answer;
      if e.datetime.Some? {
        SameTimeIsShort(e.datetime.value, OrEmpty(a.datetime));
      }
      if e.selected.Some? {
        SameIds(e.selected.value, a.selected);
      }
    }
  }

  /** What was sent matches itself, so a service that reports what it stores is truthful. */
  lemma SentMatchesItself(r: Responses)
    ensures Match(r, r) <==> r.Object?
    ensures Truthful((x: Responses) => x)
  {
  }

  /** A service may add the milliseconds to a time, which itself has no fraction. */
  lemma MillisecondsDoNotMatter(a: Answer, b: Answer, time: string)
    requires a.text.None? && (forall i :: 0 <= i < |time| ==> time[i] != '.')
    requires a.datetime == Some(time + "Z") && b.datetime == Some(time + ".000Z")
    ensures Match(Object(a), Object(b)) && Match(Object(b.(text := None)), Object(a))
  {
    ShortAfter(time, "Z");
    ShortAfter(time, ".000Z");
    assert ".000Z"[5..] == "";
    assert ShortZ("Z") == "Z" && ShortZ(".000Z") == "Z";
  }

  lemma {:induction false} ShortAfter(time: string, rest: string)
    requires forall i :: 0 <= i < |time| ==> time[i] != '.'
    ensures ShortZ(time + rest) == time + ShortZ(rest)
  {
    if time == "" {
      assert time + rest == rest;
    } else {
      var s := time + rest;
      assert s[0] == time[0] && s[1..] == time[1..] + rest;
      assert |s| >= 5 ==> s[..5][0] != '.';
      ShortAfter(time[1..], rest);
    }
  }

  /** The order and the repetition of a selection do not matter. */
  lemma SelectionIsASet(a: Answer, b: Answer)
    requires a.text.None? && a.datetime.None? && a.selected.Some? && b.selected.Some?
    requires forall c :: c in a.selected.value <==> c in b.selected.value
    ensures Match(Object(a), Object(b))
  {
    assert Ids(a.selected.value) == Ids(b.selected.value);
  }

  /** The last item reported with this id. */
  function Lookup(actual: seq<Item>, id: string): (r: Option<Item>)
    ensures r.Some? ==> r.value.Item? && r.value.id == id
  {
    if actual == [] then None
    else
      var last := actual[|actual| - 1];
      if last.Item? && last.id == id then Some(last) else Lookup(actual[..|actual| - 1], id)
  }

  predicate IsMissing(expected: Item, actual: seq<Item>) {
    && expected.Item?
    && var found := Lookup(actual, expected.id);
       !Match(expected.responses, if found.Some? then found.value.responses else NotObject)
  }

  /** The expected items that the reported ones do not match, in order. */
  function MissingItems(expected: seq<Item>, actual: seq<Item>): (r: seq<Item>)
    ensures forall x :: x in r <==> x in expected && IsMissing(x, actual)
  {
    if expected == [] then []
    else
      var x := expected[|expected| - 1];
      MissingItems(expected[..|expected| - 1], actual) + if IsMissing(x, actual) then [x] else []
  }

  function Missing(expected: Body, actual: Body): Body {
    Body(MissingItems(expected.headerItems, actual.headerItems), MissingItems(expected.items, actual.items))
  }

  predicate Nothing(b: Body) {
    b.headerItems == [] && b.items == []
  }

  ghost predicate ById(byId: map<string, Item>, actual: seq<Item>) {
    forall id :: Lookup(actual, id) == if id in byId then Some(byId[id]) else None
  }

  /** One group of `missing_prefill_payload`: the dictionary over the reported items, then the comparison. */
  method MissingGroup(expected: seq<Item>, actual: seq<Item>) returns (missing: seq<Item>)
    ensures missing == MissingItems(expected, actual)
  {
    var byId: map<string, Item> := map[];
    var n := 0;
    while n < |actual|
      invariant 0 <= n <= |actual|
      invariant ById(byId, actual[..n])
    {
      assert actual[..n + 1][..n] == actual[..n];
      if actual[n].Item? {
        byId := byId[actual[n].id := actual[n]];
      }
      n := n + 1;
    }
    assert actual[..n] == actual;
    missing, n := [], 0;
    while n < |expected|
      invariant 0 <= n <= |expected|
      invariant missing == MissingItems(expected[..n], actual)
    {
      assert expected[..n + 1][..n] == expected[..n];
      var x := expected[n];
      if x.Item? {
        assert Lookup(actual, x.id) == if x.id in byId then Some(byId[x.id]) else None;
        var responses := if x.id in byId && byId[x.id].Item? then byId[x.id].responses else NotObject;
        if !Match(x.responses, responses) {
          missing := missing + [x];
        }
      }
      n := n + 1;
    }
    assert expected[..n] == expected;
  }

  // ---- The protocol ----

  datatype Reply = Reply(status: int, auditId: string, body: Body)

  datatype Request = Post(payload: Body) | Put(id: string, payload: Body) | Get(id: string)

  datatype Exchange = Exchange(request: Request, reply: Reply)

  datatype SubmitError = PostFailed | NoAuditId | PutFailed | GetFailed | StillMissing(items: seq<Item>)

  datatype Outcome = Submitted(auditId: string) | Failed(error: SubmitError)

  predicate Success(status: int) {
    200 <= status < 300
  }

  /** The replies that the service is going to give are constants of the client; `log` is what was exchanged. */
  class Client {
    const post: Reply
    const put: Reply
    const get: Reply
    var log: seq<Exchange>

    constructor (post: Reply, put: Reply, get: Reply)
      ensures this.post == post && this.put == put && this.get == get && log == []
    {
      this.post, this.put, this.get, log := post, put, get, [];
    }

    /** `submit_prefill_payload`. */
    method SubmitPrefill(payload: Body) returns (r: Outcome)
      modifies this
      ensures r == Submit(payload, post, put, get)
      ensures log == old(log) + Exchanges(payload, post, put, get)
      ensures r.Submitted? ==> Shows(payload, log[|log| - 1].reply.body)
      ensures r.Failed? ==> Explains(r.error, payload, post, put, get)
    {
      r := Send(payload);
      SubmittedIsShown(payload, post, put, get);
      FailureIsExplained(payload, post, put, get);
    }

    /** The requests and the comparisons between them. */
    method Send(payload: Body) returns (r: Outcome)
      modifies this
      ensures r == Submit(payload, post, put, get)
      ensures log == old(log) + Exchanges(payload, post, put, get)
    {
      log := log + [Exchange(Post(payload), post)];
      if post.status !in {200, 201} {
        return Failed(PostFailed);
      }
      var id := Strip(post.auditId);
      if id == "" {
        return Failed(NoAuditId);
      }
      var header := MissingGroup(payload.headerItems, post.body.headerItems);
      var items := MissingGroup(payload.items, post.body.items);
      if header != [] || items != [] {
        log := log + [Exchange(Put(id, Body(header, items)), put)];
        if put.status < 200 || put.status >= 300 {
          return Failed(PutFailed);
        }
        log := log + [Exchange(Get(id), get)];
        if get.status < 200 || get.status >= 300 {
          return Failed(GetFailed);
        }
        header := MissingGroup(payload.headerItems, get.body.headerItems);
        items := MissingGroup(payload.items, get.body.items);
        if header != [] || items != [] {
          return Failed(StillMissing(header + items));
        }
      }
      return Submitted(id);
    }
  }

  /** The outcome as a function of the three replies. */
  function Submit(payload: Body, post: Reply, put: Reply, get: Reply): Outcome {
    var id := Strip(post.auditId);
    var still := Missing(payload, get.body);
    if post.status !in {200, 201} then Failed(PostFailed)
    else if id == "" then Failed(NoAuditId)
    else if Nothing(Missing(payload, post.body)) then Submitted(id)
    else if !Success(put.status) then Failed(PutFailed)
    else if !Success(get.status) then Failed(GetFailed)
    else if !Nothing(still) then Failed(StillMissing(still.headerItems + still.items))
    else Submitted(id)
  }

  /** The requests that are made and the replies they get. */
  function Exchanges(payload: Body, post: Reply, put: Reply, get: Reply): seq<Exchange> {
    var id, missing := Strip(post.auditId), Missing(payload, post.body);
    [Exchange(Post(payload), post)]
    + (if post.status !in {200, 201} || id == "" || Nothing(missing) then []
       else [Exchange(Put(id, missing), put)] + if Success(put.status) then [Exchange(Get(id), get)] else [])
  }

  /**
    * An id comes back exactly when the service accepted every request and the last body it reported, in reply to
    * the POST or to the GET, shows every expected item.
    */
  lemma SubmittedMeansShown(payload: Body, post: Reply, put: Reply, get: Reply)
    ensures var log := Exchanges(payload, post, put, get);
            var last := log[|log| - 1];
            Submit(payload, post, put, get).Submitted? <==>
              && post.status in {200, 201} && Strip(post.auditId) != ""
              && (forall i :: 0 <= i < |log| ==> Success(log[i].reply.status))
              && !last.request.Put?
              && Nothing(Missing(payload, last.reply.body))
  {
    var log := Exchanges(payload, post, put, get);
    assert log[0] == Exchange(Post(payload), post);
    if |log| > 1 {
      assert log[1] == Exchange(Put(Strip(post.auditId), Missing(payload, post.body)), put);
    }
  }

  // ---- The repair ----

  /** The service merges one updated item by its id. */
  function PutItem(stored: seq<Item>, x: Item): seq<Item>
    requires x.Item?
  {
    if Lookup(stored, x.id).Some? then Replaced(stored, x) else stored + [x]
  }

  function Replaced(stored: seq<Item>, x: Item): seq<Item>
    requires x.Item?
  {
    if stored == [] then []
    else
      var last := stored[|stored| - 1];
      Replaced(stored[..|stored| - 1], x) + [if last.Item? && last.id == x.id then x else last]
  }

  function MergeItems(stored: seq<Item>, update: seq<Item>): seq<Item>
    requires forall x :: x in update ==> x.Item?
  {
    if update == [] then stored
    else
      var x := update[|update| - 1];
      assert x in update;
      PutItem(MergeItems(stored, update[..|update| - 1]), x)
  }

  /** The service reports responses in a form of its own, for instance with other milliseconds. */
  function Shown(stored: seq<Item>, view: Responses -> Responses): (r: seq<Item>)
    ensures |r| == |stored|
  {
    if stored == [] then []
    else
      var last := stored[|stored| - 1];
      Shown(stored[..|stored| - 1], view) + [if last.Item? then Item(last.id, view(last.responses)) else last]
  }

  function ShownBody(stored: Body, view: Responses -> Responses): Body {
    Body(Shown(stored.headerItems, view), Shown(stored.items, view))
  }

  /** The view shows what was stored: every response object still matches itself. */
  ghost predicate Truthful(view: Responses -> Responses) {
    forall r: Responses :: r.Object? ==> Match(r, view(r))
  }

  ghost predicate DistinctIds(expected: seq<Item>) {
    forall i, j | 0 <= i < j < |expected| :: expected[i].Item? && expected[j].Item? ==> expected[i].id != expected[j].id
  }

  ghost predicate AllObjects(expected: seq<Item>) {
    forall x | x in expected :: x.Item? ==> x.responses.Object?
  }

  lemma {:induction false} LookupReplaced(stored: seq<Item>, x: Item, id: string)
    requires x.Item?
    ensures Lookup(Replaced(stored, x), id)
            == if id == x.id && Lookup(stored, id).Some? then Some(x) else Lookup(stored, id)
  {
    if stored != [] {
      var init := stored[..|stored| - 1];
      LookupReplaced(init, x, id);
      assert Replaced(stored, x)[..|Replaced(stored, x)| - 1] == Replaced(init, x);
    }
  }

  lemma LookupPut(stored: seq<Item>, x: Item, id: string)
    requires x.Item?
    ensures Lookup(PutItem(stored, x), id) == if id == x.id then Some(x) else Lookup(stored, id)
  {
    if Lookup(stored, x.id).Some? {
      LookupReplaced(stored, x, id);
    } else {
      LookupAppended(stored, x, id);
    }
  }

  lemma LookupAppended(stored: seq<Item>, x: Item, id: string)
    requires x.Item?
    ensures Lookup(stored + [x], id) == if id == x.id then Some(x) else Lookup(stored, id)
  {
    assert (stored + [x])[..|stored|] == stored;
  }

  lemma {:induction false} LookupMerged(stored: seq<Item>, update: seq<Item>, id: string)
    requires forall x :: x in update ==> x.Item?
    ensures var r := Lookup(MergeItems(stored, update), id);
            if exists x | x in update :: x.id == id then r.Some? && r.value in update else r == Lookup(stored, id)
  {
    if update != [] {
      var init, x := update[..|update| - 1], update[|update| - 1];
      assert update == init + [x] && x in update;
      LookupMerged(stored, init, id);
      LookupPut(MergeItems(stored, init), x, id);
    }
  }

  lemma {:induction false} LookupShown(stored: seq<Item>, view: Responses -> Responses, id: string)
    ensures var r := Lookup(stored, id);
            Lookup(Shown(stored, view), id) == if r.Some? then Some(Item(id, view(r.value.responses))) else None
  {
    if stored != [] {
      var init := stored[..|stored| - 1];
      LookupShown(init, view, id);
      assert Shown(stored, view)[..|stored| - 1] == Shown(init, view);
    }
  }

  lemma SameIdSameItem(expected: seq<Item>, x: Item, y: Item)
    requires DistinctIds(expected) && x in expected && y in expected && x.Item? && y.Item? && x.id == y.id
    ensures x == y
  {
    var i :| 0 <= i < |expected| && expected[i] == x;
    var j :| 0 <= j < |expected| && expected[j] == y;
  }

  /** After the merge an expected item is still missing only if its responses are no object. */
  lemma RepairedItem(expected: seq<Item>, stored: seq<Item>, view: Responses -> Responses, x: Item)
    requires DistinctIds(expected) && Truthful(view) && x in expected && x.Item?
    ensures var missing := MissingItems(expected, Shown(stored, view));
            IsMissing(x, Shown(MergeItems(stored, missing), view)) <==> x.responses.NotObject?
  {
    var missing := MissingItems(expected, Shown(stored, view));
    var merged := MergeItems(stored, missing);
    LookupShown(stored, view, x.id);
    LookupShown(merged, view, x.id);
    LookupMerged(stored, missing, x.id);
    forall y | y in missing && y.id == x.id
      ensures y == x
    {
      SameIdSameItem(expected, x, y);
    }
  }

  lemma RepairedGroup(expected: seq<Item>, stored: seq<Item>, view: Responses -> Responses)
    requires DistinctIds(expected) && Truthful(view)
    ensures var missing := MissingItems(expected, Shown(stored, view));
            MissingItems(expected, Shown(MergeItems(stored, missing), view)) == [] <==> AllObjects(expected)
  {
    var missing := MissingItems(expected, Shown(stored, view));
    var still := MissingItems(expected, Shown(MergeItems(stored, missing), view));
    forall x | x in expected && x.Item?
      ensures x in still <==> x.responses.NotObject?
    {
      RepairedItem(expected, stored, view, x);
    }
    if still != [] {
      var x := still[0];
      assert x in still;
    }
  }

  /**
    * Whatever the service kept of a report when it was created, if it merges the repair by item id and reports
    * what it stores, the report is submitted exactly when every expected item has a response object.
    */
  lemma RepairSucceeds(payload: Body, stored: Body, view: Responses -> Responses, post: Reply, put: Reply, get: Reply)
    requires DistinctIds(payload.headerItems) && DistinctIds(payload.items) && Truthful(view)
    requires post.status in {200, 201} && Strip(post.auditId) != "" && Success(put.status) && Success(get.status)
    requires post.body == ShownBody(stored, view)
    requires var missing := Missing(payload, post.body);
             get.body == ShownBody(Body(MergeItems(stored.headerItems, missing.headerItems),
                                        MergeItems(stored.items, missing.items)), view)
    ensures Submit(payload, post, put, get) == Submitted(Strip(post.auditId))
            <==> AllObjects(payload.headerItems) && AllObjects(payload.items)
  {
    RepairedGroup(payload.headerItems, stored.headerItems, view);
    RepairedGroup(payload.items, stored.items, view);
    if Nothing(Missing(payload, post.body)) {
      assert MergeItems(stored.headerItems, []) == stored.headerItems;
      assert MergeItems(stored.items, []) == stored.items;
    }
  }

  /** An item counts as shown exactly when the last report of its id shows what was expected. */
  lemma MissingMeansUnmatched(expected: seq<Item>, actual: seq<Item>)
    ensures MissingItems(expected, actual) == [] <==>
            forall x | x in expected && x.Item? :: exists i | 0 <= i < |actual| :: LastShows(x, actual, i)
  {
    var missing := MissingItems(expected, actual);
    forall x | x in expected && x.Item?
      ensures x !in missing <==> exists i | 0 <= i < |actual| :: LastShows(x, actual, i)
    {
      LookupIsLast(actual, x);
    }
    if missing != [] {
      var x := missing[0];
      assert x in missing;
    }
  }

  /** Entry `i` is the last one reported under the id of the item, and it shows what was expected. */
  ghost predicate LastShows(x: Item, actual: seq<Item>, i: nat)
    requires x.Item? && i < |actual|
  {
    && HasId(actual[i], x.id) && ShowsSame(x.responses, actual[i].responses)
    && forall j :: i < j < |actual| ==> !HasId(actual[j], x.id)
  }

  predicate HasId(y: Item, id: string) {
    y.Item? && y.id == id
  }

  lemma {:induction false} LookupIsLast(actual: seq<Item>, x: Item)
    requires x.Item?
    ensures !IsMissing(x, actual) <==> exists i | 0 <= i < |actual| :: LastShows(x, actual, i)
  {
    if actual != [] {
      var init, last := actual[..|actual| - 1], actual[|actual| - 1];
      if HasId(last, x.id) {
        MatchMeansSame(x.responses, last.responses);
        if Match(x.responses, last.responses) {
          assert LastShows(x, actual, |actual| - 1);
        } else {
          forall i | 0 <= i < |actual|
            ensures !LastShows(x, actual, i)
          {
            assert HasId(actual[|actual| - 1], x.id);
          }
        }
      } else {
        LookupIsLast(init, x);
        forall i | 0 <= i < |init|
          ensures LastShows(x, init, i) <==> LastShows(x, actual, i)
        {
          assert forall j :: 0 <= j < |init| ==> init[j] == actual[j];
        }
      }
    }
  }

  /** Every expected item is shown by the last entry that the body holds for its id. */
  ghost predicate ShowsAll(expected: seq<Item>, actual: seq<Item>) {
    forall x | x in expected && x.Item? :: exists i | 0 <= i < |actual| :: LastShows(x, actual, i)
  }

  ghost predicate Shows(payload: Body, reported: Body) {
    ShowsAll(payload.headerItems, reported.headerItems) && ShowsAll(payload.items, reported.items)
  }

  /** A submitted report is shown, item by item, by the last body that the service reported. */
  lemma SubmittedIsShown(payload: Body, post: Reply, put: Reply, get: Reply)
    ensures Submit(payload, post, put, get).Submitted? ==>
              var log := Exchanges(payload, post, put, get); Shows(payload, log[|log| - 1].reply.body)
  {
    SubmittedMeansShown(payload, post, put, get);
    var log := Exchanges(payload, post, put, get);
    var last := log[|log| - 1].reply.body;
    MissingMeansUnmatched(payload.headerItems, last.headerItems);
    MissingMeansUnmatched(payload.items, last.items);
  }

  /** What a failure tells about the replies. */
  ghost predicate Explains(error: SubmitError, payload: Body, post: Reply, put: Reply, get: Reply) {
    match error
    case PostFailed => post.status != 200 && post.status != 201
    case NoAuditId => post.status in {200, 201} && Strip(post.auditId) == ""
    case PutFailed => post.status in {200, 201} && !Shows(payload, post.body) && !(200 <= put.status < 300)
    case GetFailed =>
      post.status in {200, 201} && !Shows(payload, post.body) && 200 <= put.status < 300 && !(200 <= get.status < 300)
    case StillMissing(items) =>
      !Shows(payload, post.body) && !Shows(payload, get.body) && items != []
      && forall x :: x in items <==> (x in payload.headerItems && IsMissing(x, get.body.headerItems))
                                     || (x in payload.items && IsMissing(x, get.body.items))
  }

  lemma NothingMeansShown(payload: Body, reported: Body)
    ensures Nothing(Missing(payload, reported)) <==> Shows(payload, reported)
  {
    MissingMeansUnmatched(payload.headerItems, reported.headerItems);
    MissingMeansUnmatched(payload.items, reported.items);
  }

  lemma FailureIsExplained(payload: Body, post: Reply, put: Reply, get: Reply)
    ensures var r := Submit(payload, post, put, get); r.Failed? ==> Explains(r.error, payload, post, put, get)
  {
    NothingMeansShown(payload, post.body);
    NothingMeansShown(payload, get.body);
  }

  /** The shown text, time or selection is another one. */
  predicate Altered(e: Answer, a: Answer) {
    if e.text.Some? then a.text != e.text && !(e.text == Some("") && a.text.None?)
    else if e.datetime.Some? then
      OrEmpty(a.datetime) != e.datetime.value && Plain(e.datetime.value) && Plain(OrEmpty(a.datetime))
    else e.selected.Some? && !Selected(e.selected, a.selected)
  }

  /** A time without zero milliseconds. */
  predicate Plain(time: string) {
    forall i :: 0 <= i < |time| ==> time[i] != '.'
  }

  /** The ids of both selections are the same. */
  predicate Selected(e: Option<seq<Choice>>, a: Option<seq<Choice>>) {
    && (e.Some? ==> forall c <- e.value :: c.Choice? ==> Selects(a, c.id))
    && (a.Some? ==> forall c <- a.value :: c.Choice? ==> Selects(e, c.id))
  }

  lemma PlainIsShort(time: string)
    requires Plain(time)
    ensures ShortZ(time) == time
  {
    ShortAfter(time, "");
    assert time + "" == time;
  }

  lemma AlteredIsNotSame(e: Answer, a: Answer)
    requires Altered(e, a)
    ensures !Match(Object(e), Object(a))
  {
    if e.text.None? && e.datetime.Some? {
      PlainIsShort(e.datetime.value);
      PlainIsShort(OrEmpty(a.datetime));
    } else if e.text.None? {
      MatchMeansSame(Object(e), Object(a));
    }
  }

  /** A dropped item, dropped responses, and an altered text, time or selection are missing. */
  lemma DroppedOrAlteredIsMissing(expected: seq<Item>, actual: seq<Item>, x: Item)
    requires x in expected && x.Item? && x.responses.Object?
    requires forall i :: 0 <= i < |actual| && HasId(actual[i], x.id) ==>
               actual[i].responses.NotObject? || Altered(x.responses.answer, actual[i].responses.answer)
    ensures x in MissingItems(expected, actual)
  {
    LookupIsReported(actual, x.id);
    var found := Lookup(actual, x.id);
    if found.Some? && found.value.responses.Object? {
      AlteredIsNotSame(x.responses.answer, found.value.responses.answer);
    }
  }

  lemma {:induction false} LookupIsReported(actual: seq<Item>, id: string)
    ensures Lookup(actual, id).Some? ==> exists i :: 0 <= i < |actual| && HasId(actual[i], id)
                                                     && Lookup(actual, id) == Some(actual[i])
  {
    if actual != [] {
      LookupIsReported(actual[..|actual| - 1], id);
    }
  }

  /** The repair sends exactly the items that the reply to the POST does not show, and nothing else is sent. */
  lemma RepairSendsWhatIsMissing(payload: Body, post: Reply, put: Reply, get: Reply)
    ensures var log := Exchanges(payload, post, put, get);
            && log[0].request == Post(payload) && |log| <= 3
            && (|log| >= 2 ==>
                  && log[1].request.Put? && log[1].request.id == Strip(post.auditId)
                  && SendsMissing(payload.headerItems, post.body.headerItems, log[1].request.payload.headerItems)
                  && SendsMissing(payload.items, post.body.items, log[1].request.payload.items))
            && (|log| == 3 ==> log[2].request == Get(Strip(post.auditId)))
  {
    SentAreMissing(payload.headerItems, post.body.headerItems);
    SentAreMissing(payload.items, post.body.items);
  }

  ghost predicate SendsMissing(expected: seq<Item>, actual: seq<Item>, sent: seq<Item>) {
    forall x :: x in sent <==> x in expected && x.Item? && !exists i | 0 <= i < |actual| :: LastShows(x, actual, i)
  }

  lemma SentAreMissing(expected: seq<Item>, actual: seq<Item>)
    ensures SendsMissing(expected, actual, MissingItems(expected, actual))
  {
    forall x
      ensures x in MissingItems(expected, actual)
              <==> x in expected && x.Item? && !exists i | 0 <= i < |actual| :: LastShows(x, actual, i)
    {
      if x.Item? {
        LookupIsLast(actual, x);
      }
    }
  }
}
