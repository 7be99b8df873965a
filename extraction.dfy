/** `extract_text_from_json_responses` in functions/bili.py: collect the item
    URIs of every captured feed payload, fetch each URI's tag list and join
    all tags with single spaces. JSON decoding and the tag fetch are
    parameters: `parse` stands for `json.loads`, `fetch` for the HTTP request
    plus `parse_html_to_tag`. */
module Extraction {
  import opened Text

  /** A decoded JSON value. Objects are Python dicts (a repeated key keeps its
      last value, as `json.loads` does). */
  datatype Json =
    | JNull
    | JBool(b: bool)
    | JNumber(x: real)
    | JString(s: string)
    | JArray(elems: seq<Json>)
    | JObject(fields: map<string, Json>)

  /** The outcome of `json.loads` on one captured response. */
  datatype Payload = Malformed | Parsed(doc: Json)

  /** Python truthiness of a decoded value (`if uri:`). */
  predicate Truthy(j: Json) {
    match j
    case JNull => false
    case JBool(b) => b
    case JNumber(x) => x != 0.0
    case JString(s) => |s| > 0
    case JArray(es) => |es| > 0
    case JObject(m) => |m| > 0
  }

  /** `data.get('data', {}).get('item', [])`, or `None` when one of the two
      `.get` calls raises because its receiver is not a dict. */
  function ItemsOf(doc: Json): Option<Json> {
    match doc
    case JObject(top) =>
      var inner := if "data" in top then top["data"] else JObject(map[]);
      (match inner
       case JObject(m) => Some(if "item" in m then m["item"] else JArray([]))
       case _ => None)
    case _ => None
  }

  /** The URIs appended while iterating a list of items: truthy `uri` fields
      in item order. An item that is not a dict makes `item.get` raise, which
      abandons the rest of the list but keeps what was appended before it. */
  function ItemUris(items: seq<Json>): (r: seq<Json>)
    ensures |r| <= |items|
    ensures forall i :: 0 <= i < |r| ==> Truthy(r[i])
    decreases |items|
  {
    if items == [] then []
    else match items[0]
      case JObject(m) => (if "uri" in m && Truthy(m["uri"]) then [m["uri"]] else []) + ItemUris(items[1..])
      case _ => []
  }

  /** The URIs one payload contributes. A payload that does not decode, or whose
      `data`/`item` access raises, contributes none. So does an `item` value that
      is not a list: iterating a dict or a string yields strings, whose `.get`
      raises before anything is appended, and other values are not iterable. */
  function PayloadUris(p: Payload): seq<Json> {
    match p
    case Malformed => []
    case Parsed(doc) =>
      match ItemsOf(doc)
      case Some(JArray(items)) => ItemUris(items)
      case _ => []
  }

  /** The URIs of all payloads: payload order, then item order; duplicates kept. */
  function AllUris(payloads: seq<Payload>): seq<Json>
    decreases |payloads|
  {
    if payloads == [] then [] else PayloadUris(payloads[0]) + AllUris(payloads[1..])
  }

  /** `all_text` after the fetch loop: the tag lists of all URIs concatenated in
      order, or `None` if some fetch raised (the code does not catch it). */
  function FetchAll(uris: seq<Json>, fetch: Json -> Option<seq<string>>): Option<seq<string>>
    decreases |uris|
  {
    if uris == [] then Some([])
    else match fetch(uris[0])
      case None => None
      case Some(tags) =>
        match FetchAll(uris[1..], fetch)
        case None => None
        case Some(rest) => Some(tags + rest)
  }

  /** `json.loads` applied to every captured response. */
  function DecodeAll(responses: seq<string>, parse: string -> Payload): (r: seq<Payload>)
    ensures |r| == |responses| && forall i :: 0 <= i < |r| ==> r[i] == parse(responses[i])
  {
    seq(|responses|, i requires 0 <= i < |responses| => parse(responses[i]))
  }

  /** What the whole function returns: the space-joined tags, or `None` when it raises. */
  function Extracted(responses: seq<string>, parse: string -> Payload, fetch: Json -> Option<seq<string>>): Option<string> {
    match FetchAll(AllUris(DecodeAll(responses, parse)), fetch)
    case None => None
    case Some(tags) => Some(JoinWords(tags))
  }

  function Prepend<T>(acc: seq<T>, o: Option<seq<T>>): Option<seq<T>> {
    match o
    case None => None
    case Some(v) => Some(acc + v)
  }

  /** The inner loop of the first loop, over one payload's `item` list. */
  method CollectItemUris(elems: seq<Json>) returns (uris: seq<Json>)
    ensures uris == ItemUris(elems)
  {
    uris := [];
    var i := 0;
    while i < |elems|
      invariant 0 <= i <= |elems|
      invariant uris + ItemUris(elems[i..]) == ItemUris(elems)
    {
      ghost var rest := elems[i..];
      assert rest[0] == elems[i] && rest[1..] == elems[i + 1..];
      var item := elems[i];
      if !item.JObject? {
        // `item.get` raises: the remaining items of this payload are skipped,
        // the URIs appended so far stay
        assert ItemUris(rest) == [];
        assert uris + [] == uris;
        break;
      }
      var m := item.fields;
      ghost var before := uris;
      if "uri" in m && Truthy(m["uri"]) {
        uris := uris + [m["uri"]];
        assert ItemUris(rest) == [m["uri"]] + ItemUris(elems[i + 1..]);
        assert before + ([m["uri"]] + ItemUris(elems[i + 1..])) == uris + ItemUris(elems[i + 1..]);
      } else {
        assert ItemUris(rest) == ItemUris(elems[i + 1..]);
      }
      i := i + 1;
    }
    if i == |elems| {
      assert uris + ItemUris([]) == uris;
    }
  }

  /** The `try` block for one payload: the URIs it appends before it finishes
      or raises. */
  method CollectPayloadUris(payload: Payload) returns (found: seq<Json>)
    ensures found == PayloadUris(payload)
  {
    found := [];
    if payload.Parsed? {
      var items := ItemsOf(payload.doc);
      if items.Some? && items.value.JArray? {
        found := CollectItemUris(items.value.elems);
      }
    }
  }

  /** The first loop of `extract_text_from_json_responses`: `all_urls`. */
  method CollectUris(responses: seq<string>, parse: string -> Payload) returns (allUrls: seq<Json>)
    ensures allUrls == AllUris(DecodeAll(responses, parse))
  {
    ghost var payloads := DecodeAll(responses, parse);
    allUrls := [];
    var n := 0;
    while n < |responses|
      invariant 0 <= n <= |responses|
      invariant allUrls + AllUris(payloads[n..]) == AllUris(payloads)
    {
      var payload := parse(responses[n]);
      var found := CollectPayloadUris(payload);
      ghost var rest := payloads[n..];
      assert rest[0] == payload && rest[1..] == payloads[n + 1..];
      assert AllUris(rest) == found + AllUris(payloads[n + 1..]);
      assert allUrls + found + AllUris(payloads[n + 1..]) == allUrls + (found + AllUris(payloads[n + 1..]));
      allUrls := allUrls + found;
      n := n + 1;
    }
    assert payloads[|responses|..] == [];
  }

  /** The second loop: `all_text`, or `None` when a fetch raises. */
  method FetchTags(uris: seq<Json>, fetch: Json -> Option<seq<string>>) returns (allText: Option<seq<string>>)
    ensures allText == FetchAll(uris, fetch)
  {
    var acc: seq<string> := [];
    var k := 0;
    assert uris[0..] == uris;
    match FetchAll(uris, fetch) {
      case None =>
      case Some(v) => assert [] + v == v;
    }
    while k < |uris|
      invariant 0 <= k <= |uris|
      invariant FetchAll(uris, fetch) == Prepend(acc, FetchAll(uris[k..], fetch))
    {
      assert uris[k..][1..] == uris[k + 1..];
      var tags := fetch(uris[k]);
      if tags.None? {
        // the fetch raised and the exception leaves the function
        return None;
      }
      match FetchAll(uris[k + 1..], fetch) {
        case None =>
        case Some(rest) => assert acc + (tags.value + rest) == (acc + tags.value) + rest;
      }
      acc := acc + tags.value;
      k := k + 1;
    }
    assert uris[|uris|..] == [];
    assert acc + [] == acc;
    allText := Some(acc);
  }

  /** `extract_text_from_json_responses`. */
  method ExtractText(responses: seq<string>, parse: string -> Payload, fetch: Json -> Option<seq<string>>)
    returns (combined: Option<string>)
    ensures combined == Extracted(responses, parse, fetch)
  {
    var allUrls := CollectUris(responses, parse);
    var allText := FetchTags(allUrls, fetch);
    if allText.None? {
      return None;
    }
    combined := Some(JoinWords(allText.value));
  }

  /** Extraction follows payload order: the URIs of `a + b` are those of `a` followed by those of `b`. */
  lemma {:induction false} AllUrisConcat(a: seq<Payload>, b: seq<Payload>)
    ensures AllUris(a + b) == AllUris(a) + AllUris(b)
    decreases |a|
  {
    if a == [] {
      assert a + b == b;
    } else {
      assert (a + b)[0] == a[0];
      assert (a + b)[1..] == a[1..] + b;
      AllUrisConcat(a[1..], b);
    }
  }

  /** A payload that fails to decode, or whose `data`/`item` access raises, is
      skipped and the payloads after it are still processed. */
  lemma FailingPayloadSkipped(a: seq<Payload>, p: Payload, b: seq<Payload>)
    requires p.Malformed? || ItemsOf(p.doc).None?
    ensures AllUris(a + [p] + b) == AllUris(a) + AllUris(b)
  {
    assert PayloadUris(p) == [];
    assert AllUris([p]) == [] by {
      assert [p][1..] == [];
      assert AllUris([p]) == PayloadUris(p) + AllUris([]);
    }
    AllUrisConcat(a + [p], b);
    AllUrisConcat(a, [p]);
    assert AllUris(a) + [] == AllUris(a);
  }

  /** With only dict items, the URIs of `a + b` are those of `a` followed by those
      of `b`; in particular a repeated item yields its URI twice. */
  lemma {:induction false} ItemUrisConcat(a: seq<Json>, b: seq<Json>)
    requires forall i :: 0 <= i < |a| ==> a[i].JObject?
    ensures ItemUris(a + b) == ItemUris(a) + ItemUris(b)
    decreases |a|
  {
    if a == [] {
      assert a + b == b;
    } else {
      assert (a + b)[0] == a[0];
      assert (a + b)[1..] == a[1..] + b;
      ItemUrisConcat(a[1..], b);
    }
  }

  /** A non-dict item part-way through a payload stops that payload, and the
      URIs appended from the items before it stay. */
  lemma PartialPayloadKept(before: seq<Json>, bad: Json, after: seq<Json>)
    requires forall i :: 0 <= i < |before| ==> before[i].JObject?
    requires !bad.JObject?
    ensures ItemUris(before + [bad] + after) == ItemUris(before)
  {
    assert before + [bad] + after == before + ([bad] + after);
    ItemUrisConcat(before, [bad] + after);
    assert ItemUris([bad] + after) == [];
    assert ItemUris(before) + [] == ItemUris(before);
  }

  /** Every URI comes from an item's `uri` field and is truthy; every truthy
      `uri` of an item before the first non-dict item is collected. */
  lemma {:induction false} ItemUrisMembers(items: seq<Json>)
    ensures forall u :: u in ItemUris(items) ==>
              Truthy(u) && exists i :: 0 <= i < |items| && items[i].JObject? &&
                                        "uri" in items[i].fields && items[i].fields["uri"] == u
    ensures forall i :: (0 <= i < |items| && (forall j :: 0 <= j <= i ==> items[j].JObject?) &&
                         "uri" in items[i].fields && Truthy(items[i].fields["uri"]))
                        ==> items[i].fields["uri"] in ItemUris(items)
    decreases |items|
  {
    if items != [] && items[0].JObject? {
      var rest := items[1..];
      ItemUrisMembers(rest);
      forall u | u in ItemUris(items)
        ensures exists i :: 0 <= i < |items| && items[i].JObject? &&
                            "uri" in items[i].fields && items[i].fields["uri"] == u
      {
        if u in ItemUris(rest) {
          var i :| 0 <= i < |rest| && rest[i].JObject? && "uri" in rest[i].fields && rest[i].fields["uri"] == u;
          assert items[i + 1] == rest[i];
        } else {
          assert items[0].fields["uri"] == u;
        }
      }
      forall i | 0 <= i < |items| && (forall j :: 0 <= j <= i ==> items[j].JObject?) &&
                 "uri" in items[i].fields && Truthy(items[i].fields["uri"])
        ensures items[i].fields["uri"] in ItemUris(items)
      {
        if i > 0 {
          assert rest[i - 1] == items[i];
          assert forall j :: 0 <= j <= i - 1 ==> rest[j].JObject? by {
            forall j | 0 <= j <= i - 1 ensures rest[j].JObject? { assert rest[j] == items[j + 1]; }
          }
        }
      }
    }
  }

  /** The extraction fails exactly when one of the fetches raises. */
  lemma {:induction false} FetchAllFails(uris: seq<Json>, fetch: Json -> Option<seq<string>>)
    ensures FetchAll(uris, fetch).None? <==> exists i :: 0 <= i < |uris| && fetch(uris[i]).None?
    decreases |uris|
  {
    if uris != [] {
      FetchAllFails(uris[1..], fetch);
      if exists i :: 0 <= i < |uris| && fetch(uris[i]).None? {
        var i :| 0 <= i < |uris| && fetch(uris[i]).None?;
        if i > 0 { assert uris[1..][i - 1] == uris[i]; }
      }
      if exists i :: 0 <= i < |uris[1..]| && fetch(uris[1..][i]).None? {
        var i :| 0 <= i < |uris[1..]| && fetch(uris[1..][i]).None?;
        assert uris[i + 1] == uris[1..][i];
      }
    }
  }

  /** Payloads of which none decodes give no URIs. */
  lemma {:induction false} AllMalformedGivesNoUris(payloads: seq<Payload>)
    requires forall i :: 0 <= i < |payloads| ==> payloads[i].Malformed?
    ensures AllUris(payloads) == []
    decreases |payloads|
  {
    if payloads != [] {
      assert forall i :: 0 <= i < |payloads[1..]| ==> payloads[1..][i].Malformed? by {
        forall i | 0 <= i < |payloads[1..]| ensures payloads[1..][i].Malformed? {
          assert payloads[1..][i] == payloads[i + 1];
        }
      }
      AllMalformedGivesNoUris(payloads[1..]);
    }
  }

  /** `{"data":{"item":[{"uri":"http://x/1"}]}}` yields the one URI. */
  lemma SinglePayloadExample()
    ensures var item := JObject(map["uri" := JString("http://x/1")]);
            var doc := JObject(map["data" := JObject(map["item" := JArray([item])])]);
            AllUris([Parsed(doc)]) == [JString("http://x/1")]
  {
    var item := JObject(map["uri" := JString("http://x/1")]);
    var doc := JObject(map["data" := JObject(map["item" := JArray([item])])]);
    assert ItemsOf(doc) == Some(JArray([item]));
    assert ItemUris([item]) == [JString("http://x/1")] + ItemUris([]);
    assert AllUris([Parsed(doc)]) == PayloadUris(Parsed(doc)) + AllUris([]);
  }

  /** One malformed and one well-formed payload: exactly the URIs of the well-formed one. */
  lemma MalformedThenWellFormed(good: Payload)
    ensures AllUris([Malformed, good]) == PayloadUris(good)
  {
    AllUrisConcat([Malformed], [good]);
    assert AllUris([good]) == PayloadUris(good) + AllUris([]);
  }
}
