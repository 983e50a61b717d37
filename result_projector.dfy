/** `projectSearchResult` in index.js: each upstream item reduced to its link,
    title and display link, or a single error object when the payload does not
    have that shape. */
module ResultProjector {
  import opened Wrappers
  import opened Js

  /** `{link, alt, foundOn}` for one item; a field is None when the item has
      no such property (the value is `undefined` and JSON output omits it). */
  datatype ProjectedImage = ProjectedImage(link: Option<Json>, alt: Option<Json>, foundOn: Option<Json>)

  /** What projection returns: the array of projected items, or the object
      `{error: message}`. */
  datatype Projection = Images(images: seq<ProjectedImage>) | ErrorObject(error: string)

  const ProjectionErrorText: string := "An error occurred while parsing the return JSON string"

  /** `json.items`, when it can be iterated with forEach: only an array can.
      Reading `items` of null throws; any other missing or non-array value has
      no callable forEach. */
  function ItemsOf(json: Json): (r: Option<seq<Json>>)
    ensures r.Some? <==> json.JObject? && "items" in json.fields && json.fields["items"].JArray?
    ensures r.Some? ==> r.value == json.fields["items"].elems
  {
    if json.JNull? then None
    else match Get(json, "items")
      case Some(JArray(elems)) => Some(elems)
      case _ => None
  }

  /** `const {link, title, displayLink} = i` and the record built from it.
      Destructuring null throws (None); any other value gives its three
      properties, each possibly undefined. */
  function ProjectItem(item: Json): Option<ProjectedImage> {
    if item.JNull? then None
    else Some(ProjectedImage(Get(item, "link"), Get(item, "title"), Get(item, "displayLink")))
  }

  /** The items projected in order; None when some item throws. */
  function ProjectAll(items: seq<Json>): Option<seq<ProjectedImage>> {
    if |items| == 0 then Some([])
    else match (ProjectItem(items[0]), ProjectAll(items[1..]))
      case (Some(p), Some(ps)) => Some([p] + ps)
      case _ => None
  }

  /** The value projectSearchResult returns for a parsed payload. */
  function Projected(json: Json): Projection {
    match ItemsOf(json)
    case None => ErrorObject(ProjectionErrorText)
    case Some(items) =>
      match ProjectAll(items)
      case None => ErrorObject(ProjectionErrorText)
      case Some(ps) => Images(ps)
  }

  /** Projecting the items succeeds exactly when none is null, and then yields
      one record per item, in the items' order. */
  lemma {:induction false} ProjectAllSpec(items: seq<Json>)
    ensures ProjectAll(items).Some? <==> forall k :: 0 <= k < |items| ==> !items[k].JNull?
    ensures ProjectAll(items).Some? ==>
      |ProjectAll(items).value| == |items| &&
      forall k :: 0 <= k < |items| ==> ProjectItem(items[k]) == Some(ProjectAll(items).value[k])
  {
    if |items| > 0 {
      ProjectAllSpec(items[1..]);
      assert forall k :: 1 <= k < |items| ==> items[k] == items[1..][k - 1];
    }
  }

  /** Projecting a concatenation projects both parts. */
  lemma {:induction false} ProjectAllAppend(xs: seq<Json>, ys: seq<Json>)
    ensures ProjectAll(xs + ys) ==
      match (ProjectAll(xs), ProjectAll(ys))
      case (Some(p), Some(q)) => Some(p + q)
      case _ => None
  {
    if |xs| == 0 {
      assert xs + ys == ys;
      if ProjectAll(ys).Some? {
        assert [] + ProjectAll(ys).value == ProjectAll(ys).value;
      }
    } else {
      assert (xs + ys)[1..] == xs[1..] + ys;
      ProjectAllAppend(xs[1..], ys);
      match (ProjectItem(xs[0]), ProjectAll(xs[1..]), ProjectAll(ys))
      case (Some(x), Some(p), Some(q)) =>
        assert [x] + (p + q) == ([x] + p) + q;
      case _ =>
    }
  }

  /** projectSearchResult(json): walk the items with forEach, pushing one
      record per item; any exception on the way gives the error object. */
  method ProjectSearchResult(json: Json) returns (r: Projection)
    ensures r == Projected(json)
  {
    var items := ItemsOf(json);
    if items.None? {
      return ErrorObject(ProjectionErrorText);
    }
    var elems := items.value;
    var returnArr: seq<ProjectedImage> := [];
    var k := 0;
    while k < |elems|
      invariant 0 <= k <= |elems|
      invariant ProjectAll(elems[..k]) == Some(returnArr)
    {
      var i := elems[k];
      ProjectAllAppend(elems[..k], [i]);
      assert [i][1..] == [];
      assert elems[..k + 1] == elems[..k] + [i];
      if i.JNull? {
        ProjectAllAppend(elems[..k + 1], elems[k + 1..]);
        assert elems[..k + 1] + elems[k + 1..] == elems;
        return ErrorObject(ProjectionErrorText);
      }
      var image := ProjectedImage(Get(i, "link"), Get(i, "title"), Get(i, "displayLink"));
      assert ProjectAll([i]) == Some([image]) by {
        assert ProjectItem(i) == Some(image);
        assert ProjectAll([i][1..]) == Some([]);
        assert [image] + [] == [image];
      }
      returnArr := returnArr + [image];
      k := k + 1;
    }
    assert elems[..k] == elems;
    r := Images(returnArr);
  }

  /** The array comes back exactly when the payload has an `items` array with
      no null in it; it then holds one record per item in the same order, with
      link from link, alt from title and foundOn from displayLink. Otherwise the
      result is the single error object. */
  lemma ProjectedSpec(json: Json)
    ensures Projected(json).Images? <==>
      ItemsOf(json).Some? && forall k :: 0 <= k < |ItemsOf(json).value| ==> !ItemsOf(json).value[k].JNull?
    ensures Projected(json).Images? ==>
      var items := ItemsOf(json).value;
      var images := Projected(json).images;
      |images| == |items| &&
      forall k :: 0 <= k < |items| ==>
        !items[k].JNull? &&
        images[k] == ProjectedImage(Get(items[k], "link"), Get(items[k], "title"), Get(items[k], "displayLink"))
    ensures Projected(json).ErrorObject? ==> Projected(json).error == ProjectionErrorText
  {
    if ItemsOf(json).Some? {
      var items := ItemsOf(json).value;
      ProjectAllSpec(items);
      if ProjectAll(items).Some? {
        forall k | 0 <= k < |items|
          ensures items[k] != JNull
          ensures Projected(json).images[k] ==
            ProjectedImage(Get(items[k], "link"), Get(items[k], "title"), Get(items[k], "displayLink"))
        {
          assert ProjectItem(items[k]) == Some(ProjectAll(items).value[k]);
        }
      }
    }
  }

  /** A payload without an `items` array (null, a non-object, an object with
      no `items` or with a non-array `items`) projects to the error object. */
  lemma MissingItemsFailsSoft(json: Json)
    requires !(json.JObject? && "items" in json.fields && json.fields["items"].JArray?)
    ensures Projected(json) == ErrorObject(ProjectionErrorText)
  {
  }

  /** `{items: [{link: "a", title: "b", displayLink: "c"}]}` projects to
      `[{link: "a", alt: "b", foundOn: "c"}]`. */
  lemma ProjectedExample()
    ensures Projected(JObject(map["items" := JArray([JObject(map["link" := JString("a"), "title" := JString("b"), "displayLink" := JString("c")])])]))
      == Images([ProjectedImage(Some(JString("a")), Some(JString("b")), Some(JString("c")))])
  {
    var item := JObject(map["link" := JString("a"), "title" := JString("b"), "displayLink" := JString("c")]);
    assert ProjectAll([item][1..]) == Some([]);
  }
}
