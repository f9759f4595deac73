/**
 * The parts of zod's object schemas the flows use, as validating functions over
 * JSON values. Each returns the typed value, or every issue found, in the order
 * zod visits them: the keys of a shape in declaration order, the elements of an
 * array by index. A value missing from an object is checked as undefined.
 */
module Schema {
  import opened Wrappers
  import opened Json
  import opened Errors

  type Decoded<T> = Result<T, seq<Issue>>

  /** A field that is `.nullable().optional()`: absent, null, or a value. */
  datatype Nullish<+T> = Absent | Null | Present(value: T)

  function IssuesOf<T>(r: Decoded<T>): seq<Issue>
  {
    if r.Ok? then [] else r.error
  }

  /** Every issue lies at `p` or below it. */
  predicate Under(issues: seq<Issue>, p: Path)
  {
    forall i :: i in issues ==> p <= i.path
  }

  /** Some issue lies at `p` or below it: the value at `p` is reported. */
  predicate ReportsAt(issues: seq<Issue>, p: Path)
  {
    exists i :: i in issues && p <= i.path
  }

  /** Issues that all lie below `p`, if there are any, report `p`. */
  lemma UnderReports(issues: seq<Issue>, p: Path)
    requires Under(issues, p)
    ensures issues != [] ==> ReportsAt(issues, p)
  {
    if issues != [] {
      assert issues[0] in issues;
    }
  }

  /** A path below a child of `p` is below `p`. */
  lemma UnderParent(issues: seq<Issue>, p: Path, s: PathSegment)
    requires Under(issues, p + [s])
    ensures Under(issues, p)
  {
    forall i | i in issues ensures p <= i.path {
      assert (p + [s])[..|p|] == p;
    }
  }

  /** `z.string()`. */
  function DecodeString(v: Option<Json>, path: Path): (r: Decoded<string>)
    ensures r.Ok? <==> v.Some? && v.value.JString?
    ensures r.Ok? ==> v == Some(JString(r.value))
    ensures r.Err? ==> r.error == [Issue(path, InvalidType)]
    ensures Under(IssuesOf(r), path)
  {
    if v.Some? && v.value.JString? then Ok(v.value.s) else Err([Issue(path, InvalidType)])
  }

  /** `z.number()`: a JSON number; a numeric string such as "85" is not one. */
  function DecodeNumber(v: Option<Json>, path: Path): (r: Decoded<real>)
    ensures r.Ok? <==> v.Some? && v.value.JNumber?
    ensures r.Ok? ==> v == Some(JNumber(r.value))
    ensures r.Err? ==> r.error == [Issue(path, InvalidType)]
    ensures Under(IssuesOf(r), path)
  {
    if v.Some? && v.value.JNumber? then Ok(v.value.n) else Err([Issue(path, InvalidType)])
  }

  /** `z.string().url()`, the URL test being the parameter `isUrl`. */
  function DecodeUrl(v: Option<Json>, path: Path, isUrl: string -> bool): (r: Decoded<string>)
    ensures r.Ok? <==> v.Some? && v.value.JString? && isUrl(v.value.s)
    ensures r.Ok? ==> v == Some(JString(r.value))
    ensures r.Err? ==> r.error == [Issue(path, if v.Some? && v.value.JString? then InvalidUrl else InvalidType)]
    ensures Under(IssuesOf(r), path)
  {
    if !(v.Some? && v.value.JString?) then Err([Issue(path, InvalidType)])
    else if !isUrl(v.value.s) then Err([Issue(path, InvalidUrl)])
    else Ok(v.value.s)
  }

  /** `inner.nullable().optional()`. */
  function DecodeNullish<T>(v: Option<Json>, path: Path, inner: (Json, Path) -> Decoded<T>): (r: Decoded<Nullish<T>>)
    ensures v == None ==> r == Ok(Absent)
    ensures v == Some(JNull) ==> r == Ok(Null)
    ensures v.Some? && v.value != JNull ==>
      (r.Ok? <==> inner(v.value, path).Ok?) &&
      (r.Ok? ==> r.value == Present(inner(v.value, path).value)) &&
      (r.Err? ==> r.error == inner(v.value, path).error)
  {
    if v == None then Ok(Absent)
    else if v == Some(JNull) then Ok(Null)
    else
      var d := inner(v.value, path);
      if d.Ok? then Ok(Present(d.value)) else Err(d.error)
  }

  /** `z.array(elem)`. */
  function DecodeArray<T>(v: Option<Json>, path: Path, elem: (Json, Path) -> Decoded<T>): (r: Decoded<seq<T>>)
    ensures !(v.Some? && v.value.JArray?) ==> r == Err([Issue(path, InvalidType)])
    ensures v.Some? && v.value.JArray? ==> r == DecodeItems(v.value.items, path, 0, elem)
  {
    if v.Some? && v.value.JArray? then DecodeItems(v.value.items, path, 0, elem)
    else Err([Issue(path, InvalidType)])
  }

  /** `z.string()` as the element schema of an array. */
  function StringElement(e: Json, path: Path): Decoded<string>
  {
    DecodeString(Some(e), path)
  }

  /** In an array of strings, each element that is not a string is reported at its index. */
  lemma StringItemIssues(items: seq<Json>, path: Path)
    ensures forall k :: 0 <= k < |items| && !items[k].JString? ==>
              Issue(path + [Index(k)], InvalidType) in IssuesOf(DecodeArray(Some(JArray(items)), path, StringElement))
  {
    ItemIssuesReported(items, path, 0, StringElement);
    forall k | 0 <= k < |items| && !items[k].JString?
      ensures Issue(path + [Index(k)], InvalidType) in IssuesOf(DecodeArray(Some(JArray(items)), path, StringElement))
    {
      assert IssuesOf(StringElement(items[k], path + [Index(0 + k)])) == [Issue(path + [Index(k)], InvalidType)];
    }
  }

  /**
   * The elements `items`, the first at index `start`: all of them decoded in
   * order when every one decodes, else the issues of those that do not.
   */
  function DecodeItems<T>(items: seq<Json>, path: Path, start: nat, elem: (Json, Path) -> Decoded<T>): (r: Decoded<seq<T>>)
    ensures r.Ok? <==> forall k :: 0 <= k < |items| ==> elem(items[k], path + [Index(start + k)]).Ok?
    ensures r.Ok? ==> |r.value| == |items|
    ensures r.Ok? ==> forall k :: 0 <= k < |items| ==> r.value[k] == elem(items[k], path + [Index(start + k)]).value
    ensures r.Err? && (forall k :: 0 <= k < |items| ==> IssuesOf(elem(items[k], path + [Index(start + k)])) != []
                                                        || elem(items[k], path + [Index(start + k)]).Ok?)
            ==> r.error != []
    decreases |items|
  {
    if items == [] then Ok([])
    else
      var h := elem(items[0], path + [Index(start)]);
      var t := DecodeItems(items[1..], path, start + 1, elem);
      ShiftedItems(items, path, start, elem);
      if h.Ok? && t.Ok? then Ok([h.value] + t.value)
      else Err(IssuesOf(h) + IssuesOf(t))
  }

  /** The issues of a non-empty array: the first element's, then those of the rest. */
  lemma ItemsIssuesCons<T>(items: seq<Json>, path: Path, start: nat, elem: (Json, Path) -> Decoded<T>)
    requires items != []
    ensures IssuesOf(DecodeItems(items, path, start, elem))
         == IssuesOf(elem(items[0], path + [Index(start)])) + IssuesOf(DecodeItems(items[1..], path, start + 1, elem))
  {
  }

  /** Each failing element's issues, found at its index below `path`, are reported for the array. */
  lemma {:induction false} ItemIssuesReported<T>(items: seq<Json>, path: Path, start: nat, elem: (Json, Path) -> Decoded<T>)
    ensures forall k, i :: 0 <= k < |items| && i in IssuesOf(elem(items[k], path + [Index(start + k)])) ==>
              i in IssuesOf(DecodeItems(items, path, start, elem))
    decreases |items|
  {
    if items != [] {
      ItemsIssuesCons(items, path, start, elem);
      ItemIssuesReported(items[1..], path, start + 1, elem);
      ShiftedInclusion(items, path, start, elem, IssuesOf(DecodeItems(items[1..], path, start + 1, elem)));
    }
  }

  /** Every issue reported for an array is an issue of one of its elements. */
  lemma {:induction false} ItemIssuesOrigin<T>(items: seq<Json>, path: Path, start: nat, elem: (Json, Path) -> Decoded<T>)
    ensures forall i :: i in IssuesOf(DecodeItems(items, path, start, elem)) ==>
              exists k :: 0 <= k < |items| && i in IssuesOf(elem(items[k], path + [Index(start + k)]))
    decreases |items|
  {
    if items != [] {
      ItemsIssuesCons(items, path, start, elem);
      ItemIssuesOrigin(items[1..], path, start + 1, elem);
      ShiftedIssues(items, path, start, elem, IssuesOf(DecodeItems(items[1..], path, start + 1, elem)));
      assert forall i :: i in IssuesOf(elem(items[0], path + [Index(start)])) ==>
        0 <= 0 < |items| && i in IssuesOf(elem(items[0], path + [Index(start + 0)]));
    }
  }

  /** Element `k` of `items[1..]`, numbered from `start + 1`, is element `k + 1` of `items`, numbered from `start`. */
  lemma ShiftedItems<T>(items: seq<Json>, path: Path, start: nat, elem: (Json, Path) -> Decoded<T>)
    requires items != []
    ensures forall k :: 0 < k < |items| ==>
              elem(items[1..][k - 1], path + [Index(start + 1 + (k - 1))]) == elem(items[k], path + [Index(start + k)])
  {
    assert forall k :: 0 < k < |items| ==> items[1..][k - 1] == items[k] && start + 1 + (k - 1) == start + k;
  }

  /** Issues that come from an element of `items[1..]` come from an element of `items`. */
  lemma ShiftedIssues<T>(items: seq<Json>, path: Path, start: nat, elem: (Json, Path) -> Decoded<T>, es: seq<Issue>)
    requires items != []
    requires forall i :: i in es ==>
               exists k :: 0 <= k < |items[1..]| && i in IssuesOf(elem(items[1..][k], path + [Index(start + 1 + k)]))
    ensures forall i :: i in es ==>
              exists k :: 0 <= k < |items| && i in IssuesOf(elem(items[k], path + [Index(start + k)]))
  {
    forall i | i in es
      ensures exists k :: 0 <= k < |items| && i in IssuesOf(elem(items[k], path + [Index(start + k)]))
    {
      var k :| 0 <= k < |items[1..]| && i in IssuesOf(elem(items[1..][k], path + [Index(start + 1 + k)]));
      assert items[1..][k] == items[k + 1] && start + 1 + k == start + (k + 1);
    }
  }

  /** Issues of every element of `items[1..]` are in `es`; with the first element's, every element's are. */
  lemma ShiftedInclusion<T>(items: seq<Json>, path: Path, start: nat, elem: (Json, Path) -> Decoded<T>, es: seq<Issue>)
    requires items != []
    requires forall k, i :: 0 <= k < |items[1..]| && i in IssuesOf(elem(items[1..][k], path + [Index(start + 1 + k)])) ==>
               i in es
    ensures forall k, i :: 0 <= k < |items| && i in IssuesOf(elem(items[k], path + [Index(start + k)])) ==>
              i in IssuesOf(elem(items[0], path + [Index(start)])) + es
  {
    forall k, i | 0 < k < |items| && i in IssuesOf(elem(items[k], path + [Index(start + k)]))
      ensures i in es
    {
      assert items[1..][k - 1] == items[k] && start + 1 + (k - 1) == start + k;
    }
    assert forall i :: i in IssuesOf(elem(items[0], path + [Index(start + 0)])) ==>
      i in IssuesOf(elem(items[0], path + [Index(start)])) + es;
  }
}
