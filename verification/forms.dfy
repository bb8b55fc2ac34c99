/** Request normalisation of local_server.py: `k=v&k=v` text into a dictionary, the query
    string after `?`, and the request dictionary `preprocessing` builds. */
module Forms {
  import opened Base
  import opened Text

  type Dict = map<string, string>

  /** The key and value one `&`-separated segment binds, or `None` when it has no `=`
      (the IndexError `split_body` catches and logs). The value is the text between the
      first and the second `=`, taken literally. */
  function Binding(item: string): (b: Option<(string, string)>)
    ensures b.None? <==> '=' !in item
  {
    var kv := Split(item, '=');
    if |kv| >= 2 then
      assert '=' in item by {
        JoinSplit(item, '=');
        assert item == kv[0] + ['='] + Join(kv[1..], '=');
        assert item[|kv[0]|] == '=';
      }
      Some((kv[0], kv[1]))
    else
      assert '=' !in item by { JoinSplit(item, '='); }
      None
  }

  /** One iteration of the `split_body` loop. */
  function AddSegment(d: Dict, item: string): (r: Dict)
    ensures '=' !in item ==> r == d
    ensures Binding(item).Some? ==>
              r.Keys == d.Keys + {Binding(item).value.0} && r[Binding(item).value.0] == Binding(item).value.1
    ensures forall k :: k in d && (Binding(item).None? || k != Binding(item).value.0) ==> r[k] == d[k]
  {
    match Binding(item)
    case Some((k, v)) => d[k := v]
    case None => d
  }

  /** The `split_body` loop over the segments, left to right. */
  function AddSegments(d: Dict, items: seq<string>): (r: Dict)
    ensures d.Keys <= r.Keys
    ensures forall k :: k in r ==> k in d || LastBinding(items, k).Some?
    decreases |items|
  {
    if |items| == 0 then d else AddSegments(AddSegment(d, items[0]), items[1..])
  }

  /** `split_body(body, dictionary)`: the dictionary after the body's segments are added. */
  function SplitBody(body: string, d: Dict): (r: Dict)
    ensures d.Keys <= r.Keys
    ensures forall k :: k in r ==> k in d || LastBinding(Split(body, '&'), k).Some?
    ensures '&' !in body ==> r == AddSegment(d, body)
  {
    var items := Split(body, '&');
    assert '&' !in body ==> AddSegments(d, items) == AddSegment(d, body) by {
      if '&' !in body {
        SplitWithoutSeparator(body, '&');
        assert items[1..] == [];
      }
    }
    AddSegments(d, items)
  }

  /** `split_query_string(path, d)` on `d["values"]`: the segments after the first `?`,
      or the dictionary unchanged when the path has no `?`. */
  function SplitQueryString(path: string, values: Dict): (r: Dict)
    ensures '?' !in path ==> r == values
    ensures '?' in path ==> r == SplitBody(path[FirstIndex(path, '?') + 1..], values)
  {
    if '?' in path then SplitBody(path[FirstIndex(path, '?') + 1..], values) else values
  }

  /** The request dictionary handed to the handlers: the HTTP method `verb`, the query `values`,
      `args` (the keys of `values`) and, for POST only, the body `form`. */
  datatype Request = Request(verb: string, values: Dict, args: set<string>, form: Option<Dict>)

  /** `preprocessing(verb)` for a request on `path`: the form starts empty and is
      present only for POST. */
  function Preprocess(verb: string, path: string): (r: Request)
    ensures r.verb == verb
    ensures r.args == r.values.Keys
    ensures r.form.Some? <==> verb == "POST"
    ensures r.form.Some? ==> r.form.value == map[]
    ensures '?' !in path ==> r.values == map[]
    ensures r.values == SplitQueryString(path, map[])
  {
    var values := SplitQueryString(path, map[]);
    Request(verb, values, values.Keys, if verb == "POST" then Some(map[]) else None)
  }

  // Reference reading of `split_body`: the last segment binding a key decides it

  /** The value the last segment of `items` that binds `k` gives it, if any does. */
  function LastBinding(items: seq<string>, k: string): Option<string>
    decreases |items|
  {
    if |items| == 0 then None
    else
      var later := LastBinding(items[1..], k);
      if later.Some? then later
      else match Binding(items[0])
        case Some((k', v)) => if k' == k then Some(v) else None
        case None => None
  }

  /** Every key after the loop is bound by the last segment that names it, and a key no
      segment names keeps its earlier value (or stays absent). */
  lemma {:induction false} AddSegmentsLastWins(d: Dict, items: seq<string>, k: string)
    ensures k in AddSegments(d, items) <==> k in d || LastBinding(items, k).Some?
    ensures LastBinding(items, k).Some? ==> AddSegments(d, items)[k] == LastBinding(items, k).value
    ensures LastBinding(items, k).None? && k in d ==> AddSegments(d, items)[k] == d[k]
    decreases |items|
  {
    if |items| > 0 {
      AddSegmentsLastWins(AddSegment(d, items[0]), items[1..], k);
    }
  }

  /** A segment without `=` is skipped and leaves the dictionary as it was. */
  lemma MalformedSegmentSkipped(d: Dict, item: string)
    requires '=' !in item
    ensures AddSegment(d, item) == d
  {
  }

  /** The empty body adds nothing. */
  lemma EmptyBodyAddsNothing(d: Dict)
    ensures SplitBody("", d) == d
  {
    assert Split("", '&') == [""];
    MalformedSegmentSkipped(d, "");
  }

  /** A segment `k=v` binds `k` to `v`. */
  lemma PlainSegmentBinding(k: string, v: string)
    requires '=' !in k && '=' !in v
    ensures Binding(k + "=" + v) == Some((k, v))
  {
    SplitAtSeparator(k, v, '=');
    SplitWithoutSeparator(v, '=');
    assert Split(k + "=" + v, '=') == [k, v];
  }

  /** A segment `k=v=tail` binds `k` to `v` and ignores `tail`. */
  lemma ExtraSegmentBinding(k: string, v: string, tail: string)
    requires '=' !in k && '=' !in v
    ensures Binding(k + "=" + v + "=" + tail) == Some((k, v))
  {
    var after := v + "=" + tail;
    SplitAtSeparator(v, tail, '=');
    SplitAtSeparator(k, after, '=');
    assert k + "=" + v + "=" + tail == k + ['='] + after;
    assert Split(k + "=" + v + "=" + tail, '=') == [k, v] + Split(tail, '=');
  }

  /** A segment `k=v` or `k=v=...` binds `k` to `v`. */
  lemma SegmentBinding(k: string, v: string, rest: string)
    requires '=' !in k && '=' !in v && (rest == "" || rest[0] == '=')
    ensures Binding(k + "=" + v + rest) == Some((k, v))
  {
    if rest == "" {
      assert k + "=" + v + rest == k + "=" + v;
      PlainSegmentBinding(k, v);
    } else {
      assert k + "=" + v + rest == k + "=" + v + "=" + rest[1..];
      ExtraSegmentBinding(k, v, rest[1..]);
    }
  }

  /** For a segment `k=v=...`, the stored value is the text between the first and the
      second `=`, unchanged: no percent-decoding happens. */
  lemma SegmentValueIsLiteral(d: Dict, k: string, v: string, rest: string)
    requires '=' !in k && '=' !in v
    ensures rest == "" || rest[0] == '=' ==> AddSegment(d, k + "=" + v + rest) == d[k := v]
  {
    if rest == "" || rest[0] == '=' {
      SegmentBinding(k, v, rest);
    }
  }

  /** The body of the example documented with `split_body`, as its three segments. This
      only equates two string literals; it stands alone so that the caller's context holds
      one literal concatenation rather than unfolding `Split` over the literal itself. */
  lemma ExampleBodyPieces(body: string)
    requires body == "way=1&lon=19.32940&len=2349"
    ensures body == "way=1" + "&" + "lon=19.32940" + "&" + "len=2349"
  {
  }

  /** The segments of the body in the example documented with `split_body`. */
  lemma ExampleSegments(body: string)
    requires body == "way=1&lon=19.32940&len=2349"
    ensures Split(body, '&') == ["way=1", "lon=19.32940", "len=2349"]
  {
    ExampleBodyPieces(body);
    SplitThree("way=1", "lon=19.32940", "len=2349", '&');
  }

  /** Three well-formed segments bind their keys in order. */
  lemma ThreeSegments(d: Dict, k1: string, v1: string, k2: string, v2: string, k3: string, v3: string)
    requires '=' !in k1 && '=' !in v1 && '=' !in k2 && '=' !in v2 && '=' !in k3 && '=' !in v3
    ensures AddSegments(d, [k1 + "=" + v1, k2 + "=" + v2, k3 + "=" + v3]) == d[k1 := v1][k2 := v2][k3 := v3]
  {
    var parts := [k1 + "=" + v1, k2 + "=" + v2, k3 + "=" + v3];
    SegmentValueIsLiteral(d, k1, v1, "");
    assert k1 + "=" + v1 + "" == parts[0];
    SegmentValueIsLiteral(d[k1 := v1], k2, v2, "");
    assert k2 + "=" + v2 + "" == parts[1];
    SegmentValueIsLiteral(d[k1 := v1][k2 := v2], k3, v3, "");
    assert k3 + "=" + v3 + "" == parts[2];
    var d1, d2, d3 := d[k1 := v1], d[k1 := v1][k2 := v2], d[k1 := v1][k2 := v2][k3 := v3];
    assert parts[1..][1..][1..] == [];
    assert AddSegments(d3, parts[1..][1..][1..]) == d3;
    assert AddSegments(d2, parts[1..][1..]) == AddSegments(d3, parts[1..][1..][1..]);
    assert AddSegments(d1, parts[1..]) == AddSegments(d2, parts[1..][1..]);
    assert AddSegments(d, parts) == AddSegments(d1, parts[1..]);
  }

  /** The dictionary the segments of the `split_body` example build. */
  lemma ExampleBindings()
    ensures AddSegments(map[], ["way=1", "lon=19.32940", "len=2349"])
         == map["way" := "1", "lon" := "19.32940", "len" := "2349"]
  {
    assert "way" + "=" + "1" == "way=1";
    assert "lon" + "=" + "19.32940" == "lon=19.32940";
    assert "len" + "=" + "2349" == "len=2349";
    ThreeSegments(map[], "way", "1", "lon", "19.32940", "len", "2349");
  }

  /** The example documented with `split_body`. */
  lemma SplitBodyExample(body: string)
    requires body == "way=1&lon=19.32940&len=2349"
    ensures SplitBody(body, map[]) == map["way" := "1", "lon" := "19.32940", "len" := "2349"]
  {
    ExampleSegments(body);
    ExampleBindings();
  }

  /** When the first `?` of the path sits at `i`, only the text after it is parsed. */
  lemma QueryAfterFirstMark(path: string, i: nat, values: Dict)
    requires i < |path| && path[i] == '?' && '?' !in path[..i]
    ensures SplitQueryString(path, values) == SplitBody(path[i + 1..], values)
  {
  }

  /** The example documented with `split_query_string`: only the text after `?` is parsed. */
  lemma SplitQueryStringExample(path: string)
    requires path == "/?way=1&lon=19.32940&len=2349"
    ensures SplitQueryString(path, map[]) == map["way" := "1", "lon" := "19.32940", "len" := "2349"]
  {
    assert path[..1] == "/" && path[1] == '?';
    QueryAfterFirstMark(path, 1, map[]);
    var query := path[2..];
    assert query == "way=1&lon=19.32940&len=2349";
    SplitBodyExample(query);
  }
}
