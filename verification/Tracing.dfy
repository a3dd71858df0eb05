/**
 The trace collector and its query server: requests are indexed by the times they span, and the
 spans of the retrieved requests that match a filter become markers of a Firefox profile, whose
 columns refer to labels by their index in a string table.
 */
module Tracing {
  import opened Wrappers

  datatype AttributeValue = StringValue(s: string) | IntValue(n: int) | OtherValue

  datatype Attribute = Attribute(key: string, value: Option<AttributeValue>)

  datatype Event = Event(time: int, payload: string)

  datatype Span = Span(start: int, end: int, attributes: seq<Attribute>, events: seq<Event>, payload: string)

  datatype ResourceSpans = ResourceSpans(resource: Option<seq<Attribute>>, spans: seq<Span>)

  type Request = seq<ResourceSpans>

  /** A stored request with its index. */
  datatype RawTrace = RawTrace(minTime: int, maxTime: int, data: Request)

  /** Window in milliseconds, and the filter; an empty set lets everything pass. */
  datatype Query = Query(startMs: int, endMs: int, nodes: set<string>, threads: set<int>)

  // Indexing

  function SpansOf(r: Request): seq<Span> {
    if r == [] then [] else SpansOf(r[..|r| - 1]) + r[|r| - 1].spans
  }

  /** The bounds of the spans, attained by some span. */
  ghost predicate Covers(minTime: Option<int>, maxTime: Option<int>, spans: seq<Span>) {
    && (minTime.None? <==> spans == []) && (maxTime.None? <==> spans == [])
    && (forall i :: 0 <= i < |spans| ==> minTime.value <= spans[i].start && spans[i].end <= maxTime.value)
    && (spans != [] ==> exists i :: 0 <= i < |spans| && spans[i].start == minTime.value)
    && (spans != [] ==> exists i :: 0 <= i < |spans| && spans[i].end == maxTime.value)
  }

  lemma CoversNone()
    ensures Covers(None, None, [])
  {
  }

  lemma CoversSome(minTime: Option<int>, maxTime: Option<int>, spans: seq<Span>)
    requires Covers(minTime, maxTime, spans)
    ensures (minTime.None? <==> spans == []) && (maxTime.None? <==> spans == [])
  {
  }

  function Lower(bound: Option<int>, x: int): Option<int> {
    if bound.None? || x < bound.value then Some(x) else bound
  }

  function Raise(bound: Option<int>, x: int): Option<int> {
    if bound.None? || x > bound.value then Some(x) else bound
  }

  lemma CoversMore(minTime: Option<int>, maxTime: Option<int>, spans: seq<Span>, span: Span)
    requires Covers(minTime, maxTime, spans)
    ensures Covers(Lower(minTime, span.start), Raise(maxTime, span.end), spans + [span])
  {
    var all := spans + [span];
    assert all[|spans|] == span;
    if spans != [] {
      var i :| 0 <= i < |spans| && spans[i].start == minTime.value;
      var j :| 0 <= j < |spans| && spans[j].end == maxTime.value;
      assert all[i] == spans[i] && all[j] == spans[j];
    }
  }

  ghost predicate IsIndexed(t: RawTrace) {
    Covers(Some(t.minTime), Some(t.maxTime), SpansOf(t.data))
  }

  /** `export`: the earliest start and the latest end; a request without spans is refused. */
  method Export(request: Request) returns (trace: Option<RawTrace>)
    ensures trace.None? <==> SpansOf(request) == []
    ensures trace.Some? ==> trace.value.data == request
    ensures trace.Some? ==> IsIndexed(trace.value)
  {
    hide Covers;
    var minTime: Option<int>, maxTime: Option<int> := None, None;
    CoversNone();
    for i := 0 to |request|
      invariant Covers(minTime, maxTime, SpansOf(request[..i]))
    {
      assert request[..i + 1][..i] == request[..i];
      ghost var seen := SpansOf(request[..i]);
      assert seen + request[i].spans[..0] == seen;
      for j := 0 to |request[i].spans|
        invariant Covers(minTime, maxTime, seen + request[i].spans[..j])
      {
        var span := request[i].spans[j];
        assert seen + request[i].spans[..j + 1] == seen + request[i].spans[..j] + [span];
        CoversMore(minTime, maxTime, seen + request[i].spans[..j], span);
        if minTime.None? || span.start < minTime.value {
          minTime := Some(span.start);
        }
        if maxTime.None? || span.end > maxTime.value {
          maxTime := Some(span.end);
        }
      }
      assert request[i].spans[..|request[i].spans|] == request[i].spans;
    }
    assert request[..|request|] == request;
    CoversSome(minTime, maxTime, SpansOf(request));
    if minTime.None? || maxTime.None? {
      return None;
    }
    return Some(RawTrace(minTime.value, maxTime.value, request));
  }

  /** The condition of the database query. */
  predicate IsRetrieved(q: Query, t: RawTrace) {
    t.maxTime > q.startMs * 1000000 && t.minTime < q.endMs * 1000000
  }

  predicate Overlaps(q: Query, s: Span) {
    s.end > q.startMs * 1000000 && s.start < q.endMs * 1000000
  }

  /** A stored request that holds a span overlapping the window is retrieved. */
  lemma OverlappingSpanIsRetrieved(q: Query, t: RawTrace, i: nat)
    requires IsIndexed(t) && i < |SpansOf(t.data)| && Overlaps(q, SpansOf(t.data)[i])
    ensures IsRetrieved(q, t)
  {
  }

  // Filtering

  /** The last attribute with this key and a string value. */
  function LastString(attributes: seq<Attribute>, key: string, default: string): string {
    if attributes == [] then default
    else
      var a := attributes[|attributes| - 1];
      if a.key == key && a.value.Some? && a.value.value.StringValue? then a.value.value.s
      else LastString(attributes[..|attributes| - 1], key, default)
  }

  function LastInt(attributes: seq<Attribute>, key: string, default: int): int {
    if attributes == [] then default
    else
      var a := attributes[|attributes| - 1];
      if a.key == key && a.value.Some? && a.value.value.IntValue? then a.value.value.n
      else LastInt(attributes[..|attributes| - 1], key, default)
  }

  /** Where a span belongs: node and thread. */
  datatype Group = Group(node: string, thread: int)

  function GroupOf(resource: seq<Attribute>, span: Span): Group {
    Group(LastString(resource, "service.name", "(unknown)"), LastInt(span.attributes, "thread.id", -1))
  }

  predicate IsMatch(q: Query, g: Group) {
    (q.nodes == {} || g.node in q.nodes) && (q.threads == {} || g.thread in q.threads)
  }

  predicate IsStringFor(a: Attribute, key: string) {
    a.key == key && a.value.Some? && a.value.value.StringValue?
  }

  /** The node of a span is the last string called "service.name" of its resource, and "(unknown)" without one. */
  lemma {:induction false} LastStringIs(attributes: seq<Attribute>, key: string, default: string, i: nat)
    requires i <= |attributes|
    requires forall j :: i <= j < |attributes| ==> !IsStringFor(attributes[j], key)
    requires i > 0 ==> IsStringFor(attributes[i - 1], key)
    ensures LastString(attributes, key, default) == if i > 0 then attributes[i - 1].value.value.s else default
    decreases |attributes|
  {
    if i < |attributes| {
      assert !IsStringFor(attributes[|attributes| - 1], key);
      LastStringIs(attributes[..|attributes| - 1], key, default, i);
    }
  }

  predicate IsIntFor(a: Attribute, key: string) {
    a.key == key && a.value.Some? && a.value.value.IntValue?
  }

  lemma {:induction false} LastIntIs(attributes: seq<Attribute>, key: string, default: int, i: nat)
    requires i <= |attributes|
    requires forall j :: i <= j < |attributes| ==> !IsIntFor(attributes[j], key)
    requires i > 0 ==> IsIntFor(attributes[i - 1], key)
    ensures LastInt(attributes, key, default) == if i > 0 then attributes[i - 1].value.value.n else default
    decreases |attributes|
  {
    if i < |attributes| {
      assert !IsIntFor(attributes[|attributes| - 1], key);
      LastIntIs(attributes[..|attributes| - 1], key, default, i);
    }
  }

  /** `QueryFilter::matches`. */
  method Matches(q: Query, resource: seq<Attribute>, span: Span) returns (matches: bool, group: Group)
    ensures group == GroupOf(resource, span) && matches == IsMatch(q, group)
    ensures group.node == LastString(resource, "service.name", "(unknown)")
    ensures group.thread == LastInt(span.attributes, "thread.id", -1)
    ensures matches <==> (q.nodes != {} ==> group.node in q.nodes) && (q.threads != {} ==> group.thread in q.threads)
  {
    var node := "(unknown)";
    for i := 0 to |resource|
      invariant node == LastString(resource[..i], "service.name", "(unknown)")
    {
      assert resource[..i + 1][..i] == resource[..i];
      var a := resource[i];
      if a.key == "service.name" && a.value.Some? && a.value.value.StringValue? {
        node := a.value.value.s;
      }
    }
    assert resource[..|resource|] == resource;
    var thread := -1;
    for i := 0 to |span.attributes|
      invariant thread == LastInt(span.attributes[..i], "thread.id", -1)
    {
      assert span.attributes[..i + 1][..i] == span.attributes[..i];
      var a := span.attributes[i];
      if a.key == "thread.id" && a.value.Some? && a.value.value.IntValue? {
        thread := a.value.value.n;
      }
    }
    assert span.attributes[..|span.attributes|] == span.attributes;
    group := Group(node, thread);
    matches := (q.nodes == {} || node in q.nodes) && (q.threads == {} || thread in q.threads);
  }

  // The profile

  /** A marker with its label spelled out; an instant has no end. */
  datatype Marker = Marker(name: string, start: int, end: Option<int>, payload: string)

  datatype GroupedSpan = GroupedSpan(group: Group, span: Span)

  function SpanMarkers(q: Query, name: string, s: Span): seq<Marker> {
    [Marker(name, s.start - q.startMs * 1000000, Some(s.end - q.startMs * 1000000), s.payload)]
    + seq(|s.events|, i requires 0 <= i < |s.events| =>
        Marker(name, s.events[i].time - q.startMs * 1000000, None, s.events[i].payload))
  }

  /** An interval from start to end, then an instant per event, all in nanoseconds since the start of the window. */
  lemma SpanMarkersAre(q: Query, name: string, s: Span)
    ensures var m, zero := SpanMarkers(q, name, s), q.startMs * 1000000;
            && |m| == |s.events| + 1 && (forall i :: 0 <= i < |m| ==> m[i].name == name)
            && m[0].end.Some? && zero + m[0].start == s.start && zero + m[0].end.value == s.end
            && m[0].payload == s.payload
            && forall i :: 0 <= i < |s.events| ==>
                 && m[i + 1].end.None? && zero + m[i + 1].start == s.events[i].time
                 && m[i + 1].payload == s.events[i].payload
  {
  }

  /** Hands out one index per distinct string. */
  class StringTableBuilder {
    var strings: seq<string>
    var existing: map<string, nat>

    ghost predicate Valid()
      reads this
    {
      && (forall s :: s in existing ==> existing[s] < |strings| && strings[existing[s]] == s)
      && (forall i :: 0 <= i < |strings| ==> strings[i] in existing && existing[strings[i]] == i)
    }

    constructor ()
      ensures Valid() && strings == []
    {
      strings, existing := [], map[];
    }

    method Insert(s: string) returns (index: nat)
      requires Valid()
      modifies this
      ensures Valid() && old(strings) <= strings && index < |strings| && strings[index] == s
      ensures strings == if s in old(strings) then old(strings) else old(strings) + [s]
    {
      if s in existing {
        return existing[s];
      }
      index := |strings|;
      strings := strings + [s];
      existing := existing[s := index];
    }
  }

  function Rows(strings: seq<string>, name: seq<nat>, startTime: seq<int>, endTime: seq<Option<int>>,
                data: seq<string>): (r: seq<Marker>)
    requires |data| == |name| == |startTime| == |endTime| && forall i :: 0 <= i < |name| ==> name[i] < |strings|
    ensures |r| == |name|
  {
    seq(|name|, i requires 0 <= i < |name| => Marker(strings[name[i]], startTime[i], endTime[i], data[i]))
  }

  /** A row is read the same after the string table has grown. */
  lemma RowsAppend(strings: seq<string>, more: seq<string>, name: seq<nat>, startTime: seq<int>,
                   endTime: seq<Option<int>>, data: seq<string>, index: nat, m: Marker)
    requires |data| == |name| == |startTime| == |endTime| && forall i :: 0 <= i < |name| ==> name[i] < |strings|
    requires strings <= more && index < |more| && more[index] == m.name
    ensures Rows(more, name + [index], startTime + [m.start], endTime + [m.end], data + [m.payload]) ==
        Rows(strings, name, startTime, endTime, data) + [m]
  {
  }

  /** The columns of the profile's marker table. */
  class RawMarkerTable {
    var data: seq<string>
    var name: seq<nat>
    var startTime: seq<int>
    var endTime: seq<Option<int>>
    var phase: seq<nat>
    var category: seq<nat>
    var length: nat

    /** All columns have the same length, an end goes with phase 1, and names are indices into the table. */
    ghost predicate Valid(strings: seq<string>)
      reads this
    {
      && |data| == |name| == |startTime| == |endTime| == |phase| == |category| == length
      && (forall i :: 0 <= i < length ==> name[i] < |strings|)
      && (forall i :: 0 <= i < length ==> phase[i] == (if endTime[i].Some? then 1 else 0) && category[i] == 0)
    }

    /** The markers as a reader of the profile sees them. */
    ghost function Markers(strings: seq<string>): (r: seq<Marker>)
      requires Valid(strings)
      reads this
      ensures |r| == length
    {
      Rows(strings, name, startTime, endTime, data)
    }

    constructor ()
      ensures Valid([]) && Markers([]) == []
    {
      data, name, startTime, endTime, phase, category, length := [], [], [], [], [], [], 0;
    }

    /** `add_interval_marker` when there is an end, `add_instant_marker` otherwise. */
    method Add(table: StringTableBuilder, m: Marker)
      requires table.Valid() && Valid(table.strings)
      modifies this, table
      ensures table.Valid() && Valid(table.strings)
      ensures Markers(table.strings) == old(Markers(table.strings)) + [m]
    {
      hide Rows, StringTableBuilder.Valid;
      ghost var before := table.strings;
      var index := table.Insert(m.name);
      RowsAppend(before, table.strings, name, startTime, endTime, data, index, m);
      name, startTime, endTime := name + [index], startTime + [m.start], endTime + [m.end];
      phase, category := phase + [if m.end.Some? then 1 else 0], category + [0];
      data, length := data + [m.payload], length + 1;
    }
  }

  // Grouping and emission

  function MatchedSpans(q: Query, resource: seq<Attribute>, spans: seq<Span>): seq<GroupedSpan> {
    if spans == [] then []
    else
      var s := spans[|spans| - 1];
      MatchedSpans(q, resource, spans[..|spans| - 1])
      + if IsMatch(q, GroupOf(resource, s)) then [GroupedSpan(GroupOf(resource, s), s)] else []
  }

  /** The matching spans of a request; spans without a resource are passed over. */
  function MatchedIn(q: Query, request: Request): seq<GroupedSpan> {
    if request == [] then []
    else
      var r := request[|request| - 1];
      MatchedIn(q, request[..|request| - 1]) + if r.resource.Some? then MatchedSpans(q, r.resource.value, r.spans)
          else []
  }

  ghost predicate IsMatchedAt(q: Query, r: ResourceSpans, m: GroupedSpan) {
    && r.resource.Some? && m.span in r.spans && m.group == GroupOf(r.resource.value, m.span)
    && (q.nodes != {} ==> m.group.node in q.nodes) && (q.threads != {} ==> m.group.thread in q.threads)
  }

  lemma {:induction false} MatchedSpanIff(q: Query, resource: seq<Attribute>, spans: seq<Span>, m: GroupedSpan)
    ensures m in MatchedSpans(q, resource, spans) <==>
            m.span in spans && m.group == GroupOf(resource, m.span) && IsMatch(q, m.group)
  {
    hide GroupOf, IsMatch;
    if spans != [] {
      MatchedSpanIff(q, resource, spans[..|spans| - 1], m);
      assert spans == spans[..|spans| - 1] + [spans[|spans| - 1]];
    }
  }

  /** A span is matched exactly when it belongs to some resource and passes the filter, in the group of both. */
  lemma {:induction false} MatchedIff(q: Query, request: Request, m: GroupedSpan)
    ensures m in MatchedIn(q, request) <==>
            exists i :: 0 <= i < |request| && IsMatchedAt(q, request[i], m)
  {
    if request != [] {
      var init, r := request[..|request| - 1], request[|request| - 1];
      MatchedIff(q, init, m);
      if r.resource.Some? {
        MatchedSpanIff(q, r.resource.value, r.spans, m);
      }
      assert forall i :: 0 <= i < |init| ==> init[i] == request[i];
    }
  }

  function MatchedInAll(q: Query, requests: seq<Request>): seq<GroupedSpan> {
    if requests == [] then [] else MatchedInAll(q, requests[..|requests| - 1]) + MatchedIn(q, requests[|requests| - 1])
  }

  function SpansFor(matched: seq<GroupedSpan>, g: Group): seq<Span> {
    if matched == [] then []
    else
      var m := matched[|matched| - 1];
      SpansFor(matched[..|matched| - 1], g) + if m.group == g then [m.span] else []
  }

  /** Node and thread together are the key: the nested maps of the source are read in the order of these pairs. */
  type Groups = map<Group, seq<Span>>

  ghost predicate IsGrouping(groups: Groups, matched: seq<GroupedSpan>) {
    && (forall g :: g in groups ==> groups[g] == SpansFor(matched, g))
    && (forall i :: 0 <= i < |matched| ==> matched[i].group in groups)
  }

  function Put(groups: Groups, g: Group, s: Span): Groups {
    groups[g := (if g in groups then groups[g] else []) + [s]]
  }

  lemma {:induction false} NoSpans(matched: seq<GroupedSpan>, g: Group)
    requires forall i :: 0 <= i < |matched| ==> matched[i].group != g
    ensures SpansFor(matched, g) == []
  {
    if matched != [] {
      NoSpans(matched[..|matched| - 1], g);
    }
  }

  lemma PutKeepsGrouping(groups: Groups, matched: seq<GroupedSpan>, g: Group, s: Span)
    requires IsGrouping(groups, matched)
    ensures IsGrouping(Put(groups, g, s), matched + [GroupedSpan(g, s)])
  {
    var more := matched + [GroupedSpan(g, s)];
    assert more[..|matched|] == matched;
    if g !in groups {
      NoSpans(matched, g);
    }
    forall h | h in Put(groups, g, s)
      ensures Put(groups, g, s)[h] == SpansFor(more, h)
    {
    }
  }

  method CollectSpans(q: Query, resource: seq<Attribute>, spans: seq<Span>, before: Groups,
                      ghost matched: seq<GroupedSpan>) returns (groups: Groups)
    requires IsGrouping(before, matched)
    ensures IsGrouping(groups, matched + MatchedSpans(q, resource, spans))
  {
    hide GroupOf, IsMatch, IsGrouping;
    groups := before;
    assert matched + MatchedSpans(q, resource, spans[..0]) == matched;
    for i := 0 to |spans|
      invariant IsGrouping(groups, matched + MatchedSpans(q, resource, spans[..i]))
    {
      assert spans[..i + 1][..i] == spans[..i];
      ghost var soFar := MatchedSpans(q, resource, spans[..i]);
      var isMatch, group := Matches(q, resource, spans[i]);
      if isMatch {
        PutKeepsGrouping(groups, matched + soFar, group, spans[i]);
        assert matched + (soFar + [GroupedSpan(group, spans[i])]) == matched + soFar + [GroupedSpan(group, spans[i])];
        groups := Put(groups, group, spans[i]);
      } else {
        assert soFar + [] == soFar;
      }
    }
    assert spans[..|spans|] == spans;
  }

  method CollectRequest(q: Query, request: Request, before: Groups, ghost matched: seq<GroupedSpan>)
    returns (groups: Groups)
    requires IsGrouping(before, matched)
    ensures IsGrouping(groups, matched + MatchedIn(q, request))
  {
    hide IsGrouping, MatchedSpans;
    groups := before;
    assert matched + MatchedIn(q, request[..0]) == matched;
    for i := 0 to |request|
      invariant IsGrouping(groups, matched + MatchedIn(q, request[..i]))
    {
      assert request[..i + 1][..i] == request[..i];
      ghost var soFar := MatchedIn(q, request[..i]);
      match request[i].resource
      case None => assert soFar + [] == soFar;
      case Some(resource) =>
        groups := CollectSpans(q, resource, request[i].spans, groups, matched + soFar);
        ghost var added := MatchedSpans(q, resource, request[i].spans);
        assert matched + (soFar + added) == matched + soFar + added;
    }
    assert request[..|request|] == request;
  }

  method CollectAll(q: Query, requests: seq<Request>) returns (groups: Groups)
    ensures IsGrouping(groups, MatchedInAll(q, requests))
  {
    groups := map[];
    for i := 0 to |requests|
      invariant IsGrouping(groups, MatchedInAll(q, requests[..i]))
    {
      assert requests[..i + 1][..i] == requests[..i];
      groups := CollectRequest(q, requests[i], groups, MatchedInAll(q, requests[..i]));
    }
    assert requests[..|requests|] == requests;
  }

  /** The markers of all matching spans, each counted as often as it must appear. */
  function MarkersOf(q: Query, show: Group -> string, matched: seq<GroupedSpan>): multiset<Marker> {
    if matched == [] then multiset{}
    else
      var m := matched[|matched| - 1];
      MarkersOf(q, show, matched[..|matched| - 1]) + multiset(SpanMarkers(q, show(m.group), m.span))
  }

  function GroupMarkers(q: Query, name: string, spans: seq<Span>): seq<Marker> {
    if spans == [] then [] else GroupMarkers(q, name, spans[..|spans| - 1]) + SpanMarkers(q, name, spans[|spans| - 1])
  }

  /** What is emitted group by group. */
  function Emitted(q: Query, show: Group -> string, matched: seq<GroupedSpan>, order: seq<Group>): seq<Marker> {
    if order == [] then []
    else
      var g := order[|order| - 1];
      Emitted(q, show, matched, order[..|order| - 1]) + GroupMarkers(q, show(g), SpansFor(matched, g))
  }

  ghost predicate AreDistinct(order: seq<Group>) {
    forall i, j :: 0 <= i < j < |order| ==> order[i] != order[j]
  }

  lemma {:induction false} EmittedNothing(q: Query, show: Group -> string, order: seq<Group>)
    ensures Emitted(q, show, [], order) == []
  {
    if order != [] {
      EmittedNothing(q, show, order[..|order| - 1]);
    }
  }

  /** One more matching span adds its markers to one group and to no other. */
  lemma {:induction false} EmittedOneMore(q: Query, show: Group -> string, matched: seq<GroupedSpan>, m: GroupedSpan,
                                          order: seq<Group>)
    requires AreDistinct(order)
    ensures multiset(Emitted(q, show, matched + [m], order)) ==
            multiset(Emitted(q, show, matched, order)) + if m.group in order
                then multiset(SpanMarkers(q, show(m.group), m.span)) else multiset{}
  {
    hide SpanMarkers;
    if order != [] {
      var init, g := order[..|order| - 1], order[|order| - 1];
      assert order == init + [g] && g !in init;
      EmittedOneMore(q, show, matched, m, init);
      assert (matched + [m])[..|matched|] == matched;
      var spans := SpansFor(matched, g);
      if m.group == g {
        assert SpansFor(matched + [m], g) == spans + [m.span];
        assert (spans + [m.span])[..|spans|] == spans;
      } else {
        assert SpansFor(matched + [m], g) == spans + [] == spans;
      }
    }
  }

  /** Grouping loses nothing and invents nothing. */
  lemma {:induction false} EmittedIsAll(q: Query, show: Group -> string, matched: seq<GroupedSpan>, order: seq<Group>)
    requires AreDistinct(order) && forall i :: 0 <= i < |matched| ==> matched[i].group in order
    ensures multiset(Emitted(q, show, matched, order)) == MarkersOf(q, show, matched)
  {
    hide SpanMarkers, Emitted;
    if matched == [] {
      EmittedNothing(q, show, order);
    } else {
      var init, m := matched[..|matched| - 1], matched[|matched| - 1];
      assert matched == init + [m];
      EmittedIsAll(q, show, init, order);
      EmittedOneMore(q, show, init, m, order);
    }
  }

  method EmitSpan(q: Query, name: string, span: Span, table: StringTableBuilder, markers: RawMarkerTable)
    requires table.Valid() && markers.Valid(table.strings)
    modifies table, markers
    ensures table.Valid() && markers.Valid(table.strings)
    ensures markers.Markers(table.strings) == old(markers.Markers(table.strings)) + SpanMarkers(q, name, span)
  {
    ghost var before, all := markers.Markers(table.strings), SpanMarkers(q, name, span);
    markers.Add(table, Marker(name, span.start - q.startMs * 1000000, Some(span.end - q.startMs * 1000000),
        span.payload));
    assert before + all[..1] == before + [all[0]];
    for i := 0 to |span.events|
      invariant table.Valid() && markers.Valid(table.strings)
      invariant markers.Markers(table.strings) == before + all[..i + 1]
    {
      assert all[..i + 2] == all[..i + 1] + [all[i + 1]];
      markers.Add(table, Marker(name, span.events[i].time - q.startMs * 1000000, None, span.events[i].payload));
    }
    assert all[..|span.events| + 1] == all;
  }

  /** The columns of the profile and the string array that goes with them. */
  method EmitGroup(q: Query, name: string, spans: seq<Span>, table: StringTableBuilder, markers: RawMarkerTable)
    requires table.Valid() && markers.Valid(table.strings)
    modifies table, markers
    ensures table.Valid() && markers.Valid(table.strings)
    ensures markers.Markers(table.strings) == old(markers.Markers(table.strings)) + GroupMarkers(q, name, spans)
  {
    hide SpanMarkers;
    ghost var before := markers.Markers(table.strings);
    assert before + GroupMarkers(q, name, spans[..0]) == before;
    for i := 0 to |spans|
      invariant table.Valid() && markers.Valid(table.strings)
      invariant markers.Markers(table.strings) == before + GroupMarkers(q, name, spans[..i])
    {
      assert spans[..i + 1][..i] == spans[..i];
      EmitSpan(q, name, spans[i], table, markers);
    }
    assert spans[..|spans|] == spans;
  }

  lemma GroupedKeys(groups: Groups, matched: seq<GroupedSpan>)
    requires IsGrouping(groups, matched)
    ensures forall i :: 0 <= i < |matched| ==> matched[i].group in groups
  {
  }

  lemma EmittedLast(q: Query, show: Group -> string, groups: Groups, matched: seq<GroupedSpan>, order: seq<Group>,
                    i: nat)
    requires IsGrouping(groups, matched) && i < |order| && order[i] in groups
    ensures Emitted(q, show, matched, order[..i + 1]) ==
        Emitted(q, show, matched, order[..i]) + GroupMarkers(q, show(order[i]), groups[order[i]])
  {
    assert order[..i + 1][..i] == order[..i];
  }

  method EmitAll(q: Query, show: Group -> string, groups: Groups, ghost matched: seq<GroupedSpan>, order: seq<Group>,
                 table: StringTableBuilder, markers: RawMarkerTable)
    requires IsGrouping(groups, matched) && forall i :: 0 <= i < |order| ==> order[i] in groups
    requires table.Valid() && markers.Valid(table.strings) && markers.Markers(table.strings) == []
    modifies table, markers
    ensures table.Valid() && markers.Valid(table.strings)
    ensures markers.Markers(table.strings) == Emitted(q, show, matched, order)
  {
    assert Emitted(q, show, matched, order[..0]) == [];
    hide Emitted, IsGrouping, GroupMarkers;
    for i := 0 to |order|
      invariant table.Valid() && markers.Valid(table.strings)
      invariant markers.Markers(table.strings) == Emitted(q, show, matched, order[..i])
    {
      EmittedLast(q, show, groups, matched, order, i);
      EmitGroup(q, show(order[i]), groups[order[i]], table, markers);
    }
    assert order[..|order|] == order;
  }

  /**
   The profile of retrieved requests, with the groups in any order: read through the string
   array, the columns hold for every matching span exactly one interval marker and one instant
   marker per event, and nothing else.
   */
  method ProfileOf(q: Query, show: Group -> string, requests: seq<Request>, sort: set<Group> -> seq<Group>)
    returns (strings: seq<string>, markers: RawMarkerTable)
    requires forall s :: AreDistinct(sort(s)) && forall g :: g in sort(s) <==> g in s
    ensures markers.Valid(strings)
    ensures multiset(markers.Markers(strings)) == MarkersOf(q, show, MatchedInAll(q, requests))
  {
    var groups := CollectAll(q, requests);
    ghost var matched := MatchedInAll(q, requests);
    var order := sort(groups.Keys);
    var table := new StringTableBuilder();
    markers := new RawMarkerTable();
    GroupedKeys(groups, matched);
    EmitAll(q, show, groups, matched, order, table, markers);
    EmittedIsAll(q, show, matched, order);
    strings := table.strings;
  }

  // Retrieval and emission together

  function DataOf(stored: seq<RawTrace>): seq<Request> {
    if stored == [] then [] else DataOf(stored[..|stored| - 1]) + [stored[|stored| - 1].data]
  }

  /** What the database query returns. */
  function Retrieved(q: Query, stored: seq<RawTrace>): seq<Request> {
    if stored == [] then []
    else
      var t := stored[|stored| - 1];
      Retrieved(q, stored[..|stored| - 1]) + if IsRetrieved(q, t) then [t.data] else []
  }

  /** The spans that overlap the window of the query. */
  function Overlapping(q: Query, matched: seq<GroupedSpan>): seq<GroupedSpan> {
    if matched == [] then []
    else
      var m := matched[|matched| - 1];
      Overlapping(q, matched[..|matched| - 1]) + if Overlaps(q, m.span) then [m] else []
  }

  lemma {:induction false} MatchedAreSpans(q: Query, resource: seq<Attribute>, spans: seq<Span>)
    ensures forall i :: 0 <= i < |MatchedSpans(q, resource, spans)| ==>
      MatchedSpans(q, resource, spans)[i].span in spans
  {
    if spans != [] {
      MatchedAreSpans(q, resource, spans[..|spans| - 1]);
    }
  }

  lemma {:induction false} MatchedAreOfRequest(q: Query, request: Request)
    ensures forall i :: 0 <= i < |MatchedIn(q, request)| ==> MatchedIn(q, request)[i].span in SpansOf(request)
  {
    if request != [] {
      var init, r := request[..|request| - 1], request[|request| - 1];
      MatchedAreOfRequest(q, init);
      var more := if r.resource.Some? then MatchedSpans(q, r.resource.value, r.spans) else [];
      if r.resource.Some? {
        MatchedAreSpans(q, r.resource.value, r.spans);
      }
      hide MatchedIn;
      assert forall i :: 0 <= i < |more| ==> more[i].span in r.spans;
      assert SpansOf(request) == SpansOf(init) + r.spans;
    }
  }

  lemma {:induction false} NoneOverlap(q: Query, matched: seq<GroupedSpan>)
    requires forall i :: 0 <= i < |matched| ==> !Overlaps(q, matched[i].span)
    ensures Overlapping(q, matched) == []
  {
    if matched != [] {
      NoneOverlap(q, matched[..|matched| - 1]);
    }
  }

  lemma {:induction false} OverlappingAppend(q: Query, a: seq<GroupedSpan>, b: seq<GroupedSpan>)
    ensures Overlapping(q, a + b) == Overlapping(q, a) + Overlapping(q, b)
  {
    if b == [] {
      assert a + b == a;
    } else {
      var init := b[..|b| - 1];
      OverlappingAppend(q, a, init);
      assert (a + b)[..|a + b| - 1] == a + init;
    }
  }

  lemma MarkersLast(q: Query, show: Group -> string, init: seq<GroupedSpan>, m: GroupedSpan)
    ensures MarkersOf(q, show, init + [m]) == MarkersOf(q, show, init) + multiset(SpanMarkers(q, show(m.group), m.span))
  {
    assert (init + [m])[..|init|] == init;
  }

  lemma AddedLast(x: multiset<Marker>, y: multiset<Marker>, z: multiset<Marker>)
    ensures x + y + z == x + (y + z)
  {
  }

  lemma {:induction false} MarkersAppend(q: Query, show: Group -> string, a: seq<GroupedSpan>, b: seq<GroupedSpan>)
    ensures MarkersOf(q, show, a + b) == MarkersOf(q, show, a) + MarkersOf(q, show, b)
  {
    hide SpanMarkers;
    if b == [] {
      assert a + b == a;
    } else {
      var init, m := b[..|b| - 1], b[|b| - 1];
      MarkersAppend(q, show, a, init);
      assert (a + b)[..|a + b| - 1] == a + init;
      AddedLast(MarkersOf(q, show, a), MarkersOf(q, show, init), multiset(SpanMarkers(q, show(m.group), m.span)));
    }
  }

  lemma {:induction false} OverlappingIsPart(q: Query, show: Group -> string, matched: seq<GroupedSpan>)
    ensures MarkersOf(q, show, Overlapping(q, matched)) <= MarkersOf(q, show, matched)
  {
    hide MarkersOf, SpanMarkers;
    if matched != [] {
      var init, m := matched[..|matched| - 1], matched[|matched| - 1];
      OverlappingIsPart(q, show, init);
      var some := Overlapping(q, init);
      MarkersLast(q, show, init, m);
      MarkersLast(q, show, some, m);
      assert matched == init + [m] && some + [] == some;
    }
  }

  /** A request that is not retrieved has no matching span in the window. */
  lemma UnretrievedDoNotOverlap(q: Query, t: RawTrace)
    requires IsIndexed(t) && !IsRetrieved(q, t)
    ensures Overlapping(q, MatchedIn(q, t.data)) == []
  {
    hide MatchedIn, Overlapping, IsIndexed;
    var matched, spans := MatchedIn(q, t.data), SpansOf(t.data);
    MatchedAreOfRequest(q, t.data);
    forall i | 0 <= i < |matched|
      ensures !Overlaps(q, matched[i].span)
    {
      assert matched[i].span in spans;
      var j :| 0 <= j < |spans| && spans[j] == matched[i].span;
      if Overlaps(q, spans[j]) {
        OverlappingSpanIsRetrieved(q, t, j);
      }
    }
    NoneOverlap(q, matched);
  }

  /** Between retrieval by the index and the filter nothing in the window is lost, and nothing comes from elsewhere. */
  lemma {:induction false} RetrievalLosesNothing(q: Query, show: Group -> string, stored: seq<RawTrace>)
    requires forall i :: 0 <= i < |stored| ==> IsIndexed(stored[i])
    ensures var all, found := MatchedInAll(q, DataOf(stored)), MatchedInAll(q, Retrieved(q, stored));
            MarkersOf(q, show, Overlapping(q, all)) <= MarkersOf(q, show, found) <= MarkersOf(q, show, all)
  {
    hide IsIndexed, IsRetrieved, MatchedIn, Overlapping, MarkersOf;
    if stored == [] {
      NoneOverlap(q, []);
    } else {
      var init, t := stored[..|stored| - 1], stored[|stored| - 1];
      RetrievalLosesNothing(q, show, init);
      var before, more := MatchedInAll(q, DataOf(init)), MatchedIn(q, t.data);
      assert MatchedInAll(q, DataOf(stored)) == before + more by {
        assert DataOf(stored)[..|DataOf(stored)| - 1] == DataOf(init);
      }
      OverlappingAppend(q, before, more);
      MarkersAppend(q, show, before, more);
      MarkersAppend(q, show, Overlapping(q, before), Overlapping(q, more));
      var found := Retrieved(q, init);
      if IsRetrieved(q, t) {
        assert Retrieved(q, stored) == found + [t.data];
        assert (found + [t.data])[..|found|] == found;
        MarkersAppend(q, show, MatchedInAll(q, found), more);
        OverlappingIsPart(q, show, more);
      } else {
        assert Retrieved(q, stored) == found + [] == found;
        UnretrievedDoNotOverlap(q, t);
        assert Overlapping(q, before) + [] == Overlapping(q, before);
      }
    }
  }

  /** Some span of the request ends after the window begins, and some span begins before it ends. */
  ghost predicate Touches(q: Query, request: Request) {
    var spans := SpansOf(request);
    && (exists i :: 0 <= i < |spans| && spans[i].end > q.startMs * 1000000)
    && (exists i :: 0 <= i < |spans| && spans[i].start < q.endMs * 1000000)
  }

  /** The index decides this exactly. */
  lemma RetrievedIffTouches(q: Query, t: RawTrace)
    requires IsIndexed(t)
    ensures IsRetrieved(q, t) <==> Touches(q, t.data)
  {
    var spans := SpansOf(t.data);
    if IsRetrieved(q, t) {
      var i :| 0 <= i < |spans| && spans[i].start == t.minTime;
      var j :| 0 <= j < |spans| && spans[j].end == t.maxTime;
      assert spans[j].end > q.startMs * 1000000 && spans[i].start < q.endMs * 1000000;
    }
  }

  ghost function Touching(q: Query, requests: seq<Request>): seq<Request> {
    if requests == [] then []
    else
      var r := requests[|requests| - 1];
      Touching(q, requests[..|requests| - 1]) + if Touches(q, r) then [r] else []
  }

  lemma {:induction false} RetrievedAreTouching(q: Query, stored: seq<RawTrace>)
    requires forall i :: 0 <= i < |stored| ==> IsIndexed(stored[i])
    ensures Retrieved(q, stored) == Touching(q, DataOf(stored))
  {
    hide IsIndexed, IsRetrieved, Touches;
    if stored != [] {
      var init := stored[..|stored| - 1];
      RetrievedAreTouching(q, init);
      RetrievedIffTouches(q, stored[|stored| - 1]);
      assert DataOf(stored)[..|DataOf(stored)| - 1] == DataOf(init);
    }
  }

  /**
   The query on stored traces.  The profile shows exactly the matching spans of the retrieved
   requests.  When the traces were indexed by `export`, these are the requests that touch the
   window; among the spans shown is every matching one that overlaps the window itself.
   */
  method Profile(q: Query, show: Group -> string, stored: seq<RawTrace>, sort: set<Group> -> seq<Group>)
    returns (strings: seq<string>, markers: RawMarkerTable)
    requires forall s :: AreDistinct(sort(s)) && forall g :: g in sort(s) <==> g in s
    ensures markers.Valid(strings)
    ensures multiset(markers.Markers(strings)) == MarkersOf(q, show, MatchedInAll(q, Retrieved(q, stored)))
    ensures (forall i :: 0 <= i < |stored| ==> IsIndexed(stored[i])) ==>
      var all := MatchedInAll(q, DataOf(stored));
      && multiset(markers.Markers(strings)) == MarkersOf(q, show, MatchedInAll(q, Touching(q, DataOf(stored))))
      && MarkersOf(q, show, Overlapping(q, all)) <= multiset(markers.Markers(strings)) <= MarkersOf(q, show, all)
  {
    hide MarkersOf, Overlapping, MatchedInAll, IsIndexed, Touching;
    strings, markers := ProfileOf(q, show, Retrieved(q, stored), sort);
    if forall i :: 0 <= i < |stored| ==> IsIndexed(stored[i]) {
      RetrievalLosesNothing(q, show, stored);
      RetrievedAreTouching(q, stored);
    }
  }
}
