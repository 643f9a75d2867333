/** Elements the browser code looks up by id and builds when the lookup comes
    back empty (app/static/js/main.js:8-86 for the index-stocks modal,
    327-375, 392-415, 432-455 and 472-518 for the four sections). The document
    is abstracted to the map from those ids to the nodes carrying them. */
module Registry {
  type NodeId = nat

  /** `ids` maps each id present in the document to its node; `next` is the
      node the next created element gets. */
  datatype Registry = Registry(ids: map<string, NodeId>, next: NodeId) {
    /** Node numbers are below `next` and no two ids share one. */
    predicate Valid() {
      && (forall id :: id in ids ==> ids[id] < next)
      && (forall a, b :: a in ids && b in ids && ids[a] == ids[b] ==> a == b)
    }
  }

  /** A document holding none of the lazily built elements. */
  const Empty := Registry(map[], 0)

  datatype Lookup = Lookup(registry: Registry, node: NodeId, created: bool)

  /** `document.getElementById(id)`, building and appending the element when
      the lookup finds nothing. */
  function GetOrCreate(r: Registry, id: string): (l: Lookup)
    requires r.Valid()
    ensures l.registry.Valid()
    ensures id in l.registry.ids && l.registry.ids[id] == l.node
    ensures l.created <==> id !in r.ids
    ensures !l.created ==> l.registry == r
    ensures l.created ==> l.registry.ids == r.ids[id := l.node]
    ensures l.created ==> forall other :: other in r.ids ==> r.ids[other] != l.node
    ensures forall other :: other in r.ids ==> other in l.registry.ids && l.registry.ids[other] == r.ids[other]
  {
    if id in r.ids then Lookup(r, r.ids[id], false)
    else Lookup(Registry(r.ids[id := r.next], r.next + 1), r.next, true)
  }

  /** A second lookup of the same id builds nothing and returns the same node. */
  lemma GetOrCreateReuses(r: Registry, id: string)
    requires r.Valid()
    ensures var first := GetOrCreate(r, id);
      var second := GetOrCreate(first.registry, id);
      && !second.created && second.node == first.node && second.registry == first.registry
  {
  }

  /** The lookups for a sequence of ids, in order: the final registry and,
      for each request, whether it built the element. */
  function LookupAll(r: Registry, requests: seq<string>): (res: (Registry, seq<bool>))
    requires r.Valid()
    ensures res.0.Valid() && |res.1| == |requests|
    ensures forall id :: id in r.ids ==> id in res.0.ids && res.0.ids[id] == r.ids[id]
    ensures forall i :: 0 <= i < |requests| ==> requests[i] in res.0.ids
    decreases |requests|
  {
    if |requests| == 0 then (r, [])
    else
      var l := GetOrCreate(r, requests[0]);
      var rest := LookupAll(l.registry, requests[1..]);
      assert forall i :: 1 <= i < |requests| ==> requests[i] == requests[1..][i - 1];
      (rest.0, [l.created] + rest.1)
  }

  /** Each id is built at most once over any sequence of lookups: a request
      repeating an earlier one never builds. */
  lemma {:induction false} BuiltAtMostOnce(r: Registry, requests: seq<string>, i: nat, j: nat)
    requires r.Valid()
    requires i < j < |requests| && requests[i] == requests[j]
    ensures !LookupAll(r, requests).1[j]
    decreases j
  {
    var l := GetOrCreate(r, requests[0]);
    var tail := requests[1..];
    var rest := LookupAll(l.registry, tail);
    assert LookupAll(r, requests).1 == [l.created] + rest.1;
    assert LookupAll(r, requests).1[j] == rest.1[j - 1];
    assert tail[j - 1] == requests[j];
    if i == 0 {
      AlreadyPresent(l.registry, tail, j - 1);
    } else {
      BuiltAtMostOnce(l.registry, tail, i - 1, j - 1);
    }
  }

  /** An id already present is never built again. */
  lemma {:induction false} AlreadyPresent(r: Registry, requests: seq<string>, k: nat)
    requires r.Valid() && k < |requests| && requests[k] in r.ids
    ensures !LookupAll(r, requests).1[k]
    decreases k
  {
    var l := GetOrCreate(r, requests[0]);
    if k > 0 {
      AlreadyPresent(l.registry, requests[1..], k - 1);
    }
  }
}
