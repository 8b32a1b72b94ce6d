/**
 * The post-processing of an Overpass answer in `getPlaces` (src/App.js):
 * keep the elements whose tags carry a name, describe each one by its name
 * and its kind, and keep the first five.
 */
module Places {
  import opened JsText

  /** The tags of an element; an absent tag is `None`. */
  datatype Tags = Tags(name: Option<string>, tourism: Option<string>, historic: Option<string>)

  /** An element of the answer, which may have no tags at all. */
  datatype Element = Element(tags: Option<Tags>)

  /** A place as the response shows it: its name and its type. */
  datatype PlaceInfo = PlaceInfo(name: string, kind: string)

  /** The most places a response lists. */
  const Limit: nat := 5

  /** A string tag in a JavaScript condition: present and not the empty string. */
  predicate Truthy(v: Option<string>) {
    v.Some? && v.value != []
  }

  /** `el.tags && el.tags.name`. */
  predicate HasName(e: Element) {
    e.tags.Some? && Truthy(e.tags.value.name)
  }

  /** `tourism || historic || 'attraction'`: the first tag that is set and not empty. */
  function KindOf(t: Tags): (k: string)
    ensures k != []
    ensures Truthy(t.tourism) ==> k == t.tourism.value
    ensures !Truthy(t.tourism) && Truthy(t.historic) ==> k == t.historic.value
    ensures !Truthy(t.tourism) && !Truthy(t.historic) ==> k == "attraction"
  {
    if Truthy(t.tourism) then t.tourism.value
    else if Truthy(t.historic) then t.historic.value
    else "attraction"
  }

  function Describe(e: Element): (p: PlaceInfo)
    requires HasName(e)
    ensures p.name == e.tags.value.name.value && p.name != [] && p.kind != []
  {
    PlaceInfo(e.tags.value.name.value, KindOf(e.tags.value))
  }

  /** `filter`: the named elements, in their order. */
  function Named(es: seq<Element>): (r: seq<Element>)
    ensures |r| <= |es|
    ensures forall k :: 0 <= k < |r| ==> HasName(r[k])
  {
    if es == [] then []
    else if HasName(es[0]) then [es[0]] + Named(es[1..])
    else Named(es[1..])
  }

  /** `map`: each named element described. */
  function DescribeAll(es: seq<Element>): (r: seq<PlaceInfo>)
    requires forall k :: 0 <= k < |es| ==> HasName(es[k])
    ensures |r| == |es|
    ensures forall k :: 0 <= k < |r| ==> r[k] == Describe(es[k])
  {
    if es == [] then [] else [Describe(es[0])] + DescribeAll(es[1..])
  }

  function Min(a: nat, b: nat): nat {
    if a <= b then a else b
  }

  /** The list `getPlaces` returns for the elements of an answer. */
  function TopPlaces(es: seq<Element>): (r: seq<PlaceInfo>)
    ensures |r| == Min(Limit, |Named(es)|)
    ensures forall k :: 0 <= k < |r| ==> r[k] == Describe(Named(es)[k])
  {
    var all := DescribeAll(Named(es));
    all[..Min(Limit, |all|)]
  }

  /** `xs` is `ys` with some elements left out and the rest in order. */
  predicate Subsequence<T(==)>(xs: seq<T>, ys: seq<T>)
    decreases |ys|
  {
    xs == [] || (ys != [] && ((xs[0] == ys[0] && Subsequence(xs[1..], ys[1..])) || Subsequence(xs, ys[1..])))
  }

  /** The filter keeps the order of the elements it keeps. */
  lemma {:induction false} NamedIsSubsequence(es: seq<Element>)
    ensures Subsequence(Named(es), es)
  {
    if es != [] {
      NamedIsSubsequence(es[1..]);
      if HasName(es[0]) {
        assert Named(es)[1..] == Named(es[1..]);
      }
    }
  }

  /** An element is kept exactly when it is in the answer and has a name. */
  lemma {:induction false} NamedMembers(es: seq<Element>, e: Element)
    ensures e in Named(es) <==> e in es && HasName(e)
  {
    if es != [] {
      NamedMembers(es[1..], e);
      assert es == [es[0]] + es[1..];
    }
  }

  /** Filtering a concatenation filters each part. */
  lemma {:induction false} NamedAppend(a: seq<Element>, b: seq<Element>)
    ensures Named(a + b) == Named(a) + Named(b)
  {
    if a == [] {
      assert a + b == b;
    } else {
      assert (a + b)[1..] == a[1..] + b;
      NamedAppend(a[1..], b);
    }
  }

  /** Once the first part of an answer has five named elements, the rest does not matter. */
  lemma LaterElementsIgnored(a: seq<Element>, b: seq<Element>)
    requires |Named(a)| >= Limit
    ensures TopPlaces(a + b) == TopPlaces(a)
  {
    NamedAppend(a, b);
    var r, t := TopPlaces(a + b), TopPlaces(a);
    assert |r| == |t|;
    forall k | 0 <= k < |r| ensures r[k] == t[k] {
      assert Named(a + b)[k] == Named(a)[k];
    }
  }

  /** When every element has a name, the filter keeps them all. */
  lemma {:induction false} AllNamedKept(es: seq<Element>)
    requires forall k :: 0 <= k < |es| ==> HasName(es[k])
    ensures Named(es) == es
  {
    if es != [] {
      AllNamedKept(es[1..]);
    }
  }
}
