/** `Peekable2` (src/parser.rs): an iterator with a lookahead buffer of up to two items. The
    underlying iterator is a vector's `into_iter`, modelled by the sequence it has left to
    yield; once exhausted it keeps yielding `None`. */
module Lookahead {
  import opened Base

  /** `Peeked2`: the items already pulled from the iterator but not yet handed out. A buffered
      `None` records that the iterator was found exhausted. */
  datatype Peeked2<T> = Empty | One(first: Option<T>) | Two(first: Option<T>, second: Option<T>)

  /** The first item of a stream, if any. */
  function Head<T>(items: seq<T>): (r: Option<T>)
    ensures r.Some? <==> items != []
    ensures items != [] ==> r.value == items[0]
  {
    if items == [] then None else Some(items[0])
  }

  /** A stream after one item has been taken from it; an empty stream stays empty. */
  function Tail<T>(items: seq<T>): (r: seq<T>)
    ensures items != [] ==> r == items[1..]
    ensures items == [] ==> r == []
  {
    if items == [] then [] else items[1..]
  }

  /** The items an optional buffered item contributes. */
  function Items<T>(o: Option<T>): seq<T> {
    if o.Some? then [o.value] else []
  }

  class Peekable2<T> {
    /** What the underlying iterator has left to yield. */
    var iter: seq<T>
    var peeked: Peeked2<T>

    /** A buffered `None` is only ever followed by nothing: the iterator is fused. */
    ghost predicate Valid()
      reads this
    {
      match peeked
      case Empty => true
      case One(a) => a.None? ==> iter == []
      case Two(a, b) => (a.None? ==> b.None?) && (b.None? ==> iter == [])
    }

    /** The stream as the parser sees it: the buffered items, then the iterator's. */
    function Stream(): seq<T>
      reads this
    {
      match peeked
      case Empty => iter
      case One(a) => Items(a) + iter
      case Two(a, b) => Items(a) + Items(b) + iter
    }

    /** `Peekable2::new`: nothing buffered. */
    constructor(items: seq<T>)
      ensures Valid() && Stream() == items
    {
      iter := items;
      peeked := Empty;
    }

    /** `Iterator::next` on the underlying vector iterator. */
    method Pull() returns (r: Option<T>)
      modifies this
      ensures peeked == old(peeked)
      ensures r == Head(old(iter)) && iter == Tail(old(iter))
    {
      if iter == [] {
        r := None;
      } else {
        r := Some(iter[0]);
        iter := iter[1..];
      }
    }

    /** `next`: hands out the first buffered item, or pulls one. */
    method Next() returns (r: Option<T>)
      requires Valid()
      modifies this
      ensures Valid()
      ensures r == Head(old(Stream())) && Stream() == Tail(old(Stream()))
    {
      match peeked
      case Empty =>
        r := Pull();
      case One(a) =>
        peeked := Empty;
        r := a;
      case Two(a, b) =>
        peeked := One(b);
        r := a;
    }

    /** `first`: the next item, buffering it if need be; nothing is consumed. */
    method First() returns (r: Option<T>)
      requires Valid()
      modifies this
      ensures Valid()
      ensures r == Head(old(Stream())) && Stream() == old(Stream())
    {
      if peeked.Empty? {
        var a := Pull();
        peeked := One(a);
      }
      r := peeked.first;
    }

    /** `second`: the item after the next one, buffering both; nothing is consumed. */
    method Second() returns (r: Option<T>)
      requires Valid()
      modifies this
      ensures Valid()
      ensures r == Head(Tail(old(Stream()))) && Stream() == old(Stream())
    {
      match peeked {
        case Empty =>
          var a := Pull();
          var b := Pull();
          peeked := Two(a, b);
        case One(a) =>
          var b := Pull();
          peeked := Two(a, b);
        case Two(_, _) =>
      }
      r := peeked.second;
    }

    /** `next_if`: consumes the next item exactly when there is one and `accept` holds
        of it; otherwise returns `None` and leaves the stream as it was. */
    method NextIf(accept: T -> bool) returns (r: Option<T>)
      requires Valid()
      modifies this
      ensures Valid()
      ensures old(Stream()) != [] && accept(old(Stream())[0]) ==> r == Some(old(Stream())[0]) && Stream() == old(Stream())[1..]
      ensures !(old(Stream()) != [] && accept(old(Stream())[0])) ==> r == None && Stream() == old(Stream())
    {
      var a := First();
      if a.None? {
        return None;
      }
      if accept(a.value) {
        r := Next();
      } else {
        r := None;
      }
    }
  }
}
