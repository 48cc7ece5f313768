/**
 * Method lookup through the superclass chain, as specification functions
 * over the arena, and the properties of that lookup.
 */
module Dispatch {
  import opened Objects

  /** A method found by lookup, with the class whose dictionary holds it. */
  datatype Found = Found(meth: ProtoMethod, foundIn: ObjId)

  /** A method invocation: what the dispatcher hands to `applyTo`. */
  datatype Invocation = Invocation(meth: ProtoMethod, receiver: ObjId, foundIn: ObjId, args: seq<ObjId>)

  /** The superclass chain of `c`: c, its superclass, ..., up to the root. */
  ghost function Chain(heap: Heap, rank: map<ObjId, nat>, c: ObjId): (ch: seq<ObjId>)
    requires Ranked(heap, rank) && c in heap
    ensures |ch| >= 1 && ch[0] == c
    ensures forall i | 0 <= i < |ch| :: ch[i] in heap
    ensures forall i | 0 <= i < |ch| - 1 :: heap[ch[i]].superclass == Some(ch[i + 1])
    ensures heap[ch[|ch| - 1]].superclass.None?
    decreases rank[c]
  {
    match heap[c].superclass
    case None => [c]
    case Some(s) => [c] + Chain(heap, rank, s)
  }

  /**
   * Lookup from class `c` upward: the first dictionary on the chain that has
   * `selector`, with the method it holds.
   */
  ghost function Lookup(heap: Heap, rank: map<ObjId, nat>, c: ObjId, selector: Selector): (r: Option<Found>)
    requires Ranked(heap, rank) && c in heap
    ensures r.Some? ==>
      r.value.foundIn in heap && selector in heap[r.value.foundIn].methods &&
      r.value.meth == heap[r.value.foundIn].methods[selector]
    decreases rank[c]
  {
    if selector in heap[c].methods then Some(Found(heap[c].methods[selector], c))
    else match heap[c].superclass
      case None => None
      case Some(s) => Lookup(heap, rank, s, selector)
  }

  /**
   * A send of `selector` to `receiver`: the receiver's class dictionary
   * first, then lookup from that class's superclass. A receiver without a
   * class, and a root class that lacks the selector, dereference null.
   */
  ghost function Send(heap: Heap, rank: map<ObjId, nat>, receiver: ObjId, selector: Selector, args: seq<ObjId>): (r: Result<Invocation>)
    requires Ranked(heap, rank) && ClsClosed(heap) && receiver in heap
    ensures r.Ok? ==>
      r.value.receiver == receiver && r.value.args == args &&
      r.value.foundIn in heap && selector in heap[r.value.foundIn].methods &&
      r.value.meth == heap[r.value.foundIn].methods[selector]
    ensures r.Err? ==> r.error == NullPointer || r.error == DoesNotUnderstand(selector)
  {
    match heap[receiver].cls
    case None => Err(NullPointer)
    case Some(c) =>
      if selector in heap[c].methods then Ok(Invocation(heap[c].methods[selector], receiver, c, args))
      else match heap[c].superclass
        case None => Err(NullPointer)
        case Some(s) =>
          match Lookup(heap, rank, s, selector)
          case None => Err(DoesNotUnderstand(selector))
          case Some(f) => Ok(Invocation(f.meth, receiver, f.foundIn, args))
  }

  /**
   * The class at index `k` of chain `ch` is the first whose dictionary holds
   * `selector`.
   */
  ghost predicate FirstHolderAt(heap: Heap, ch: seq<ObjId>, selector: Selector, k: int)
    requires forall i | 0 <= i < |ch| :: ch[i] in heap
  {
    0 <= k < |ch| && selector in heap[ch[k]].methods &&
    forall i | 0 <= i < k :: selector !in heap[ch[i]].methods
  }

  /**
   * Lookup finds the FIRST class of the chain whose dictionary holds the
   * selector, and fails only when no class of the chain holds it.
   */
  lemma {:induction false} LookupIsFirstInChain(heap: Heap, rank: map<ObjId, nat>, c: ObjId, selector: Selector)
    requires Ranked(heap, rank) && c in heap
    ensures Lookup(heap, rank, c, selector).None? ==>
      forall i | 0 <= i < |Chain(heap, rank, c)| :: selector !in heap[Chain(heap, rank, c)[i]].methods
    ensures Lookup(heap, rank, c, selector).Some? ==>
      exists k :: FirstHolderAt(heap, Chain(heap, rank, c), selector, k) &&
        Chain(heap, rank, c)[k] == Lookup(heap, rank, c, selector).value.foundIn
    decreases rank[c]
  {
    var ch := Chain(heap, rank, c);
    if selector in heap[c].methods {
      assert FirstHolderAt(heap, ch, selector, 0);
    } else {
      match heap[c].superclass
      case None =>
        assert ch == [c];
      case Some(s) =>
        LookupIsFirstInChain(heap, rank, s, selector);
        var tail := Chain(heap, rank, s);
        assert ch == [c] + tail;
        if Lookup(heap, rank, s, selector).Some? {
          var k :| FirstHolderAt(heap, tail, selector, k) && tail[k] == Lookup(heap, rank, s, selector).value.foundIn;
          assert ch[k + 1] == tail[k];
          forall i | 0 <= i < k + 1 ensures selector !in heap[ch[i]].methods {
            if i > 0 { assert ch[i] == tail[i - 1]; }
          }
          assert FirstHolderAt(heap, ch, selector, k + 1);
        } else {
          forall i | 0 <= i < |ch| ensures selector !in heap[ch[i]].methods {
            if i > 0 { assert ch[i] == tail[i - 1]; }
          }
        }
    }
  }

  /** Lookup fails exactly when no class of the chain holds the selector. */
  lemma LookupFailsIffChainLacks(heap: Heap, rank: map<ObjId, nat>, c: ObjId, selector: Selector)
    requires Ranked(heap, rank) && c in heap
    ensures var ch := Chain(heap, rank, c);
      Lookup(heap, rank, c, selector).None? <==> forall i | 0 <= i < |ch| :: selector !in heap[ch[i]].methods
  {
    LookupIsFirstInChain(heap, rank, c, selector);
  }

  /**
   * The two-phase send (own class, then from its superclass) is lookup from
   * the receiver's class, as long as no null superclass is dereferenced.
   */
  lemma SendIsLookupFromClass(heap: Heap, rank: map<ObjId, nat>, receiver: ObjId, selector: Selector, args: seq<ObjId>)
    requires Ranked(heap, rank) && ClsClosed(heap) && receiver in heap
    requires heap[receiver].cls.Some?
    requires var c := heap[receiver].cls.value;
      selector in heap[c].methods || heap[c].superclass.Some?
    ensures var c := heap[receiver].cls.value;
      Send(heap, rank, receiver, selector, args) ==
        match Lookup(heap, rank, c, selector)
        case None => Err(DoesNotUnderstand(selector))
        case Some(f) => Ok(Invocation(f.meth, receiver, f.foundIn, args))
  {
  }

  /**
   * Installing a method is visible at once: every object whose class is `c`
   * dispatches `selector` to the new method, found in `c`.
   */
  lemma InstallIsVisible(heap: Heap, rank: map<ObjId, nat>, c: ObjId, selector: Selector, m: ProtoMethod, x: ObjId, args: seq<ObjId>)
    requires Ranked(heap, rank) && ClsClosed(heap) && c in heap && x in heap
    requires heap[x].cls == Some(c)
    ensures Ranked(Install(heap, c, selector, m), rank) && ClsClosed(Install(heap, c, selector, m))
    ensures Send(Install(heap, c, selector, m), rank, x, selector, args) == Ok(Invocation(m, x, c, args))
  {
  }

  /** Installing a method changes no lookup of any other selector, from any class. */
  lemma {:induction false} InstallKeepsOtherSelectors(heap: Heap, rank: map<ObjId, nat>, c: ObjId, selector: Selector, m: ProtoMethod, d: ObjId, other: Selector)
    requires Ranked(heap, rank) && ClsClosed(heap) && c in heap && d in heap
    requires other != selector
    ensures Ranked(Install(heap, c, selector, m), rank)
    ensures Lookup(Install(heap, c, selector, m), rank, d, other) == Lookup(heap, rank, d, other)
    decreases rank[d]
  {
    var h := Install(heap, c, selector, m);
    assert h[d].superclass == heap[d].superclass;
    assert (other in h[d].methods) == (other in heap[d].methods);
    if other !in heap[d].methods && heap[d].superclass.Some? {
      InstallKeepsOtherSelectors(heap, rank, c, selector, m, heap[d].superclass.value, other);
    }
  }

  /**
   * Lookup from a class depends only on the records on its chain: an arena
   * that keeps every existing record (and rank) and adds new ones answers
   * every old lookup the same way.
   */
  lemma {:induction false} ExtensionKeepsLookup(heap: Heap, rank: map<ObjId, nat>, heap': Heap, rank': map<ObjId, nat>, d: ObjId, selector: Selector)
    requires Ranked(heap, rank) && Ranked(heap', rank') && d in heap
    requires forall o | o in heap :: o in heap' && heap'[o] == heap[o]
    ensures Lookup(heap', rank', d, selector) == Lookup(heap, rank, d, selector)
    decreases rank[d]
  {
    assert heap'[d] == heap[d];
    if selector !in heap[d].methods && heap[d].superclass.Some? {
      ExtensionKeepsLookup(heap, rank, heap', rank', heap[d].superclass.value, selector);
    }
  }

  /** A fresh subclass with an empty dictionary answers every lookup as its superclass does. */
  lemma FreshSubclassInherits(heap: Heap, rank: map<ObjId, nat>, c: ObjId, selector: Selector)
    requires Ranked(heap, rank) && c in heap
    requires heap[c].methods == map[] && heap[c].superclass.Some?
    ensures Lookup(heap, rank, c, selector) == Lookup(heap, rank, heap[c].superclass.value, selector)
  {
  }
}
