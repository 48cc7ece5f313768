/**
 * The object records of the runtime, held in an arena.
 *
 * Every ProtoObject is an `Obj` value stored under an integer handle
 * (`ObjId`); the class, superclass and metaclass links are handles, so the
 * cyclic class <-> metaclass <-> superclass graph is a plain map.
 */
module Objects {

  datatype Option<T> = None | Some(value: T)

  /** The exceptions the runtime throws, one constructor per failure path. */
  datatype Error =
    | NullPointer                         // a null class or superclass is dereferenced
    | DoesNotUnderstand(selector: string) // the superclass chain has no method for the selector
    | ClassNotFound(name: string)         // primitiveResolveObject found nothing
    | DuplicatePending(name: string)      // a method key was registered for compilation twice
    | MissingPending(name: string)        // compiling a key that is not pending
    | CompileFailed(name: string)         // the bytecode compiler or class loader failed
    | EmptyStack                          // peek or pop on a created but empty package stack
    | StackOverflow                       // unbounded recursion exhausted the call stack

  datatype Result<T> = Ok(value: T) | Err(error: Error)

  datatype Outcome = Pass | Fail(error: Error)

  /** Handle of an object in the arena. */
  type ObjId = nat

  type Selector = string

  /** A compiled, invocable method (a ProtoMethod instance). */
  datatype ProtoMethod = ProtoMethod(handle: nat)

  /** A parsed method waiting to be compiled (an AbstractMethod tree). */
  datatype AbstractMethod = AbstractMethod(handle: nat)

  /**
   * One object record. `isClass` is the mode fixed at construction; the
   * superclass and the method dictionary matter for class-mode records, the
   * literal `javaValue` for instance-mode ones.
   */
  datatype Obj = Obj(
    isClass: bool,
    cls: Option<ObjId>,
    superclass: Option<ObjId>,
    methods: map<Selector, ProtoMethod>,
    javaValue: Option<string>)
  {
    /** The dictionary entry for `selector`, None when there is none. */
    function MethodAt(selector: Selector): Option<ProtoMethod> {
      if selector in methods then Some(methods[selector]) else None
    }
  }

  type Heap = map<ObjId, Obj>

  /**
   * The superclass graph is acyclic: every superclass link points to a record
   * in the arena of strictly smaller rank.
   */
  ghost predicate Ranked(heap: Heap, rank: map<ObjId, nat>) {
    heap.Keys <= rank.Keys &&
    forall o | o in heap ::
      (heap[o].superclass.Some? ==>
        heap[o].superclass.value in heap && rank[heap[o].superclass.value] < rank[o])
  }

  /** Every class link points to a record in the arena. */
  ghost predicate ClsClosed(heap: Heap) {
    forall o | o in heap :: heap[o].cls.Some? ==> heap[o].cls.value in heap
  }

  /** No record in the arena has `c` as its superclass. */
  ghost predicate IsLeaf(heap: Heap, c: ObjId) {
    forall o | o in heap :: heap[o].superclass != Some(c)
  }

  /** A second update of the same record replaces the first. */
  lemma UpdateTwice(heap: Heap, o: ObjId, first: Obj, second: Obj)
    ensures heap[o := first][o := second] == heap[o := second]
  {
  }

  /** The arena after `selector` is bound to `m` in the dictionary of `c`. */
  function Install(heap: Heap, c: ObjId, selector: Selector, m: ProtoMethod): Heap
    requires c in heap
  {
    heap[c := heap[c].(methods := heap[c].methods[selector := m])]
  }
}
