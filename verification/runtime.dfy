/**
 * The runtime's global state and its primitives: the object arena, the
 * class registry, the table of methods waiting to be compiled, the package
 * stack and the package map, with the operations that update them.
 *
 * The class loader, the bytecode compiler and the per-class package tables
 * are collaborators outside this model; they are given to the runtime as
 * functions when it is created. `stackDepth` is the depth of the call stack:
 * a recursion deeper than that overflows it.
 */
module Core {
  import opened Objects
  import Packages
  import Dispatch

  /** Loading a unit by bare name: None when it cannot be loaded, else the names it registers. */
  type Loader = string -> Option<map<string, ObjId>>

  /** The bytecode compiler: (parsed method, "Class$selector", package, argument count) to a method. */
  type Compiler = (AbstractMethod, string, string, int) -> Option<ProtoMethod>

  /** The package table of a class-mode object: bare name to fully qualified name. */
  type PackageTable = (ObjId, string) -> Option<string>

  /** The outcome of a resolution, with the registry it leaves behind. */
  datatype Resolved<T> = Resolved(result: Result<T>, registry: map<string, ObjId>)

  /** The outcome of an operation that allocates, with the arena and the registry it leaves behind. */
  datatype Made = Made(result: Result<ObjId>, heap: Heap, registry: map<string, ObjId>)

  /** Every name of the registry is bound to a record of the arena. */
  ghost predicate NamesRecords(reg: map<string, ObjId>, h: Heap) {
    forall n | n in reg :: reg[n] in h
  }

  class Runtime {
    var heap: Heap
    var next: ObjId
    ghost var rank: map<ObjId, nat>
    var registry: map<string, ObjId>
    var pending: map<string, AbstractMethod>
    var packageStack: Packages.Stack
    /** Bare name to fully qualified name; nothing in the runtime writes it. */
    const packageMap: map<string, string>

    const loader: Loader
    const compiler: Compiler
    const classPackages: PackageTable
    const stackDepth: nat

    ghost predicate Valid()
      reads this
    {
      Ranked(heap, rank) && ClsClosed(heap) &&
      (forall o | o in heap :: o < next) &&
      NamesRecords(registry, heap)
    }

    constructor (packageMap: map<string, string>, loader: Loader, compiler: Compiler,
                 classPackages: PackageTable, stackDepth: nat)
      ensures Valid()
      ensures heap == map[] && registry == map[] && pending == map[] && packageStack == None
      ensures this.packageMap == packageMap && this.loader == loader && this.compiler == compiler
      ensures this.classPackages == classPackages && this.stackDepth == stackDepth
    {
      heap, next, rank := map[], 0, map[];
      registry, pending, packageStack := map[], map[], None;
      this.packageMap := packageMap;
      this.loader, this.compiler, this.classPackages, this.stackDepth := loader, compiler, classPackages, stackDepth;
    }

    // ---------------------------------------------------------------------
    // The object store: allocation and the field setters.

    /** `new ProtoObject(isClass)`: a fresh record with no links, dictionary or literal. */
    method NewObject(isClass: bool) returns (id: ObjId)
      requires Valid()
      modifies this
      ensures Valid()
      ensures id !in old(heap) && heap == old(heap)[id := Obj(isClass, None, None, map[], None)]
      ensures id == old(next) && next == old(next) + 1
      ensures IsLeaf(heap, id)
      ensures registry == old(registry) && pending == old(pending)
      ensures packageStack == old(packageStack)
    {
      id := next;
      heap := heap[id := Obj(isClass, None, None, map[], None)];
      rank := rank[id := 0];
      next := next + 1;
    }

    /** `cls(c)`: set the class link of `o`. */
    method SetCls(o: ObjId, c: Option<ObjId>)
      requires Valid() && o in heap
      requires c.Some? ==> c.value in heap
      modifies this
      ensures Valid()
      ensures heap == old(heap)[o := old(heap)[o].(cls := c)]
      ensures next == old(next) && registry == old(registry) && pending == old(pending)
      ensures packageStack == old(packageStack)
    {
      heap := heap[o := heap[o].(cls := c)];
    }

    /**
     * `superclass(s)`: set the superclass link of `o` to a record other than
     * itself. The link may not close a cycle: either `o` is not yet the
     * superclass of anything, or the new superclass already sits below `o`.
     */
    method SetSuperclass(o: ObjId, s: Option<ObjId>)
      requires Valid() && o in heap
      requires s.Some? ==> s.value in heap && s.value != o
      requires IsLeaf(heap, o) || s.None? || rank[s.value] < rank[o]
      modifies this
      ensures Valid()
      ensures heap == old(heap)[o := old(heap)[o].(superclass := s)]
      ensures next == old(next) && registry == old(registry) && pending == old(pending)
      ensures packageStack == old(packageStack)
    {
      heap := heap[o := heap[o].(superclass := s)];
      if s.Some? && rank[o] <= rank[s.value] {
        rank := rank[o := rank[s.value] + 1];
      }
    }

    /** `javaValue(v)`: set the literal of `o`. */
    method SetJavaValue(o: ObjId, v: string)
      requires Valid() && o in heap
      modifies this
      ensures Valid()
      ensures heap == old(heap)[o := old(heap)[o].(javaValue := Some(v))]
      ensures next == old(next) && registry == old(registry) && pending == old(pending)
      ensures packageStack == old(packageStack)
    {
      heap := heap[o := heap[o].(javaValue := Some(v))];
    }

    /** `methodAtPut(selector, m)`: bind `selector` to `m`, replacing any earlier binding. */
    method MethodAtPut(o: ObjId, selector: Selector, m: ProtoMethod)
      requires Valid() && o in heap
      modifies this
      ensures Valid()
      ensures heap == Install(old(heap), o, selector, m) && next == old(next)
      ensures heap[o].MethodAt(selector) == Some(m)
      ensures forall other | other != selector :: heap[o].MethodAt(other) == old(heap)[o].MethodAt(other)
      ensures registry == old(registry) && pending == old(pending)
      ensures packageStack == old(packageStack)
    {
      heap := heap[o := heap[o].(methods := heap[o].methods[selector := m])];
    }

    // ---------------------------------------------------------------------
    // The pending-method table and compilation.

    /** Record a parsed method under `name` until it is compiled; a name may be claimed once. */
    method RegisterMethodToBeCompiledAs(m: AbstractMethod, name: string) returns (r: Outcome)
      requires Valid()
      modifies this
      ensures Valid()
      ensures name in old(pending) ==> r == Fail(DuplicatePending(name)) && pending == old(pending)
      ensures name !in old(pending) ==> r == Pass && pending == old(pending)[name := m]
      ensures heap == old(heap) && registry == old(registry)
      ensures packageStack == old(packageStack)
    {
      if name in pending {
        return Fail(DuplicatePending(name));
      }
      pending := pending[name := m];
      r := Pass;
    }

    /**
     * Compile the method pending under `fullMethodName` and install it under
     * `methodName` in the receiver's dictionary. The pending entry is removed
     * before compiling and is not restored when compiling fails.
     */
    method CompileMethod(receiver: ObjId, fullMethodName: string, methodName: Selector,
                         className: string, packageName: string, countOfArguments: int) returns (r: Outcome)
      requires Valid() && receiver in heap
      modifies this
      ensures Valid()
      ensures fullMethodName !in old(pending) ==>
        r == Fail(MissingPending(fullMethodName)) && pending == old(pending) && heap == old(heap)
      ensures fullMethodName in old(pending) ==>
        var compiled := compiler(old(pending)[fullMethodName], className + "$" + methodName, packageName, countOfArguments);
        pending == old(pending) - {fullMethodName} &&
        (compiled.None? ==> r == Fail(CompileFailed(fullMethodName)) && heap == old(heap)) &&
        (compiled.Some? ==> r == Pass && heap == Install(old(heap), receiver, methodName, compiled.value))
      ensures registry == old(registry)
      ensures packageStack == old(packageStack)
    {
      if fullMethodName !in pending {
        return Fail(MissingPending(fullMethodName));
      }
      var methodToBeCompiled := pending[fullMethodName];
      pending := pending - {fullMethodName};
      var compiled := compiler(methodToBeCompiled, className + "$" + methodName, packageName, countOfArguments);
      if compiled.None? {
        return Fail(CompileFailed(fullMethodName));
      }
      MethodAtPut(receiver, methodName, compiled.value);
      r := Pass;
    }

    // ---------------------------------------------------------------------
    // Classes, metaclasses and the registry.

    /**
     * A subclass of `receiver` named `name`. A name already registered yields
     * the registered object and nothing is allocated; otherwise a new class
     * and its metaclass are made. Neither is registered.
     */
    method CreateSubclass(receiver: ObjId, name: Option<string>) returns (r: Result<ObjId>)
      requires Valid() && receiver in heap
      modifies this
      ensures Valid()
      ensures name.Some? && name.value in old(registry) ==>
        r == Ok(old(registry)[name.value]) && heap == old(heap) && registry == old(registry)
      ensures old(next) !in old(heap) && old(next) + 1 !in old(heap)
      ensures !(name.Some? && name.value in old(registry)) ==>
        Made(r, heap, registry) == Subclass(old(heap), old(registry), old(next), receiver)
      ensures !(name.Some? && name.value in old(registry)) && "MetaClass" in old(registry) ==>
        r.Ok? && registry == old(registry)
      ensures pending == old(pending) && packageStack == old(packageStack)
    {
      if name.Some? && name.value in registry {
        return Ok(registry[name.value]);
      }
      r := NewSubclass(receiver);
    }

    /**
     * A fresh class C with superclass `receiver` and a fresh metaclass M:
     * M's class is the class resolved for "MetaClass", M's superclass is the
     * receiver's class, and C's class is M. Both records are allocated before
     * the resolution and stay in the arena when it fails.
     */
    method NewSubclass(receiver: ObjId) returns (r: Result<ObjId>)
      requires Valid() && receiver in heap
      modifies this
      ensures Valid()
      ensures old(next) !in old(heap) && old(next) + 1 !in old(heap)
      ensures Made(r, heap, registry) == Subclass(old(heap), old(registry), old(next), receiver)
      ensures pending == old(pending) && packageStack == old(packageStack)
    {
      var c := CreateClass(receiver);
      ghost var grown := heap;
      assert Subclass(old(heap), old(registry), c, receiver) == Linked(c, Metaclass(grown, registry, next, receiver));
      r := LinkMetaclass(c, receiver);
    }

    /** `createSubclass(aClass, createMetaclass(receiver))`: make a metaclass and make it the class of `c`. */
    method LinkMetaclass(c: ObjId, receiver: ObjId) returns (r: Result<ObjId>)
      requires Valid() && receiver in heap && c in heap
      modifies this
      ensures Valid()
      ensures old(next) !in old(heap)
      ensures Made(r, heap, registry) == Linked(c, Metaclass(old(heap), old(registry), old(next), receiver))
      ensures pending == old(pending) && packageStack == old(packageStack)
    {
      var m := CreateMetaclass(receiver);
      if m.Err? {
        return Err(m.error);
      }
      SetCls(c, Some(m.value));
      r := Ok(c);
    }

    /** A fresh class-mode object whose superclass is `receiver`. */
    method CreateClass(receiver: ObjId) returns (c: ObjId)
      requires Valid() && receiver in heap
      modifies this
      ensures Valid()
      ensures c !in old(heap) && heap == old(heap)[c := Obj(true, None, Some(receiver), map[], None)]
      ensures c == old(next) && next == old(next) + 1
      ensures registry == old(registry) && pending == old(pending)
      ensures packageStack == old(packageStack)
    {
      c := NewObject(true);
      SetSuperclass(c, Some(receiver));
    }

    /**
     * What `primitiveCreateSubclass` leaves for a name it does not find when
     * the fresh handles are `c` and `c + 1`: the class C is allocated first,
     * with the receiver as superclass, then the metaclass; C's class is set
     * only when the metaclass was made.
     */
    ghost function Subclass(h: Heap, reg: map<string, ObjId>, c: ObjId, receiver: ObjId): Made
      requires receiver in h && c !in h && c + 1 !in h
    {
      Linked(c, Metaclass(h[c := Obj(true, None, Some(receiver), map[], None)], reg, c + 1, receiver))
    }

    /** The outcome of making a metaclass, with `c`'s class set to it when it was made. */
    ghost function Linked(c: ObjId, made: Made): Made
      requires c in made.heap
    {
      match made.result
      case Err(_) => made
      case Ok(m) => Made(Ok(c), made.heap[c := made.heap[c].(cls := Some(m))], made.registry)
    }

    /**
     * A new subclass adds exactly two records, the class and its metaclass,
     * and changes no other. The class has the receiver as superclass; it is
     * returned, with the metaclass as its class, exactly when the metaclass
     * was made, and otherwise it has no class. The registry is the one that
     * making the metaclass leaves.
     */
    lemma SubclassLinks(h: Heap, reg: map<string, ObjId>, c: ObjId, receiver: ObjId)
      requires receiver in h && c !in h && c + 1 !in h
      ensures var made := Subclass(h, reg, c, receiver);
        c in made.heap && c + 1 in made.heap &&
        made.heap == h[c := made.heap[c]][c + 1 := made.heap[c + 1]] &&
        made.heap[c].isClass && made.heap[c].superclass == Some(receiver) && made.heap[c].methods == map[] &&
        (made.result.Ok? <==> made.heap[c].cls == Some(c + 1)) &&
        (made.result.Err? ==> made.heap[c].cls.None?) &&
        (made.result.Ok? ==> made.result == Ok(c)) &&
        made.registry == Metaclass(h[c := Obj(true, None, Some(receiver), map[], None)], reg, c + 1, receiver).registry
    {
    }

    /**
     * What `createMetaclass` leaves when the fresh handle is `m`: the record
     * is allocated first, without links, and "MetaClass" is resolved in the
     * arena that holds it. When resolution fails the record stays unlinked;
     * otherwise its class is the resolved class and its superclass the
     * receiver's class.
     */
    ghost function Metaclass(h: Heap, reg: map<string, ObjId>, m: ObjId, receiver: ObjId): (made: Made)
      requires receiver in h && m !in h
      ensures m in made.heap && made.heap == h[m := made.heap[m]]
      ensures made.heap[m].isClass && made.heap[m].methods == map[] && made.heap[m].javaValue == None
      ensures made.result.Ok? ==> made.result == Ok(m) && made.heap[m].cls.Some?
      ensures "MetaClass" in reg ==> made.result.Ok? && made.heap[m].cls == Some(reg["MetaClass"]) && made.registry == reg
    {
      var grown := h[m := Obj(true, None, None, map[], None)];
      var metaClass := PrimitiveResolve(grown, reg, receiver, "MetaClass", stackDepth);
      match metaClass.result
      case Err(e) => Made(Err(e), grown, metaClass.registry)
      case Ok(k) => Made(Ok(m), h[m := Obj(true, Some(k), h[receiver].cls, map[], None)], metaClass.registry)
    }

    /**
     * The links of a new metaclass come from resolving "MetaClass": a
     * failure is passed on and leaves the record unlinked; otherwise its
     * class is the class resolved and its superclass the receiver's class.
     */
    lemma MetaclassLinks(h: Heap, reg: map<string, ObjId>, m: ObjId, receiver: ObjId)
      requires receiver in h && m !in h
      ensures var made := Metaclass(h, reg, m, receiver);
        var metaClass := PrimitiveResolve(h[m := Obj(true, None, None, map[], None)], reg, receiver, "MetaClass", stackDepth);
        made.registry == metaClass.registry &&
        (metaClass.result.Err? ==>
          made.result == Err(metaClass.result.error) && made.heap[m] == Obj(true, None, None, map[], None)) &&
        (metaClass.result.Ok? ==>
          made.result == Ok(m) && made.heap[m] == Obj(true, Some(metaClass.result.value), h[receiver].cls, map[], None))
    {
    }

    /** A fresh class-mode metaclass, as `Metaclass` describes. */
    method CreateMetaclass(receiver: ObjId) returns (r: Result<ObjId>)
      requires Valid() && receiver in heap
      modifies this
      ensures Valid()
      ensures old(next) !in old(heap) && next == old(next) + 1
      ensures Made(r, heap, registry) == Metaclass(old(heap), old(registry), old(next), receiver)
      ensures pending == old(pending) && packageStack == old(packageStack)
    {
      var m := NewObject(true);
      ghost var grown := heap;
      var metaClass := PrimitiveResolveObject(receiver, "MetaClass", stackDepth);
      if metaClass.Err? {
        return Err(metaClass.error);
      }
      var superclass := heap[receiver].cls;
      SetCls(m, Some(metaClass.value));
      SetSuperclass(m, superclass);
      ghost var made := Obj(true, Some(metaClass.value), superclass, map[], None);
      UpdateTwice(grown, m, grown[m].(cls := Some(metaClass.value)), made);
      UpdateTwice(old(heap), m, Obj(true, None, None, map[], None), made);
      r := Ok(m);
    }

    /** Bind `name` to `receiver` in the registry, replacing any earlier binding. */
    method RegisterAs(receiver: ObjId, name: string) returns (r: ObjId)
      requires Valid() && receiver in heap
      modifies this
      ensures Valid()
      ensures r == receiver
      ensures registry == old(registry)[name := receiver]
      ensures forall other | other in old(registry) && other != name :: registry[other] == old(registry)[other]
      ensures heap == old(heap) && pending == old(pending)
      ensures packageStack == old(packageStack)
    {
      registry := registry[name := receiver];
      r := receiver;
    }

    // ---------------------------------------------------------------------
    // Message dispatch.

    /**
     * Search the dictionaries from `start` up the superclass chain. Returns
     * the first method found and the class holding it, or two Nones.
     */
    method MethodFor(start: ObjId, selector: Selector) returns (m: Option<ProtoMethod>, foundIn: Option<ObjId>)
      requires Valid() && start in heap
      ensures Dispatch.Lookup(heap, rank, start, selector).None? ==> m.None? && foundIn.None?
      ensures Dispatch.Lookup(heap, rank, start, selector).Some? ==>
        m == Some(Dispatch.Lookup(heap, rank, start, selector).value.meth) &&
        foundIn == Some(Dispatch.Lookup(heap, rank, start, selector).value.foundIn)
    {
      var superclass := start;
      m := heap[superclass].MethodAt(selector);
      foundIn := Some(superclass);
      while m.None?
        invariant superclass in heap
        invariant m == heap[superclass].MethodAt(selector) && foundIn == Some(superclass)
        invariant Dispatch.Lookup(heap, rank, superclass, selector) == Dispatch.Lookup(heap, rank, start, selector)
        decreases rank[superclass]
      {
        if heap[superclass].superclass.None? {
          foundIn := None;
          return;
        }
        superclass := heap[superclass].superclass.value;
        m := heap[superclass].MethodAt(selector);
        foundIn := Some(superclass);
      }
    }

    /**
     * Send `selector` with `args` to `receiver`: the invocation the receiver's
     * class chain selects, or the error the dispatcher raises.
     */
    method Send(receiver: ObjId, selector: Selector, args: seq<ObjId>) returns (r: Result<Dispatch.Invocation>)
      requires Valid() && receiver in heap
      ensures r == Dispatch.Send(heap, rank, receiver, selector, args)
    {
      var cls := heap[receiver].cls;
      if cls.None? {
        return Err(NullPointer);
      }
      var m := heap[cls.value].MethodAt(selector);
      if m.Some? {
        return Ok(Dispatch.Invocation(m.value, receiver, cls.value, args));
      }
      var superclass := heap[cls.value].superclass;
      if superclass.None? {
        return Err(NullPointer);
      }
      var foundIn;
      m, foundIn := MethodFor(superclass.value, selector);
      if m.Some? {
        return Ok(Dispatch.Invocation(m.value, receiver, foundIn.value, args));
      }
      r := Err(DoesNotUnderstand(selector));
    }

    // ---------------------------------------------------------------------
    // The package stack.

    /** The current package: the top of the stack, "" before any push. */
    method PackageRegistryCurrent() returns (r: Result<string>)
      ensures r == Packages.Current(packageStack)
    {
      if packageStack.None? {
        return Ok("");
      }
      var stack := packageStack.value;
      if stack == [] {
        return Err(EmptyStack);
      }
      r := Ok(stack[|stack| - 1]);
    }

    /** Push `packageName` in dotted form, creating the stack on first use. */
    method PushPackage(packageName: string)
      modifies this
      ensures packageStack == Packages.Push(old(packageStack), packageName)
      ensures heap == old(heap) && next == old(next) && rank == old(rank)
      ensures registry == old(registry) && pending == old(pending)
    {
      var stack := if packageStack.None? then [] else packageStack.value;
      packageStack := Some(stack + [Packages.Normalize(packageName)]);
    }

    /** Pop the current package; without a stack this does nothing. */
    method PackageRegistryRemove() returns (r: Outcome)
      modifies this
      ensures Packages.Pop(old(packageStack)).Err? ==>
        r == Fail(Packages.Pop(old(packageStack)).error) && packageStack == old(packageStack)
      ensures Packages.Pop(old(packageStack)).Ok? ==>
        r == Pass && packageStack == Packages.Pop(old(packageStack)).value
      ensures heap == old(heap) && next == old(next) && rank == old(rank)
      ensures registry == old(registry) && pending == old(pending)
    {
      if packageStack.None? {
        return Pass;
      }
      var stack := packageStack.value;
      if stack == [] {
        return Fail(EmptyStack);
      }
      packageStack := Some(stack[..|stack| - 1]);
      r := Pass;
    }

    // ---------------------------------------------------------------------
    // Name resolution.
    //
    // Resolution only reads the receiver's record and may register what a
    // loaded unit registers, so the specification functions take the arena
    // and the registry as arguments and return the registry they leave.

    /**
     * The package that the receiver maps `name` to. A class-mode object asks
     * its own table; an instance-mode object without a class has none; an
     * instance-mode object with a class recurses on itself without end.
     */
    function PackageFor(h: Heap, receiver: ObjId, name: string): (r: Result<Option<string>>)
      requires receiver in h
      ensures r.Err? <==> !h[receiver].isClass && h[receiver].cls.Some?
      ensures r.Err? ==> r.error == StackOverflow
      ensures h[receiver].isClass ==> r == Ok(classPackages(receiver, name))
      ensures !h[receiver].isClass && h[receiver].cls.None? ==> r == Ok(None)
    {
      if h[receiver].isClass then Ok(classPackages(receiver, name))
      else if h[receiver].cls.None? then Ok(None)
      else Err(StackOverflow)
    }

    /**
     * The fully qualified name for `name`: the receiver's own answer takes
     * precedence, the global package map is the fallback.
     */
    function PrimitivePackageFor(h: Heap, receiver: ObjId, name: string): Result<Option<string>>
      requires receiver in h
    {
      match PackageFor(h, receiver, name)
      case Err(e) => Err(e)
      case Ok(Some(q)) => Ok(Some(q))
      case Ok(None) => if name in packageMap then Ok(Some(packageMap[name])) else Ok(None)
    }

    /** The bindings of a loaded unit that name records of the arena. */
    function Registrable(h: Heap, bindings: map<string, ObjId>): map<string, ObjId> {
      map n | n in bindings && bindings[n] in h :: bindings[n]
    }

    /**
     * `resolveObject`: the registry first; else the qualified name from the
     * package tables, resolved again one call deeper (an unknown qualified
     * name is an error); else load the unit and look in the registry again.
     * None when nothing is found. `depth` is the call-stack depth left.
     */
    function Resolve(h: Heap, reg: map<string, ObjId>, receiver: ObjId, name: string, depth: nat): (res: Resolved<Option<ObjId>>)
      requires receiver in h
      ensures name in reg ==> res == Resolved(Ok(Some(reg[name])), reg)
      ensures reg.Keys <= res.registry.Keys
      ensures res.result.Err? ==> res.result.error == StackOverflow || res.result.error.ClassNotFound?
      ensures NamesRecords(reg, h) ==>
        NamesRecords(res.registry, h) &&
        (res.result.Ok? && res.result.value.Some? ==> res.result.value.value in h)
      decreases depth, 0
    {
      if name in reg then Resolved(Ok(Some(reg[name])), reg)
      else match PrimitivePackageFor(h, receiver, name)
        case Err(e) => Resolved(Err(e), reg)
        case Ok(Some(q)) =>
          if depth == 0 then Resolved(Err(StackOverflow), reg)
          else
            var inner := PrimitiveResolve(h, reg, receiver, q, depth - 1);
            Resolved(if inner.result.Ok? then Ok(Some(inner.result.value)) else Err(inner.result.error), inner.registry)
        case Ok(None) =>
          match loader(name)
          case None => Resolved(Ok(None), reg)
          case Some(unit) =>
            var reg' := reg + Registrable(h, unit);
            Resolved(Ok(if name in reg' then Some(reg'[name]) else None), reg')
    }

    /** `primitiveResolveObject`: resolution in which finding nothing is ClassNotFound. */
    function PrimitiveResolve(h: Heap, reg: map<string, ObjId>, receiver: ObjId, name: string, depth: nat): (res: Resolved<ObjId>)
      requires receiver in h
      ensures name in reg ==> res == Resolved(Ok(reg[name]), reg)
      ensures reg.Keys <= res.registry.Keys
      ensures res.result.Err? ==> res.result.error == StackOverflow || res.result.error.ClassNotFound?
      ensures NamesRecords(reg, h) ==>
        NamesRecords(res.registry, h) &&
        (res.result.Ok? ==> res.result.value in h)
      decreases depth, 1
    {
      var found := Resolve(h, reg, receiver, name, depth);
      Resolved(match found.result
               case Err(e) => Err(e)
               case Ok(None) => Err(ClassNotFound(name))
               case Ok(Some(o)) => Ok(o),
               found.registry)
    }

    /**
     * The paths of resolution for a name the registry does not hold: a
     * failing package lookup, a qualified name resolved one call deeper, and
     * a load followed by a second look in the registry. The primitive turns
     * finding nothing into ClassNotFound.
     */
    lemma ResolveUnregistered(h: Heap, reg: map<string, ObjId>, receiver: ObjId, name: string, depth: nat)
      requires receiver in h && name !in reg
      ensures PrimitivePackageFor(h, receiver, name).Err? ==>
        Resolve(h, reg, receiver, name, depth) == Resolved(Err(PrimitivePackageFor(h, receiver, name).error), reg)
      ensures PrimitivePackageFor(h, receiver, name).Ok? && PrimitivePackageFor(h, receiver, name).value.Some? ==>
        var q := PrimitivePackageFor(h, receiver, name).value.value;
        (depth == 0 ==> Resolve(h, reg, receiver, name, depth) == Resolved(Err(StackOverflow), reg)) &&
        (depth > 0 && q in reg ==> Resolve(h, reg, receiver, name, depth) == Resolved(Ok(Some(reg[q])), reg))
      ensures PrimitivePackageFor(h, receiver, name) == Ok(None) && loader(name).None? ==>
        Resolve(h, reg, receiver, name, depth) == Resolved(Ok(None), reg) &&
        PrimitiveResolve(h, reg, receiver, name, depth) == Resolved(Err(ClassNotFound(name)), reg)
      ensures PrimitivePackageFor(h, receiver, name) == Ok(None) && loader(name).Some? ==>
        var reg' := reg + Registrable(h, loader(name).value);
        Resolve(h, reg, receiver, name, depth) == Resolved(Ok(if name in reg' then Some(reg'[name]) else None), reg')
    {
    }

    /**
     * Resolution finds nothing exactly when the name is not registered, the
     * package tables do not qualify it, and loading its unit fails or does
     * not register it.
     */
    lemma ResolveFindsNothing(h: Heap, reg: map<string, ObjId>, receiver: ObjId, name: string, depth: nat)
      requires receiver in h
      ensures Resolve(h, reg, receiver, name, depth).result == Ok(None) <==>
        name !in reg && PrimitivePackageFor(h, receiver, name) == Ok(None) &&
        (loader(name).None? || name !in Registrable(h, loader(name).value))
    {
    }

    /**
     * The depth of the call stack only decides whether resolution overflows:
     * a resolution that does not overflow gives the same answer, and leaves
     * the same registry, with any deeper stack.
     */
    lemma {:induction false} ResolveDepthIndependent(h: Heap, reg: map<string, ObjId>, receiver: ObjId, name: string, depth: nat, deeper: nat)
      requires receiver in h && depth <= deeper
      requires Resolve(h, reg, receiver, name, depth).result != Err(StackOverflow)
      ensures Resolve(h, reg, receiver, name, deeper) == Resolve(h, reg, receiver, name, depth)
      decreases depth
    {
      if name !in reg {
        var qualified := PrimitivePackageFor(h, receiver, name);
        if qualified.Ok? && qualified.value.Some? {
          var q := qualified.value.value;
          assert depth > 0;
          assert Resolve(h, reg, receiver, q, depth - 1).result != Err(StackOverflow);
          ResolveDepthIndependent(h, reg, receiver, q, depth - 1, deeper - 1);
        }
      }
    }

    /**
     * A name the package tables do not qualify is registered once it has
     * been resolved, so resolving it again answers the same object from the
     * registry, without loading again.
     */
    lemma ResolveAgainIsStable(h: Heap, reg: map<string, ObjId>, receiver: ObjId, name: string, depth: nat, later: nat)
      requires receiver in h
      requires PrimitivePackageFor(h, receiver, name) == Ok(None)
      requires Resolve(h, reg, receiver, name, depth).result.Ok?
      requires Resolve(h, reg, receiver, name, depth).result.value.Some?
      ensures var res := Resolve(h, reg, receiver, name, depth);
        name in res.registry && Resolve(h, res.registry, receiver, name, later) == res
    {
    }

    /** Load the unit called `name`; a successful load registers what the unit registers. */
    method LoadObject(name: string) returns (loaded: bool)
      requires Valid()
      modifies this
      ensures Valid()
      ensures loaded <==> loader(name).Some?
      ensures registry == if loaded then old(registry) + Registrable(heap, loader(name).value) else old(registry)
      ensures heap == old(heap) && next == old(next) && rank == old(rank) && pending == old(pending)
      ensures packageStack == old(packageStack)
    {
      var unit := loader(name);
      if unit.None? {
        return false;
      }
      registry := registry + Registrable(heap, unit.value);
      loaded := true;
    }

    /** `resolveObject`, proved to compute `Resolve` and leave its registry. */
    method ResolveObject(receiver: ObjId, name: string, depth: nat) returns (r: Result<Option<ObjId>>)
      requires Valid() && receiver in heap
      modifies this
      ensures Valid()
      ensures heap == old(heap) && next == old(next) && rank == old(rank) && pending == old(pending)
      ensures Resolved(r, registry) == Resolve(heap, old(registry), receiver, name, depth)
      ensures packageStack == old(packageStack)
      decreases depth, 0
    {
      if name in registry {
        return Ok(Some(registry[name]));
      }
      var qualified := PrimitivePackageFor(heap, receiver, name);
      if qualified.Err? {
        return Err(qualified.error);
      }
      if qualified.value.Some? {
        if depth == 0 {
          return Err(StackOverflow);
        }
        ghost var expected := PrimitiveResolve(heap, registry, receiver, qualified.value.value, depth - 1);
        assert Resolve(heap, registry, receiver, name, depth).registry == expected.registry;
        var inner := PrimitiveResolveObject(receiver, qualified.value.value, depth - 1);
        assert Resolved(inner, registry) == expected;
        if inner.Err? {
          return Err(inner.error);
        }
        return Ok(Some(inner.value));
      }
      assert loader(name).None? ==> Resolve(heap, registry, receiver, name, depth) == Resolved(Ok(None), registry);
      var loaded := LoadObject(name);
      if loaded {
        return Ok(if name in registry then Some(registry[name]) else None);
      }
      r := Ok(None);
    }

    /** `primitiveResolveObject`, proved to compute `PrimitiveResolve` and leave its registry. */
    method PrimitiveResolveObject(receiver: ObjId, name: string, depth: nat) returns (r: Result<ObjId>)
      requires Valid() && receiver in heap
      modifies this
      ensures Valid()
      ensures heap == old(heap) && next == old(next) && rank == old(rank) && pending == old(pending)
      ensures Resolved(r, registry) == PrimitiveResolve(heap, old(registry), receiver, name, depth)
      ensures packageStack == old(packageStack)
      decreases depth, 1
    {
      var resolved := ResolveObject(receiver, name, depth);
      if resolved.Err? {
        return Err(resolved.error);
      }
      if resolved.value.None? {
        return Err(ClassNotFound(name));
      }
      r := Ok(resolved.value.value);
    }

    // ---------------------------------------------------------------------
    // Literals and instances.

    /**
     * A fresh instance-mode object holding `value`, whose class is what
     * `receiver` resolves `className` to (none when resolution finds nothing).
     */
    method NewLiteral(receiver: ObjId, className: string, value: string) returns (r: Result<ObjId>)
      requires Valid() && receiver in heap
      modifies this
      ensures Valid()
      ensures var cls := Resolve(old(heap), old(registry), receiver, className, stackDepth);
        registry == cls.registry &&
        (cls.result.Err? ==> r == Err(cls.result.error) && heap == old(heap)) &&
        (cls.result.Ok? ==>
          r == Ok(old(next)) && old(next) !in old(heap) &&
          heap == old(heap)[old(next) := Obj(false, cls.result.value, None, map[], Some(value))])
      ensures className in old(registry) ==>
        r.Ok? && heap[r.value].cls == Some(old(registry)[className]) && registry == old(registry)
      ensures pending == old(pending) && packageStack == old(packageStack)
    {
      var cls := ResolveObject(receiver, className, stackDepth);
      if cls.Err? {
        return Err(cls.error);
      }
      var literal := NewLiteralOf(cls.value, value);
      r := Ok(literal);
    }

    /** A fresh instance-mode object of class `cls` (none when absent) holding `value`. */
    method NewLiteralOf(cls: Option<ObjId>, value: string) returns (literal: ObjId)
      requires Valid()
      requires cls.Some? ==> cls.value in heap
      modifies this
      ensures Valid()
      ensures literal == old(next) && literal !in old(heap)
      ensures heap == old(heap)[literal := Obj(false, cls, None, map[], Some(value))]
      ensures registry == old(registry) && pending == old(pending) && packageStack == old(packageStack)
    {
      literal := NewObject(false);
      SetCls(literal, cls);
      UpdateTwice(old(heap), literal, Obj(false, None, None, map[], None), Obj(false, cls, None, map[], None));
      SetJavaValue(literal, value);
      UpdateTwice(old(heap), literal, Obj(false, cls, None, map[], None), Obj(false, cls, None, map[], Some(value)));
    }

    /** A Symbol holding `value`. */
    method PrimitiveSymbol(receiver: ObjId, value: string) returns (r: Result<ObjId>)
      requires Valid() && receiver in heap
      modifies this
      ensures Valid()
      ensures var cls := Resolve(old(heap), old(registry), receiver, "Symbol", stackDepth);
        registry == cls.registry &&
        (cls.result.Err? ==> r == Err(cls.result.error) && heap == old(heap)) &&
        (cls.result.Ok? ==>
          r == Ok(old(next)) && old(next) !in old(heap) &&
          heap == old(heap)[old(next) := Obj(false, cls.result.value, None, map[], Some(value))])
      ensures "Symbol" in old(registry) ==>
        r.Ok? && heap[r.value] == Obj(false, Some(old(registry)["Symbol"]), None, map[], Some(value)) &&
        registry == old(registry)
      ensures pending == old(pending) && packageStack == old(packageStack)
    {
      r := NewLiteral(receiver, "Symbol", value);
    }

    /** A String holding `value`. */
    method PrimitiveString(receiver: ObjId, value: string) returns (r: Result<ObjId>)
      requires Valid() && receiver in heap
      modifies this
      ensures Valid()
      ensures var cls := Resolve(old(heap), old(registry), receiver, "String", stackDepth);
        registry == cls.registry &&
        (cls.result.Err? ==> r == Err(cls.result.error) && heap == old(heap)) &&
        (cls.result.Ok? ==>
          r == Ok(old(next)) && old(next) !in old(heap) &&
          heap == old(heap)[old(next) := Obj(false, cls.result.value, None, map[], Some(value))])
      ensures "String" in old(registry) ==>
        r.Ok? && heap[r.value] == Obj(false, Some(old(registry)["String"]), None, map[], Some(value)) &&
        registry == old(registry)
      ensures pending == old(pending) && packageStack == old(packageStack)
    {
      r := NewLiteral(receiver, "String", value);
    }

    /** Primitive 70 (basicNew): a fresh instance-mode object whose class is the receiver. */
    method Primitive70(receiver: ObjId, clsMethodFoundIn: ObjId, arg1: ObjId) returns (r: ObjId)
      requires Valid() && receiver in heap
      modifies this
      ensures Valid()
      ensures r !in old(heap) && heap == old(heap)[r := Obj(false, Some(receiver), None, map[], None)]
      ensures registry == old(registry) && pending == old(pending)
      ensures packageStack == old(packageStack)
    {
      r := NewObject(false);
      SetCls(r, Some(receiver));
    }
  }
}
