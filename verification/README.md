# Redline Smalltalk object-model core, in Dafny

A model of the runtime core of Redline Smalltalk, a Smalltalk for the JVM. All of this core lives in the
static part of `ProtoObject`. It holds the objects of the running image, the registry of classes by name,
and the parsed methods waiting to be compiled. It also keeps the stack of packages being loaded and the
package map used to qualify bare names. The model covers the primitives that act on this state:

- creating classes and their metaclasses;
- registering a class under a name;
- claiming and compiling methods;
- sending a message through the superclass chain;
- pushing, reading and popping the package stack;
- resolving a name to a class;
- building Symbol, String and plain instances.

Files:

- `objects.dfy` (module `Objects`): the object record `Obj`. It has a class link, a superclass link, a
  selector-to-method dictionary, the class/instance mode flag and the string literal (`javaValue`). Records
  live in an arena `map<ObjId, Obj>` and refer to each other by integer handle, so the cyclic
  class/metaclass/superclass links are plain map entries. The module also holds the error kinds and the
  acyclicity invariant `Ranked`, which gives every record a rank above its superclass's.
  The getters `cls()`, `superclass()`, `javaValue()`, `methodAt()` and `isClass()` are the fields of `Obj`
  and `Obj.MethodAt`.
- `packages.dfy` (module `Packages`): the normalisation `/` to `.`, and the package stack as a value with
  its push, current and pop.
- `dispatch.dfy` (module `Dispatch`): method lookup as specification functions.
  - `Chain` is the superclass chain.
  - `Lookup` searches the chain.
  - `Send` is the dispatcher's decision.
  - Lemmas relate these to each other and to method installation.
- `runtime.dfy` (module `Core`): class `Runtime`. Its fields are the arena, the registry, the pending
  table, the package stack and the package map. Its methods are the primitives, and each method's
  `ensures` gives the arena, the registry, the pending table and the package stack after the call in
  terms of those before it. Name resolution is also written as functions, `Resolve` and
  `PrimitiveResolve`. They take the arena and the registry and return the answer together with the
  registry a load leaves behind. The resolution methods are proved to compute them, and so are the
  methods that resolve a class: metaclass creation and the literals. Class creation is written the
  same way, as the functions `Metaclass` and `Subclass`, which give the answer, the arena and the
  registry that creating a metaclass or a subclass leaves.
- `scenarios.dfy` (module `Scenarios`): clients that use only the contracts. They show that:
  - re-creation by name is idempotent;
  - a method key can be claimed once and compiled once, and the compiled method then answers sends;
  - an instance of a fresh subclass inherits its superclass's method until the subclass installs its own;
  - a push followed by a pop leaves an empty stack;
  - a unit is loaded on first resolution and then answered from the registry;
  - a name known nowhere is `ClassNotFound`, and a Symbol made without a Symbol class has no class.

Collaborators outside this file are given to the `Runtime` when it is created, as functions:

- the class loader (`loader`: a bare name to the bindings its unit registers, or None when the unit
  cannot be loaded);
- the bytecode compiler (`compiler`);
- the per-class package tables (`classPackages`);
- the depth of the call stack (`stackDepth`).

The global package map is a constant of the runtime, because nothing in `ProtoObject` writes it.

The model follows the Java code where it departs from the runtime's documented intent:

- Once the package stack has been created, it is never removed again. Peek and pop on the
  created-but-empty stack throw (`EmptyStack`); they do not answer `""` or do nothing.
  `Packages.PairedPushPop` states this.
- `primitiveCreateSubclass` keys idempotence on a non-null name, not on a non-empty one. The class it
  creates is not registered.
- A selector that no class on the chain holds is a hard error (`DoesNotUnderstand`). No
  `doesNotUnderstand:` message is sent.
- A receiver whose class is a root class without the selector dereferences a null superclass
  (`NullPointer`), because the walk starts at the class's superclass.
- `packageFor` on an instance-mode object whose class is set calls itself with the same arguments forever
  (`StackOverflow`).
- After a successful load, `resolveObject` returns whatever the registry holds, possibly nothing. A Symbol
  or String literal made then has no class.

## Model

| member | source | states |
|---|---|---|
| `Core.Runtime.constructor` | src/main/java/st/redline/ProtoObject.java:34-37 | the image starts with an empty arena, registry and pending table, and with no package stack |
| `Core.Runtime.NewObject` | src/main/java/st/redline/ProtoObject.java:46-57 | allocation yields a handle not yet in the arena, bound to a record of the given mode with no links, dictionary or literal; nothing else changes |
| `Core.Runtime.SetCls` | src/main/java/st/redline/ProtoObject.java:294-296 | only the class link of that one record changes |
| `Core.Runtime.SetSuperclass` | src/main/java/st/redline/ProtoObject.java:302-304 | only the superclass link of that one record changes, and the superclass graph stays acyclic |
| `Core.Runtime.SetJavaValue` | src/main/java/st/redline/ProtoObject.java:310-312 | only the literal of that one record changes |
| `Core.Runtime.MethodAtPut` | src/main/java/st/redline/ProtoObject.java:322-324 | the selector now maps to the new method, every other selector of that record and every other record are unchanged |
| `Core.Runtime.RegisterMethodToBeCompiledAs` | src/main/java/st/redline/ProtoObject.java:78-82 | a key already pending fails with the table unchanged; otherwise the key maps to the method and all other keys keep theirs |
| `Core.Runtime.CompileMethod` | src/main/java/st/redline/ProtoObject.java:101-117 | a key that is not pending fails and changes nothing; otherwise exactly that entry is removed, and stays removed when compiling fails; on success the receiver's dictionary gains the compiled method under the selector and nothing else in the arena changes |
| `Core.Runtime.CreateSubclass` | src/main/java/st/redline/ProtoObject.java:134-144 | a registered name returns the registered object with the arena and the registry unchanged; any other call (a null name included) leaves exactly the answer, arena and registry of `Subclass` for the next two handles, which `SubclassLinks` and `MetaclassLinks` spell out; when "MetaClass" is registered it succeeds and leaves the registry unchanged |
| `Core.Runtime.NewSubclass` | src/main/java/st/redline/ProtoObject.java:138-144 | the answer, the arena and the registry afterwards are exactly `Subclass` of the arena and registry before, with the next two handles as the class and its metaclass |
| `Core.Runtime.LinkMetaclass` | src/main/java/st/redline/ProtoObject.java:138-144 | the answer, the arena and the registry afterwards are exactly those of `Metaclass` for the next handle, with the class `c` linked to the metaclass when it was made |
| `Core.Runtime.SubclassLinks` | src/main/java/st/redline/ProtoObject.java:138-150 | a new subclass adds exactly two records, the class and its metaclass, and no other record changes; the class is class-mode with the receiver as superclass and an empty dictionary; it is returned with the metaclass as its class exactly when making the metaclass succeeded, and otherwise it has no class; the registry is the one that making the metaclass leaves |
| `Core.Runtime.CreateClass` | src/main/java/st/redline/ProtoObject.java:146-150 | adds one fresh class-mode record whose superclass is the receiver |
| `Core.Runtime.CreateMetaclass` | src/main/java/st/redline/ProtoObject.java:152-157 | allocates exactly one handle, the next one, and leaves the answer, the arena and the registry of `Metaclass` for that handle; the pending table and the package stack do not change |
| `Core.Runtime.Metaclass` | src/main/java/st/redline/ProtoObject.java:152-157 | exactly one record is added and no other changes; it is class-mode with an empty dictionary and no literal; on success the new handle is returned and the record has a class; when "MetaClass" is registered, resolution succeeds with the registered class and the registry is unchanged |
| `Core.Runtime.MetaclassLinks` | src/main/java/st/redline/ProtoObject.java:152-157 | "MetaClass" is resolved by `PrimitiveResolve` in the arena that already holds the new record, and the registry is the one that resolution leaves; a failure is returned and leaves the record with no class or superclass; on success the record's class is the class resolved and its superclass is the receiver's class |
| `Core.Runtime.RegisterAs` | src/main/java/st/redline/ProtoObject.java:159-163 | the name now maps to the receiver whatever it mapped to before, other names keep their bindings, the receiver is returned |
| `Core.Runtime.Send` | src/main/java/st/redline/ProtoObject.java:197-218 | the result is exactly the dispatcher's decision `Dispatch.Send` for the receiver, selector and arguments (both arities) |
| `Core.Runtime.MethodFor` | src/main/java/st/redline/ProtoObject.java:229-237 | the loop returns the method and class that `Dispatch.Lookup` finds from the start class, or nothing for both when the chain runs out |
| `Dispatch.Chain` | src/main/java/st/redline/ProtoObject.java:229-237 | the chain starts at the class, each element's superclass is the next, the last has no superclass, and it is finite because the graph is acyclic |
| `Dispatch.Lookup` | src/main/java/st/redline/ProtoObject.java:229-237 | a found method is really bound to the selector in the dictionary of the class it reports |
| `Dispatch.Send` | src/main/java/st/redline/ProtoObject.java:197-207 | a successful send invokes, for this receiver and these arguments, the method bound to the selector in the class it reports; the only failures are a null dereference and doesNotUnderstand |
| `Dispatch.LookupIsFirstInChain` | src/main/java/st/redline/ProtoObject.java:229-237 | lookup reports the first class on the superclass chain whose dictionary holds the selector (nearest ancestor wins), and fails only when no class on the chain holds it |
| `Dispatch.LookupFailsIffChainLacks` | src/main/java/st/redline/ProtoObject.java:232-234 | lookup fails if and only if no dictionary on the chain holds the selector |
| `Dispatch.SendIsLookupFromClass` | src/main/java/st/redline/ProtoObject.java:199-206 | the two-phase send (own class, then from its superclass) equals one lookup from the receiver's class whenever no null superclass is dereferenced |
| `Dispatch.InstallIsVisible` | src/main/java/st/redline/ProtoObject.java:116 | right after a method is installed in a class, every instance of that class dispatches the selector to it, found in that class |
| `Dispatch.InstallKeepsOtherSelectors` | src/main/java/st/redline/ProtoObject.java:322-324 | installing a method changes no lookup of any other selector from any class |
| `Dispatch.ExtensionKeepsLookup` | src/main/java/st/redline/ProtoObject.java:146-157 | allocating new records changes no lookup from an existing class |
| `Dispatch.FreshSubclassInherits` | src/main/java/st/redline/ProtoObject.java:146-150 | a freshly created class answers every lookup as its superclass does |
| `Core.Runtime.PackageRegistryCurrent` | src/main/java/st/redline/ProtoObject.java:94-99 | the current package is `Packages.Current` of the stack: "" before any push, an error on an empty stack, else the top |
| `Core.Runtime.PushPackage` | src/main/java/st/redline/ProtoObject.java:119-126 | the stack (created if absent) gains the normalised name on top; nothing else changes |
| `Core.Runtime.PackageRegistryRemove` | src/main/java/st/redline/ProtoObject.java:128-132 | without a stack nothing happens; on an empty stack it fails; otherwise exactly the top is removed |
| `Packages.Normalize` | src/main/java/st/redline/ProtoObject.java:125 | same length, every '/' becomes '.', every other character is kept |
| `Packages.NormalizeIsDotted` | src/main/java/st/redline/ProtoObject.java:125 | a normalised name holds no '/' and keeps every other character in place |
| `Packages.NormalizeIdempotent` | src/main/java/st/redline/ProtoObject.java:125 | normalising twice is normalising once |
| `Packages.PushThenCurrent` | src/main/java/st/redline/ProtoObject.java:94-126 | after a push the current package is the pushed name in dotted form |
| `Packages.PushThenPop` | src/main/java/st/redline/ProtoObject.java:119-132 | a pop after a push removes exactly the pushed name and leaves the rest |
| `Packages.PairedPushPop` | src/main/java/st/redline/ProtoObject.java:94-132 | a paired push and pop restores the current package on a non-empty stack; on a fresh stack it leaves a created but empty one whose current package is an error |
| `Core.Runtime.PackageFor` | src/main/java/st/redline/ProtoObject.java:281-288 | a class answers from its own table; an instance without a class has no package; an instance with a class overflows the stack, and that is the only failure |
| `Core.Runtime.Resolve` | src/main/java/st/redline/ProtoObject.java:248-267 | a registered name resolves to its entry and leaves the registry as it is; registered names stay registered; the only failures are stack overflow and ClassNotFound; when the registry names only records of the arena, so does the registry afterwards, and so does a found object |
| `Core.Runtime.PrimitiveResolve` | src/main/java/st/redline/ProtoObject.java:239-246 | as `Resolve`, and a found object is returned outright |
| `Core.Runtime.ResolveUnregistered` | src/main/java/st/redline/ProtoObject.java:239-260 | for an unregistered name: a failing package lookup is returned with the registry unchanged; a qualified name overflows on an exhausted stack and otherwise resolves to its registered object; with no qualified name and no loadable unit the answer is nothing, which the primitive turns into ClassNotFound; after a load the answer is what the grown registry holds for the name |
| `Core.Runtime.ResolveFindsNothing` | src/main/java/st/redline/ProtoObject.java:248-260 | resolution finds nothing exactly when the name is unregistered, no package table qualifies it, and loading its unit fails or does not register it |
| `Core.Runtime.ResolveDepthIndependent` | src/main/java/st/redline/ProtoObject.java:252-254 | the call-stack depth decides only whether resolution overflows: a resolution that does not overflow answers the same, and leaves the same registry, on any deeper stack |
| `Core.Runtime.ResolveAgainIsStable` | src/main/java/st/redline/ProtoObject.java:255-258 | a name no package table qualifies is registered once it has resolved, so resolving it again answers the same object from the registry without a second load |
| `Core.Runtime.LoadObject` | src/main/java/st/redline/ProtoObject.java:269-275 | reports whether the unit loads; a successful load adds the unit's bindings that name records of the arena, which may rebind names already registered; a failed load changes nothing |
| `Core.Runtime.ResolveObject` | src/main/java/st/redline/ProtoObject.java:248-260 | the answer and the registry afterwards are exactly `Resolve` of the arena and the registry before; the arena, the pending table and the package stack do not change |
| `Core.Runtime.PrimitiveResolveObject` | src/main/java/st/redline/ProtoObject.java:239-246 | the answer and the registry afterwards are exactly `PrimitiveResolve` of the arena and the registry before |
| `Core.Runtime.NewLiteral` | src/main/java/st/redline/ProtoObject.java:181-195 | the class name is resolved by `Resolve` first, and the registry is the one it leaves; a failure is returned with the arena unchanged; otherwise exactly one fresh instance-mode record holding the value is added, whose class is the resolved class, or none when nothing was found |
| `Core.Runtime.NewLiteralOf` | src/main/java/st/redline/ProtoObject.java:182-186 | exactly one record is added, under the next handle: instance-mode, of the given class (or none), holding the value; the registry, the pending table and the package stack do not change |
| `Core.Runtime.PrimitiveSymbol` | src/main/java/st/redline/ProtoObject.java:181-187 | `NewLiteral` for "Symbol": the class resolved for "Symbol", or none, on one fresh instance-mode record holding the value; a resolution failure leaves the arena unchanged |
| `Core.Runtime.PrimitiveString` | src/main/java/st/redline/ProtoObject.java:189-195 | `NewLiteral` for "String": the class resolved for "String", or none, on one fresh instance-mode record holding the value; a resolution failure leaves the arena unchanged |
| `Core.Runtime.Primitive70` | src/main/java/st/redline/ProtoObject.java:330-333 | a fresh instance-mode record whose class is the receiver; nothing else changes |

## Left out

- `primitiveMain`, `createArray` and `create` (ProtoObject.java:69-92) are left out. They are program entry and Array construction; the argument marshalling is a TODO in the code.
- The `System.out.println` tracing is left out; it is output only.
- `bootstrap` and `Bootstrapper` (ProtoObject.java:290-292) are not part of this model. The bootstrap is a caller that uses the primitives above.
- `primitiveVariableAt`, `primitiveIsInstanceVariable` and `primitiveIsClassVariable` (ProtoObject.java:165-179) are left out. They are stubs, and the checks always answer false.
- The `name` field, the `ProtoObject(String)` constructor and `toString` are left out. They serve only to print objects.
- The static fields `instanceOfUndefinedObject`, `instanceOfTrue` and `instanceOfFalse` are left out; nothing in this file assigns them.
- The package stack is per thread (`ThreadLocal`). The model has one stack, which is absent before the first push.
- The static maps are not thread-safe, and the model has no concurrency.
- `ProtoMethod.applyTo` is not part of this model. A send returns the invocation it would make: the method, the receiver, the class the method was found in, and the arguments.
- The unused `classMethodWasFoundIn` parameter of `primitiveSend` is left out.
- `ProtoObjectData` is not part of this model. Every record has all fields, and nothing checks the mode.
- Receivers and objects are never null in the model; handles always name records in the arena. A null name is modelled only for `primitiveCreateSubclass`.
- A null method descriptor in the pending table is not modelled.
- `Core.Runtime.CompileMethod`: `MethodAnalyser`, `defineClass` and `newInstance` (ProtoObject.java:107-115) are the `compiler` function. All of their failures are one `CompileFailed` error.
- `Core.Runtime.LoadObject`: reflective class loading is the `loader` function, which is deterministic. A loaded unit can only register records that already exist in the arena; it cannot allocate new ones.
- `Core.Runtime.PackageFor`: the per-class package table of `ProtoObjectData` is the `classPackages` function.
- `Core.Runtime.SetSuperclass` requires that the new superclass is not the record itself. When the record is already the superclass of some record, it further requires that the new superclass already sits below the record in the acyclicity ranking, or that it is null. This keeps the superclass graph acyclic with a local rank update. Re-parenting a class with subclasses onto a class that is not ranked below it is not modelled, even when no cycle would arise. Within this file, superclasses are only set on freshly created records.
- `Core.Runtime.ResolveObject`: chained re-resolution through qualified names (ProtoObject.java:252-254) is bounded by the call-stack depth. A chain deeper than `stackDepth`, such as a cyclic package map, ends in `StackOverflow`.
