/**
 * Clients of the runtime: what a caller can conclude from the contracts
 * alone, on the life cycle of a class "Point" with its methods, the package
 * stack, and the resolution of names through the loader.
 */
module Scenarios {
  import opened Objects
  import Packages
  import Dispatch
  import opened Core

  /** Re-creating a registered class yields the registered object, whatever the superclass. */
  method CreateTwice(loader: Loader, compiler: Compiler, tables: PackageTable) {
    var rt := new Runtime(map[], loader, compiler, tables, 8);
    var root := rt.NewObject(true);
    var metaClass := rt.NewObject(true);
    var _ := rt.RegisterAs(metaClass, "MetaClass");
    var created := rt.CreateSubclass(root, Some("Point"));
    assert created.Ok?;
    var point := created.value;
    assert rt.heap[point].superclass == Some(root);
    assert rt.heap[rt.heap[point].cls.value].cls == Some(metaClass);
    var _ := rt.RegisterAs(point, "Point");
    var again := rt.CreateSubclass(metaClass, Some("Point"));
    assert again == Ok(point);
  }

  /** A method key is claimed once, compiled once, and then answers sends to instances. */
  method CompileAndSend(rt: Runtime, point: ObjId, source: AbstractMethod, compiled: ProtoMethod)
    requires rt.Valid() && point in rt.heap && rt.pending == map[]
    requires rt.compiler(source, "Point$x", "st.redline", 0) == Some(compiled)
    modifies rt
  {
    var claimed := rt.RegisterMethodToBeCompiledAs(source, "Point>>x");
    assert claimed == Pass;
    var twice := rt.RegisterMethodToBeCompiledAs(source, "Point>>x");
    assert twice == Fail(DuplicatePending("Point>>x"));
    assert "Point" + "$" + "x" == "Point$x";
    var installed := rt.CompileMethod(point, "Point>>x", "x", "Point", "st.redline", 0);
    assert installed == Pass;
    var recompiled := rt.CompileMethod(point, "Point>>x", "x", "Point", "st.redline", 0);
    assert recompiled == Fail(MissingPending("Point>>x"));
    var p := rt.Primitive70(point, point, point);
    var sent := rt.Send(p, "x", []);
    assert sent == Ok(Dispatch.Invocation(compiled, p, point, []));
  }

  /** A push and its pop on a fresh stack leave a created but empty stack. */
  method PackageScope(rt: Runtime, name: string)
    requires rt.packageStack == None
    modifies rt
  {
    rt.PushPackage(name);
    var current := rt.PackageRegistryCurrent();
    assert current == Ok(Packages.Normalize(name));
    var popped := rt.PackageRegistryRemove();
    assert popped == Pass;
    current := rt.PackageRegistryCurrent();
    assert current == Err(EmptyStack);
  }

  /**
   * An instance of a fresh subclass answers a send as its superclass does,
   * until the subclass installs its own method, which then wins.
   */
  method InheritedSend(rt: Runtime, root: ObjId, inherited: ProtoMethod, own: ProtoMethod)
    requires rt.Valid() && root in rt.heap
    requires "MetaClass" in rt.registry && "Point" !in rt.registry
    modifies rt
  {
    rt.MethodAtPut(root, "x", inherited);
    var created := rt.CreateSubclass(root, Some("Point"));
    var point := created.value;
    assert rt.heap[point].superclass == Some(root) && rt.heap[point].methods == map[];
    assert rt.heap[root].MethodAt("x") == Some(inherited);
    var p := rt.Primitive70(point, point, point);
    Dispatch.FreshSubclassInherits(rt.heap, rt.rank, point, "x");
    var sent := rt.Send(p, "x", []);
    assert sent == Ok(Dispatch.Invocation(inherited, p, root, []));
    rt.MethodAtPut(point, "x", own);
    sent := rt.Send(p, "x", []);
    assert sent == Ok(Dispatch.Invocation(own, p, point, []));
  }

  /**
   * A name that no table qualifies is loaded on first resolution and then
   * answered from the registry.
   */
  method LoadOnDemand(rt: Runtime, receiver: ObjId, foo: ObjId)
    requires rt.Valid() && receiver in rt.heap && foo in rt.heap
    requires rt.heap[receiver].isClass && rt.classPackages(receiver, "Foo").None?
    requires "Foo" !in rt.packageMap && "Foo" !in rt.registry
    requires rt.loader("Foo") == Some(map["Foo" := foo])
    modifies rt
  {
    var first := rt.ResolveObject(receiver, "Foo", 4);
    assert first == Ok(Some(foo));
    var again := rt.ResolveObject(receiver, "Foo", 4);
    assert again == Ok(Some(foo));
  }

  /**
   * A name known nowhere is ClassNotFound to the primitive, and a Symbol
   * made when no Symbol class can be found has no class.
   */
  method UnknownNames(rt: Runtime, receiver: ObjId)
    requires rt.Valid() && receiver in rt.heap
    requires rt.heap[receiver].isClass && rt.classPackages(receiver, "Bar").None? && rt.classPackages(receiver, "Symbol").None?
    requires "Bar" !in rt.packageMap && "Bar" !in rt.registry && rt.loader("Bar").None?
    requires "Symbol" !in rt.packageMap && "Symbol" !in rt.registry && rt.loader("Symbol").None?
    modifies rt
  {
    var bar := rt.PrimitiveResolveObject(receiver, "Bar", 4);
    assert bar == Err(ClassNotFound("Bar"));
    var symbol := rt.PrimitiveSymbol(receiver, "abc");
    assert symbol.Ok? && rt.heap[symbol.value] == Obj(false, None, None, map[], Some("abc"));
  }
}
