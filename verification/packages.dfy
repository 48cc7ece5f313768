/**
 * The package stack: the names of the packages being loaded, innermost last.
 *
 * The stack is created lazily by the first push, so before it exists it is
 * `None`; once created it may become empty again, and then peek and pop throw.
 */
module Packages {
  import opened Objects

  type Stack = Option<seq<string>>

  /** A path-style package name in dotted form: every '/' becomes '.'. */
  function Normalize(name: string): (r: string)
    ensures |r| == |name|
    ensures forall i | 0 <= i < |name| :: r[i] == (if name[i] == '/' then '.' else name[i])
  {
    if name == [] then [] else [if name[0] == '/' then '.' else name[0]] + Normalize(name[1..])
  }

  /** The entries of the stack, bottom first; an absent stack has none. */
  function Items(st: Stack): seq<string> {
    if st.Some? then st.value else []
  }

  /** Push creates the stack if needed and pushes the normalised name. */
  function Push(st: Stack, name: string): Stack {
    Some(Items(st) + [Normalize(name)])
  }

  /** The current package: the top of the stack, "" when no stack exists. */
  function Current(st: Stack): Result<string> {
    match st
    case None => Ok("")
    case Some(s) => if s == [] then Err(EmptyStack) else Ok(s[|s| - 1])
  }

  /** Pop removes the top; without a stack it does nothing. */
  function Pop(st: Stack): Result<Stack> {
    match st
    case None => Ok(None)
    case Some(s) => if s == [] then Err(EmptyStack) else Ok(Some(s[..|s| - 1]))
  }

  lemma NormalizeIsDotted(name: string)
    ensures '/' !in Normalize(name)
    ensures forall i | 0 <= i < |name| && name[i] != '/' :: Normalize(name)[i] == name[i]
  {
  }

  lemma NormalizeIdempotent(name: string)
    ensures Normalize(Normalize(name)) == Normalize(name)
  {
  }

  lemma PushThenCurrent(st: Stack, name: string)
    ensures Current(Push(st, name)) == Ok(Normalize(name))
  {
  }

  lemma PushThenPop(st: Stack, name: string)
    ensures Pop(Push(st, name)) == Ok(Some(Items(st)))
  {
  }

  /**
   * A paired push and pop restores the current package when the stack held
   * something; on a fresh stack it leaves a created but empty stack behind,
   * on which the current package is an error rather than "".
   */
  lemma PairedPushPop(st: Stack, name: string)
    ensures Items(st) != [] ==>
      Pop(Push(st, name)).Ok? && Current(Pop(Push(st, name)).value) == Current(st)
    ensures st.None? ==>
      Pop(Push(st, name)) == Ok(Some([])) && Current(Pop(Push(st, name)).value) == Err(EmptyStack)
  {
  }
}
