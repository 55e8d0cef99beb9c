/** Go error values as far as xtemplate inspects them: sentinels, wrapping and errors.Join. */
module Errors {
  import opened Wrappers

  datatype Error =
    | ReturnError
    | ErrorStatus(code: int)
    | Other(text: string)
    | Wrapped(inner: Error)
    | Joined(errs: seq<Error>)

  /** errors.As(err, &ReturnError{}) */
  predicate IsReturn(e: Error) {
    match e
    case ReturnError => true
    case Wrapped(inner) => IsReturn(inner)
    case Joined(errs) => exists i :: 0 <= i < |errs| && IsReturn(errs[i])
    case _ => false
  }

  /** errors.As(err, &status): the first ErrorStatus in the tree, depth first */
  function StatusOf(e: Error): Option<int> {
    match e
    case ErrorStatus(code) => Some(code)
    case Wrapped(inner) => StatusOf(inner)
    case Joined(errs) => FirstStatus(errs)
    case _ => None
  }

  function FirstStatus(errs: seq<Error>): Option<int> {
    if errs == [] then None
    else if StatusOf(errs[0]).Some? then StatusOf(errs[0])
    else FirstStatus(errs[1..])
  }

  /** errors.Join(a, b): nil when both are nil */
  function Join(a: Option<Error>, b: Option<Error>): Option<Error> {
    if a.None? && b.None? then None
    else Some(Joined((if a.Some? then [a.value] else []) + (if b.Some? then [b.value] else [])))
  }

  // ----- The errors in a tree -----

  /** The errors that wrap no other, depth first. */
  function Leaves(e: Error): seq<Error> {
    match e
    case Wrapped(inner) => Leaves(inner)
    case Joined(errs) => AllLeaves(errs)
    case _ => [e]
  }

  function AllLeaves(errs: seq<Error>): seq<Error> {
    if errs == [] then [] else Leaves(errs[0]) + AllLeaves(errs[1..])
  }

  /** An early return is found however deep it is wrapped or joined. */
  lemma {:induction false} ReturnInTree(e: Error)
    ensures IsReturn(e) <==> ReturnError in Leaves(e)
    decreases e, 0
  {
    match e
    case Wrapped(inner) => ReturnInTree(inner);
    case Joined(errs) => ReturnInTrees(errs);
    case _ =>
  }

  lemma {:induction false} ReturnInTrees(errs: seq<Error>)
    ensures (exists i :: 0 <= i < |errs| && IsReturn(errs[i])) <==> ReturnError in AllLeaves(errs)
    decreases errs, 1
  {
    if errs != [] {
      ReturnInTree(errs[0]);
      ReturnInTrees(errs[1..]);
      assert (exists i :: 0 <= i < |errs| && IsReturn(errs[i]))
        <==> IsReturn(errs[0]) || exists i :: 0 <= i < |errs[1..]| && IsReturn(errs[1..][i]) by {
        assert forall i :: 1 <= i < |errs| ==> errs[i] == errs[1..][i - 1];
      }
    }
  }

  /** The status of a list of errors is that of the first that carries one. */
  ghost predicate StatusIs(leaves: seq<Error>, status: Option<int>) {
    match status
    case None => forall i :: 0 <= i < |leaves| ==> !leaves[i].ErrorStatus?
    case Some(code) =>
      exists i :: 0 <= i < |leaves| && leaves[i] == ErrorStatus(code) && forall j :: 0 <= j < i ==> !leaves[j].ErrorStatus?
  }

  lemma StatusOfConcat(a: seq<Error>, s: Option<int>, b: seq<Error>, t: Option<int>)
    requires StatusIs(a, s) && StatusIs(b, t)
    ensures StatusIs(a + b, if s.Some? then s else t)
  {
    if s.Some? {
      var i :| 0 <= i < |a| && a[i] == ErrorStatus(s.value) && forall j :: 0 <= j < i ==> !a[j].ErrorStatus?;
      assert (a + b)[i] == a[i];
    } else if t.Some? {
      var i :| 0 <= i < |b| && b[i] == ErrorStatus(t.value) && forall j :: 0 <= j < i ==> !b[j].ErrorStatus?;
      assert (a + b)[|a| + i] == b[i];
      assert forall j :: 0 <= j < |a| + i ==> (a + b)[j] == if j < |a| then a[j] else b[j - |a|];
    }
  }

  /** The status of an error is that of the first error in its tree that carries one. */
  lemma {:induction false} StatusInTree(e: Error)
    ensures StatusIs(Leaves(e), StatusOf(e))
    decreases e, 0
  {
    match e
    case ErrorStatus(code) => assert Leaves(e)[0] == ErrorStatus(code);
    case Wrapped(inner) => StatusInTree(inner);
    case Joined(errs) => StatusInTrees(errs);
    case _ =>
  }

  lemma {:induction false} StatusInTrees(errs: seq<Error>)
    ensures StatusIs(AllLeaves(errs), FirstStatus(errs))
    decreases errs, 1
  {
    if errs != [] {
      StatusInTree(errs[0]);
      StatusInTrees(errs[1..]);
      StatusOfConcat(Leaves(errs[0]), StatusOf(errs[0]), AllLeaves(errs[1..]), FirstStatus(errs[1..]));
    }
  }

  /** Joining loses no error. */
  lemma JoinKeepsBoth(a: Option<Error>, b: Option<Error>)
    ensures (if Join(a, b).Some? then Leaves(Join(a, b).value) else [])
         == (if a.Some? then Leaves(a.value) else []) + (if b.Some? then Leaves(b.value) else [])
  {
    if a.Some? && b.Some? {
      var both, one := [a.value] + [b.value], [b.value];
      assert both[1..] == one && one[1..] == [];
      assert AllLeaves(one) == Leaves(b.value) + [] == Leaves(b.value);
    } else if a.Some? || b.Some? {
      var one := [if a.Some? then a.value else b.value];
      assert one[1..] == [] && AllLeaves(one) == Leaves(one[0]) + [] == Leaves(one[0]);
      assert (if a.Some? then [a.value] else []) + (if b.Some? then [b.value] else []) == one;
    }
  }
}
