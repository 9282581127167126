// Removal of unused global variables (src/sksl/transform/SkSLEliminateDeadGlobalVariables.cpp):
// the elements of a module or program that declare a dead global are erased,
// the others kept in order, and the caller learns whether anything went.
module DeadGlobals {

  /** A variable, identified by its address. */
  type VarId = int

  /** A program element: a global variable declaration, or any other element. */
  datatype Element = GlobalVar(name: string, variable: VarId) | OtherElement(id: int)

  /**
   * `is_dead_variable`: a global variable declaration whose variable the usage
   * analysis reports dead (`dead`), and, when only private globals may go,
   * whose name starts with `$`.
   */
  predicate IsDeadVariable(e: Element, dead: set<VarId>, onlyPrivateGlobals: bool) {
    e.GlobalVar? &&
    (!onlyPrivateGlobals || (|e.name| > 0 && e.name[0] == '$')) &&
    e.variable in dead
  }

  /** The elements that stay, in their order. */
  function Survivors(s: seq<Element>, dead: set<VarId>, onlyPrivateGlobals: bool): (r: seq<Element>)
    ensures |r| <= |s|
    ensures forall i :: 0 <= i < |r| ==> !IsDeadVariable(r[i], dead, onlyPrivateGlobals)
  {
    if |s| == 0 then []
    else
      var init := Survivors(s[..|s| - 1], dead, onlyPrivateGlobals);
      if IsDeadVariable(s[|s| - 1], dead, onlyPrivateGlobals) then init else init + [s[|s| - 1]]
  }

  /** Filtering a concatenation filters each part: the survivors keep their relative order. */
  lemma {:induction false} SurvivorsAppend(a: seq<Element>, b: seq<Element>, dead: set<VarId>, only: bool)
    ensures Survivors(a + b, dead, only) == Survivors(a, dead, only) + Survivors(b, dead, only)
    decreases |b|
  {
    if |b| == 0 {
      assert a + b == a;
    } else {
      var b' := b[..|b| - 1];
      assert (a + b)[..|a + b| - 1] == a + b';
      assert (a + b)[|a + b| - 1] == b[|b| - 1];
      SurvivorsAppend(a, b', dead, only);
    }
  }

  /** Every element that is not dead survives as often as it occurs, and no dead one does. */
  lemma {:induction false} SurvivorsCount(s: seq<Element>, dead: set<VarId>, only: bool, x: Element)
    ensures multiset(Survivors(s, dead, only))[x] == if IsDeadVariable(x, dead, only) then 0 else multiset(s)[x]
    decreases |s|
  {
    if |s| > 0 {
      var init := s[..|s| - 1];
      SurvivorsCount(init, dead, only, x);
      assert s == init + [s[|s| - 1]];
    }
  }

  /** Something is removed exactly when some element is dead. */
  lemma {:induction false} SurvivorsShrink(s: seq<Element>, dead: set<VarId>, only: bool)
    ensures |Survivors(s, dead, only)| < |s| <==> exists i :: 0 <= i < |s| && IsDeadVariable(s[i], dead, only)
    decreases |s|
  {
    if |s| > 0 {
      var init := s[..|s| - 1];
      SurvivorsShrink(init, dead, only);
      if exists i :: 0 <= i < |init| && IsDeadVariable(init[i], dead, only) {
        var i :| 0 <= i < |init| && IsDeadVariable(init[i], dead, only);
        assert s[i] == init[i];
      }
      if exists i :: 0 <= i < |s| && IsDeadVariable(s[i], dead, only) {
        var i :| 0 <= i < |s| && IsDeadVariable(s[i], dead, only);
        if i < |s| - 1 {
          assert init[i] == s[i];
        }
      }
    }
  }

  /** Removing only private globals never removes more than removing every dead global. */
  lemma {:induction false} PrivateOnlyRemovesLess(s: seq<Element>, dead: set<VarId>)
    ensures |Survivors(s, dead, true)| >= |Survivors(s, dead, false)|
    decreases |s|
  {
    if |s| > 0 {
      PrivateOnlyRemovesLess(s[..|s| - 1], dead);
    }
  }

  /** `std::remove_if` followed by `erase`: the elements for which the test fails, in order. */
  method RemoveDead(s: seq<Element>, dead: set<VarId>, onlyPrivateGlobals: bool) returns (r: seq<Element>)
    ensures r == Survivors(s, dead, onlyPrivateGlobals)
  {
    r := [];
    var i := 0;
    while i < |s|
      invariant 0 <= i <= |s|
      invariant r == Survivors(s[..i], dead, onlyPrivateGlobals)
    {
      assert s[..i + 1][..i] == s[..i];
      if !IsDeadVariable(s[i], dead, onlyPrivateGlobals) {
        r := r + [s[i]];
      }
      i := i + 1;
    }
    assert s[..i] == s;
  }

  /** A module's elements. */
  class LoadedModule {
    var elements: seq<Element>

    constructor(elements: seq<Element>)
      ensures this.elements == elements
    {
      this.elements := elements;
    }

    /**
     * The module overload: with dead-variable removal switched on the dead
     * (and, if asked, private) globals go; the answer is whether the element
     * count went down.
     */
    method EliminateDeadGlobalVariables(removeDeadVariables: bool, dead: set<VarId>, onlyPrivateGlobals: bool)
      returns (changed: bool)
      modifies this
      ensures elements == if removeDeadVariables then Survivors(old(elements), dead, onlyPrivateGlobals) else old(elements)
      ensures changed <==> (removeDeadVariables &&
        exists i :: 0 <= i < |old(elements)| && IsDeadVariable(old(elements)[i], dead, onlyPrivateGlobals))
    {
      var numElements := |elements|;
      ghost var before := elements;
      if removeDeadVariables {
        elements := RemoveDead(elements, dead, onlyPrivateGlobals);
        SurvivorsShrink(before, dead, onlyPrivateGlobals);
      }
      changed := |elements| < numElements;
    }
  }

  /** A program's own elements and the elements it shares with its modules. */
  class Program {
    var ownedElements: seq<Element>
    var sharedElements: seq<Element>

    constructor(owned: seq<Element>, shared: seq<Element>)
      ensures ownedElements == owned && sharedElements == shared
    {
      ownedElements := owned;
      sharedElements := shared;
    }

    /**
     * The program overload: every dead global goes from both lists, private or
     * not; the answer is whether either list got shorter.
     */
    method EliminateDeadGlobalVariables(removeDeadVariables: bool, dead: set<VarId>) returns (changed: bool)
      modifies this
      ensures ownedElements == if removeDeadVariables then Survivors(old(ownedElements), dead, false) else old(ownedElements)
      ensures sharedElements == if removeDeadVariables then Survivors(old(sharedElements), dead, false) else old(sharedElements)
      ensures changed <==> (removeDeadVariables &&
        ((exists i :: 0 <= i < |old(ownedElements)| && IsDeadVariable(old(ownedElements)[i], dead, false)) ||
         (exists i :: 0 <= i < |old(sharedElements)| && IsDeadVariable(old(sharedElements)[i], dead, false))))
    {
      var numOwned := |ownedElements|;
      var numShared := |sharedElements|;
      ghost var owned0, shared0 := ownedElements, sharedElements;
      if removeDeadVariables {
        ownedElements := RemoveDead(ownedElements, dead, false);
        sharedElements := RemoveDead(sharedElements, dead, false);
        SurvivorsShrink(owned0, dead, false);
        SurvivorsShrink(shared0, dead, false);
      }
      changed := |ownedElements| < numOwned || |sharedElements| < numShared;
    }
  }
}
