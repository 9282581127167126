// Pixel references: the process-wide generation-ID counter, lock counting with
// the subclass's lock/unlock hooks, lazily assigned generation IDs, and the
// name/factory registry searched newest-first (src/core/SkPixelRef.cpp).
module PixelRef {
  import opened Wrappers

  const TWO_31: int := 0x8000_0000
  const TWO_32: int := 0x1_0000_0000

  predicate IsInt32(x: int) { -TWO_31 <= x < TWO_31 }

  /** A 32-bit signed addition's result: the sum wrapped into [-2^31, 2^31). */
  function Wrap32(x: int): (r: int)
    ensures IsInt32(r)
    ensures (r - x) % TWO_32 == 0
    ensures IsInt32(x) ==> r == x
  {
    (x + TWO_31) % TWO_32 - TWO_31
  }

  /**
   * The ID that follows `last`: one more, wrapping at 2^31, skipping 0 (when
   * `last` is -1 the increment gives 0 and the loop increments once more).
   */
  function NextID(last: int): (r: int)
    requires IsInt32(last)
    ensures IsInt32(r) && r != 0
    ensures r != last
    ensures last != -1 ==> r == Wrap32(last + 1)
  {
    if Wrap32(last + 1) == 0 then Wrap32(last + 2) else Wrap32(last + 1)
  }

  /** The static counter behind `SkNextPixelRefGenerationID`. */
  class GenerationIDs {
    var last: int

    constructor()
      ensures last == 0
    {
      last := 0;
    }

    /** The atomic increment: the counter moves on by one (wrapping) and the new value is returned. */
    method Increment() returns (v: int)
      requires IsInt32(last)
      modifies this
      ensures last == Wrap32(old(last) + 1) && v == last
    {
      last := Wrap32(last + 1);
      v := last;
    }

    /** `SkNextPixelRefGenerationID`: increments until the value is not 0, so 0 is never returned. */
    method Next() returns (genID: int)
      requires IsInt32(last)
      modifies this
      ensures genID != 0 && IsInt32(genID) && genID == last
      ensures genID == NextID(old(last))
    {
      ghost var start := last;
      genID := Increment();
      while genID == 0
        invariant IsInt32(last) && genID == last
        invariant genID == Wrap32(start + 1) || (Wrap32(start + 1) == 0 && genID == Wrap32(start + 2))
        decreases if genID == 0 then 1 else 0
      {
        genID := Increment();
        assert genID == 1;
      }
    }
  }

  /** The lock count a pre-locked ref keeps for its whole life. */
  const PreLockedLockCount: int := 123456789

  /** A pixel address or colour table as an opaque handle; None is NULL. */
  type Handle = Option<nat>

  class PixelRef {
    var pixels: Handle
    var colorTable: Handle
    var lockCount: int
    var generationID: int
    var isImmutable: bool
    var preLocked: bool
    /** How many times the subclass's lock and unlock hooks have run. */
    var lockHookCalls: nat
    var unlockHookCalls: nat

    /**
     * A pre-locked ref holds the fixed count; otherwise the count is never
     * negative, and at 0 no pixels or table are held.
     */
    predicate Valid()
      reads this
    {
      IsInt32(generationID) &&
      (preLocked ==> lockCount == PreLockedLockCount) &&
      (!preLocked ==> lockCount >= 0 && (lockCount == 0 ==> pixels.None? && colorTable.None?))
    }

    /** A new ref: unlocked, no pixels, generation 0 (to be assigned on first request). */
    constructor(immutable: bool)
      ensures Valid()
      ensures pixels == None && colorTable == None && lockCount == 0 && generationID == 0
      ensures isImmutable == immutable && !preLocked && lockHookCalls == 0 && unlockHookCalls == 0
    {
      pixels := None;
      colorTable := None;
      lockCount := 0;
      generationID := 0;
      isImmutable := immutable;
      preLocked := false;
      lockHookCalls := 0;
      unlockHookCalls := 0;
    }

    /** Installs pixels that stay locked: the fixed count, and no lock counting from now on. */
    method SetPreLocked(px: Handle, ctable: Handle)
      requires Valid()
      modifies this
      ensures Valid()
      ensures pixels == px && colorTable == ctable && lockCount == PreLockedLockCount && preLocked
      ensures generationID == old(generationID) && isImmutable == old(isImmutable)
      ensures lockHookCalls == old(lockHookCalls) && unlockHookCalls == old(unlockHookCalls)
    {
      pixels := px;
      colorTable := ctable;
      lockCount := PreLockedLockCount;
      preLocked := true;
    }

    /**
     * Counts one more lock; only the first lock runs the subclass hook, whose
     * pixels and table (`hook`) the ref then holds. A pre-locked ref is untouched.
     */
    method LockPixels(hook: (Handle, Handle))
      requires Valid()
      modifies this
      ensures Valid()
      ensures preLocked == old(preLocked) && generationID == old(generationID) && isImmutable == old(isImmutable)
      ensures unlockHookCalls == old(unlockHookCalls)
      ensures old(preLocked) ==>
        (lockCount == old(lockCount) && pixels == old(pixels) &&
         colorTable == old(colorTable) && lockHookCalls == old(lockHookCalls))
      ensures !old(preLocked) ==> lockCount == old(lockCount) + 1
      ensures !old(preLocked) && old(lockCount) == 0 ==>
        pixels == hook.0 && colorTable == hook.1 && lockHookCalls == old(lockHookCalls) + 1
      ensures !old(preLocked) && old(lockCount) > 0 ==>
        pixels == old(pixels) && colorTable == old(colorTable) && lockHookCalls == old(lockHookCalls)
    {
      if !preLocked {
        lockCount := lockCount + 1;
        if lockCount == 1 {
          pixels, colorTable := hook.0, hook.1;
          lockHookCalls := lockHookCalls + 1;
        }
      }
    }

    /**
     * Counts one lock less; the last unlock runs the subclass hook and drops
     * the pixels and table. A pre-locked ref is untouched. Unlocking a ref that
     * is not locked is a caller error.
     */
    method UnlockPixels()
      requires Valid()
      requires !preLocked ==> lockCount > 0
      modifies this
      ensures Valid()
      ensures preLocked == old(preLocked) && generationID == old(generationID) && isImmutable == old(isImmutable)
      ensures lockHookCalls == old(lockHookCalls)
      ensures old(preLocked) ==>
        (lockCount == old(lockCount) && pixels == old(pixels) &&
         colorTable == old(colorTable) && unlockHookCalls == old(unlockHookCalls))
      ensures !old(preLocked) ==> lockCount == old(lockCount) - 1
      ensures !old(preLocked) && old(lockCount) == 1 ==>
        pixels == None && colorTable == None && unlockHookCalls == old(unlockHookCalls) + 1
      ensures !old(preLocked) && old(lockCount) > 1 ==>
        pixels == old(pixels) && colorTable == old(colorTable) && unlockHookCalls == old(unlockHookCalls)
    {
      if !preLocked {
        lockCount := lockCount - 1;
        if lockCount == 0 {
          unlockHookCalls := unlockHookCalls + 1;
          pixels, colorTable := None, None;
        }
      }
    }

    /**
     * The generation ID: assigned from the global counter on first request (or
     * after a change was signalled), and then the same on every request.
     */
    method GetGenerationID(ids: GenerationIDs) returns (id: int)
      requires Valid() && IsInt32(ids.last)
      modifies this, ids
      ensures Valid() && IsInt32(ids.last)
      ensures id != 0 && id == generationID
      ensures old(generationID) != 0 ==> id == old(generationID) && ids.last == old(ids.last)
      ensures old(generationID) == 0 ==> id == NextID(old(ids.last)) && ids.last == id
      ensures pixels == old(pixels) && colorTable == old(colorTable) && lockCount == old(lockCount)
      ensures isImmutable == old(isImmutable) && preLocked == old(preLocked)
      ensures lockHookCalls == old(lockHookCalls) && unlockHookCalls == old(unlockHookCalls)
    {
      if generationID == 0 {
        generationID := ids.Next();
      }
      id := generationID;
    }

    /** Signals that the pixels changed: the next request gets a new generation ID. */
    method NotifyPixelsChanged()
      requires Valid()
      modifies this
      ensures Valid()
      ensures generationID == 0
      ensures pixels == old(pixels) && colorTable == old(colorTable) && lockCount == old(lockCount)
      ensures isImmutable == old(isImmutable) && preLocked == old(preLocked)
      ensures lockHookCalls == old(lockHookCalls) && unlockHookCalls == old(unlockHookCalls)
    {
      generationID := 0;
    }

    method SetImmutable()
      requires Valid()
      modifies this
      ensures Valid()
      ensures isImmutable
      ensures pixels == old(pixels) && colorTable == old(colorTable) && lockCount == old(lockCount)
      ensures generationID == old(generationID) && preLocked == old(preLocked)
      ensures lockHookCalls == old(lockHookCalls) && unlockHookCalls == old(unlockHookCalls)
    {
      isImmutable := true;
    }
  }

  /** Two requests with no change signalled between them give the same, nonzero ID. */
  method GenerationIDStable(ref: PixelRef, ids: GenerationIDs) returns (first: int, second: int)
    requires ref.Valid() && IsInt32(ids.last)
    modifies ref, ids
    ensures first == second && first != 0
  {
    first := ref.GetGenerationID(ids);
    second := ref.GetGenerationID(ids);
  }

  /**
   * After a change is signalled, the next request draws the counter's next ID.
   * It differs from the one before when that one was drawn just now or was the
   * last one issued; an older ID can come round again once the counter wraps.
   */
  method GenerationIDRenewed(ref: PixelRef, ids: GenerationIDs) returns (before: int, after: int)
    requires ref.Valid() && IsInt32(ids.last)
    modifies ref, ids
    ensures before != 0 && after != 0
    ensures before == if old(ref.generationID) == 0 then NextID(old(ids.last)) else old(ref.generationID)
    ensures after == NextID(if old(ref.generationID) == 0 then NextID(old(ids.last)) else old(ids.last))
    ensures old(ref.generationID) == 0 || old(ref.generationID) == old(ids.last) ==> before != after
  {
    before := ref.GetGenerationID(ids);
    ref.NotifyPixelsChanged();
    after := ref.GetGenerationID(ids);
  }

  /** A registration: a class name and its (non-null) factory, as an opaque handle. */
  datatype Pair = Pair(name: string, factory: nat)

  const MaxPairCount: int := 16

  /** The registry: a fixed array of 16 pairs of which the first `count` are registered. */
  class Registry {
    const pairs: array<Pair>
    var count: int
    var once: bool

    predicate Valid()
      reads this
    {
      pairs.Length == MaxPairCount && 0 <= count <= MaxPairCount
    }

    constructor()
      ensures Valid() && count == 0 && !once
    {
      pairs := new Pair[MaxPairCount](_ => Pair("", 0));
      count := 0;
      once := false;
    }

    /** The registered pairs, oldest first. */
    function Registered(): seq<Pair>
      requires Valid()
      reads this, pairs
    {
      pairs[..count]
    }

    /**
     * Appends a pair; the first registration starts from an empty registry.
     * Registering past the 16 slots is a caller error.
     */
    method Register(name: string, factory: nat)
      requires Valid()
      requires once ==> count < MaxPairCount
      modifies this, pairs
      ensures Valid() && once
      ensures Registered() == (if old(once) then old(Registered()) else []) + [Pair(name, factory)]
    {
      if !once {
        count := 0;
        once := true;
      }
      pairs[count] := Pair(name, factory);
      count := count + 1;
    }

    /** The factory most recently registered under `name`, or None when the name was never registered. */
    method NameToFactory(name: string) returns (r: Option<nat>)
      requires Valid()
      ensures r.Some? ==>
        (exists i :: 0 <= i < count && pairs[i] == Pair(name, r.value) &&
           forall j :: i < j < count ==> pairs[j].name != name)
      ensures r.None? ==> forall i :: 0 <= i < count ==> pairs[i].name != name
    {
      var i := count - 1;
      while i >= 0
        invariant -1 <= i < count
        invariant forall j :: i < j < count ==> pairs[j].name != name
      {
        if pairs[i].name == name {
          return Some(pairs[i].factory);
        }
        i := i - 1;
      }
      return None;
    }

    /** The name most recently registered with `factory`, or None when it was never registered. */
    method FactoryToName(factory: nat) returns (r: Option<string>)
      requires Valid()
      ensures r.Some? ==>
        (exists i :: 0 <= i < count && pairs[i] == Pair(r.value, factory) &&
           forall j :: i < j < count ==> pairs[j].factory != factory)
      ensures r.None? ==> forall i :: 0 <= i < count ==> pairs[i].factory != factory
    {
      var i := count - 1;
      while i >= 0
        invariant -1 <= i < count
        invariant forall j :: i < j < count ==> pairs[j].factory != factory
      {
        if pairs[i].factory == factory {
          return Some(pairs[i].name);
        }
        i := i - 1;
      }
      return None;
    }
  }

  /** A name registered last is found with the factory it was registered with, and that factory's name is found again. */
  method RegisterThenLookUp(reg: Registry, name: string, factory: nat) returns (f: Option<nat>, n: Option<string>)
    requires reg.Valid() && (reg.once ==> reg.count < MaxPairCount)
    modifies reg, reg.pairs
    ensures f == Some(factory) && n == Some(name)
  {
    reg.Register(name, factory);
    f := reg.NameToFactory(name);
    n := reg.FactoryToName(factory);
  }
}
