/**
 * The fixup registry: `FixupManager` loads a fixup module by name, picks
 * the first class in it that strictly derives from `Fixup`, instantiates it
 * and memoises the object.
 *
 * The same manager text exists twice in the program, in fixup.py and in
 * _fixup.py, each with its own `Fixup` base class. A manager here records
 * which of the two bases its subclass test uses.
 */
module FixupRegistry {
  import opened Wrappers

  /** The two `Fixup` base classes: the one of fixup.py and the one of _fixup.py. */
  datatype Base = Public | Private

  /**
   * What `inspect.getmembers` shows of a module member: a class strictly
   * derived from one of the `Fixup` bases (with the name its `__init__`
   * passes to the base), one of the `Fixup` bases itself (imported into the
   * module), or anything else.
   */
  datatype MemberKind = Subclass(base: Base, fixupName: string) | BaseClass(base: Base) | Other

  /** A module member: its attribute name and what it is. */
  datatype Member = Member(name: string, kind: MemberKind)

  /** `inspect.isclass(obj) and issubclass(obj, Fixup) and obj != Fixup`. */
  predicate Qualifies(m: Member, base: Base) {
    m.kind.Subclass? && m.kind.base == base
  }

  /** The index of the first member that qualifies, in `getmembers` order. */
  function FirstQualifying(members: seq<Member>, base: Base, from: nat): (r: Option<nat>)
    requires from <= |members|
    ensures r.Some? ==>
      (&& from <= r.value < |members| && Qualifies(members[r.value], base)
       && forall j :: from <= j < r.value ==> !Qualifies(members[j], base))
    ensures r.None? ==> forall j :: from <= j < |members| ==> !Qualifies(members[j], base)
    decreases |members| - from
  {
    if from == |members| then None
    else if Qualifies(members[from], base) then Some(from)
    else FirstQualifying(members, base, from + 1)
  }

  /** An instance of a fixup class; `Fixup.__init__` records its name. */
  class Fixup {
    const name: string

    constructor (name: string)
      ensures this.name == name
    {
      this.name := name;
    }

    /** The base `run`: every call raises `NotImplementedError`. */
    method Run(dryrun: bool, verbose: bool) returns (raisedNotImplemented: bool)
      ensures raisedNotImplemented
    {
      return true;
    }
  }

  /** The outcome of `get_fixup`. */
  datatype Lookup = Found(obj: Fixup) | NoFixup | ImportFailed

  class FixupManager {
    /** The `Fixup` base the subclass test of this manager's file refers to. */
    const base: Base
    /** `_fixup_objects`: the loaded fixup objects by name. */
    var objects: map<string, Fixup>

    /** A new manager has an empty cache. */
    constructor (base: Base)
      ensures this.base == base && objects == map[]
    {
      this.base := base;
      objects := map[];
    }

    /**
     * `get_fixup(name)`, with the object cached under the requested name.
     * `modules(name)` is the imported module's members, or `None` when the
     * import fails.
     */
    method GetFixup(name: string, modules: string -> Option<seq<Member>>) returns (r: Lookup)
      modifies this
      ensures name in old(objects) ==> r == Found(old(objects)[name]) && objects == old(objects)
      ensures name !in old(objects) && modules(name).None? ==> r == ImportFailed && objects == old(objects)
      ensures name !in old(objects) && modules(name).Some? ==>
        var members := modules(name).value;
        match FirstQualifying(members, base, 0)
        case None => r == NoFixup && objects == old(objects)
        case Some(i) => r.Found? && fresh(r.obj) && r.obj.name == members[i].kind.fixupName
                        && objects == old(objects)[name := r.obj]
    {
      if name in objects {
        return Found(objects[name]);
      }
      var loaded := modules(name);
      if loaded.None? {
        return ImportFailed;
      }
      var members := loaded.value;
      var i := FindQualifying(members, base);
      if i.None? {
        return NoFixup;
      }
      var obj := new Fixup(members[i.value].kind.fixupName);
      objects := objects[name := obj];
      return Found(obj);
    }

    /**
     * `get_fixup(name)` as written: the loop variable rebinds `name`, so a
     * new object is cached under the member's attribute name.
     */
    method GetFixupAsWritten(name: string, modules: string -> Option<seq<Member>>) returns (r: Lookup)
      modifies this
      ensures name in old(objects) ==> r == Found(old(objects)[name]) && objects == old(objects)
      ensures name !in old(objects) && modules(name).None? ==> r == ImportFailed && objects == old(objects)
      ensures name !in old(objects) && modules(name).Some? ==>
        var members := modules(name).value;
        match FirstQualifying(members, base, 0)
        case None => r == NoFixup && objects == old(objects)
        case Some(i) => r.Found? && fresh(r.obj) && r.obj.name == members[i].kind.fixupName
                        && objects == old(objects)[members[i].name := r.obj]
    {
      if name in objects {
        return Found(objects[name]);
      }
      var loaded := modules(name);
      if loaded.None? {
        return ImportFailed;
      }
      var members := loaded.value;
      var i := FindQualifying(members, base);
      if i.None? {
        return NoFixup;
      }
      var obj := new Fixup(members[i.value].kind.fixupName);
      objects := objects[members[i.value].name := obj];
      return Found(obj);
    }
  }

  /** The `getmembers` loop: the first member that qualifies. */
  method FindQualifying(members: seq<Member>, base: Base) returns (r: Option<nat>)
    ensures r == FirstQualifying(members, base, 0)
  {
    for k := 0 to |members|
      invariant forall j :: 0 <= j < k ==> !Qualifies(members[j], base)
    {
      if Qualifies(members[k], base) {
        FirstQualifyingIsFirst(members, base, 0, k);
        return Some(k);
      }
    }
    FirstQualifyingNone(members, base, 0);
    return None;
  }

  /** The first qualifying index is the one a front-to-back search finds. */
  lemma {:induction false} FirstQualifyingIsFirst(members: seq<Member>, base: Base, from: nat, k: nat)
    requires from <= k < |members| && Qualifies(members[k], base)
    requires forall j :: from <= j < k ==> !Qualifies(members[j], base)
    ensures FirstQualifying(members, base, from) == Some(k)
    decreases k - from
  {
    if from < k {
      FirstQualifyingIsFirst(members, base, from + 1, k);
    }
  }

  /** When nothing qualifies, there is no first qualifying index. */
  lemma {:induction false} FirstQualifyingNone(members: seq<Member>, base: Base, from: nat)
    requires from <= |members|
    requires forall j :: from <= j < |members| ==> !Qualifies(members[j], base)
    ensures FirstQualifying(members, base, from) == None
    decreases |members| - from
  {
    if from < |members| {
      FirstQualifyingNone(members, base, from + 1);
    }
  }

  /**
   * A manager of _fixup.py finds nothing in a module whose fixup classes
   * all derive from the `Fixup` of fixup.py, as the fixups of the program
   * do: such a lookup imports the module and returns `None`.
   */
  lemma PrivateBaseFindsNoPublicFixup(members: seq<Member>)
    requires forall j :: 0 <= j < |members| ==> !members[j].kind.Subclass? || members[j].kind.base == Public
    ensures FirstQualifying(members, Private, 0) == None
  {
    FirstQualifyingNone(members, Private, 0);
  }

  /**
   * The corrected lookup memoises: the second request for a name returns
   * the object of the first, and the cache grows by at most that name.
   */
  method LookupTwice(m: FixupManager, name: string, modules: string -> Option<seq<Member>>)
    returns (first: Lookup, second: Lookup)
    modifies m
    ensures first.Found? ==> second == first && name in m.objects && m.objects[name] == first.obj
    ensures m.objects.Keys <= old(m.objects.Keys) + {name}
  {
    first := m.GetFixup(name, modules);
    second := m.GetFixup(name, modules);
  }

  /**
   * As written, when the chosen class's attribute name differs from the
   * requested fixup name, the second request misses the cache again and
   * creates a second, different object.
   */
  method LookupTwiceAsWritten(m: FixupManager, name: string, modules: string -> Option<seq<Member>>)
    returns (first: Lookup, second: Lookup)
    requires name !in m.objects && modules(name).Some?
    requires var i := FirstQualifying(modules(name).value, m.base, 0);
      i.Some? && modules(name).value[i.value].name != name
    modifies m
    ensures first.Found? && second.Found? && first.obj != second.obj
    ensures name !in m.objects
  {
    first := m.GetFixupAsWritten(name, modules);
    second := m.GetFixupAsWritten(name, modules);
  }

  /** A concrete module as the program's fixups look: the base is imported beside the fixup class. */
  lemma SyncTitleModuleExample()
    ensures var members := [Member("Fixup", BaseClass(Public)), Member("SyncTitle", Subclass(Public, "sync_title"))];
      && FirstQualifying(members, Public, 0) == Some(1)
      && members[1].name != "sync_title"
      && FirstQualifying(members, Private, 0) == None
  {
  }
}
