/**
 * The registry of mapper interfaces: a map from each known interface to the
 * factory that builds its proxies, filled by addMapper and addMappers and read
 * by hasMapper, getMappers and getMapper.
 */
module Binding {
  import opened Common

  /**
   * A Java class object. Two classes are the same exactly when their names
   * are (one class loader); the registry only asks whether it is an interface.
   */
  datatype JavaType = JavaType(name: string, isInterface: bool)

  /** A MapperProxyFactory, which remembers the interface it was built for. */
  datatype MapperProxyFactory = MapperProxyFactory(mapperInterface: JavaType)

  /** A session, known only by its identity. */
  datatype SqlSession = SqlSession(ref: nat)

  /** A mapper proxy, bound to its interface and to the session it serves. */
  datatype MapperProxy = MapperProxy(mapperInterface: JavaType, session: SqlSession)

  /** The exceptions the registry lets out. */
  datatype RegistryError =
      // BindingException: "Type ... is not known to the MapperRegistry."
    | TypeNotKnown(t: JavaType)
      // BindingException: "Type ... is already known to the MapperRegistry."
    | TypeAlreadyKnown(t: JavaType)
      // BindingException: "Error getting mapper instance. Cause: ..."
    | InstanceCreationFailed(t: JavaType)
      // whatever MapperAnnotationBuilder.parse threw, passed on unchanged
    | ParseFailed(t: JavaType)

  /** Every registered type is an interface and is mapped to its own factory. */
  ghost predicate WellKeyed(known: map<JavaType, MapperProxyFactory>) {
    forall t :: t in known ==> t.isInterface && known[t] == MapperProxyFactory(t)
  }

  /** The registry and the exception, if any, after one or more addMapper calls. */
  datatype Step = Step(known: map<JavaType, MapperProxyFactory>, error: Option<RegistryError>)

  /**
   * One addMapper call. The parser is an oracle: it is handed the type and the
   * key set it sees while it runs, which already holds the type itself.
   */
  function AddStep(known: map<JavaType, MapperProxyFactory>, t: JavaType,
                   parse: (JavaType, set<JavaType>) -> bool): (r: Step)
    // an exception and a changed registry never come together
    ensures r.error.Some? ==> r.known == known
    // a call returns normally exactly for a non-interface, or a new interface that parses
    ensures r.error.None? <==> !t.isInterface || (t !in known && parse(t, known.Keys + {t}))
    // a duplicate is refused ...
    ensures t.isInterface && t in known ==> r.error == Some(TypeAlreadyKnown(t))
    // ... and a parse failure is passed on
    ensures t.isInterface && t !in known && !parse(t, known.Keys + {t}) ==> r.error == Some(ParseFailed(t))
    // after a normal return an interface is registered with its own factory
    ensures r.error.None? && t.isInterface ==> t in r.known && r.known[t] == MapperProxyFactory(t)
    // no other entry is touched, and a non-interface changes nothing
    ensures forall u :: u != t ==> (u in r.known <==> u in known)
    ensures forall u :: u != t && u in known ==> r.known[u] == known[u]
    ensures !t.isInterface ==> r.known == known
    ensures WellKeyed(known) ==> WellKeyed(r.known)
  {
    if !t.isInterface then Step(known, None)
    else if t in known then Step(known, Some(TypeAlreadyKnown(t)))
    else
      var inserted := known[t := MapperProxyFactory(t)];
      assert inserted.Keys == known.Keys + {t};
      if parse(t, inserted.Keys) then Step(inserted, None)
      else Step(inserted - {t}, Some(ParseFailed(t)))
  }

  /** addMapper on each element of found in turn, stopping at the first exception. */
  function AddAll(known: map<JavaType, MapperProxyFactory>, found: seq<JavaType>,
                  parse: (JavaType, set<JavaType>) -> bool): Step
    decreases |found|
  {
    if found == [] then Step(known, None)
    else
      var before := AddAll(known, found[..|found| - 1], parse);
      if before.error.Some? then before else AddStep(before.known, found[|found| - 1], parse)
  }

  /** Once an exception is raised, the remaining elements are not looked at. */
  lemma {:induction false} AddAllStops(known: map<JavaType, MapperProxyFactory>, found: seq<JavaType>,
                                       parse: (JavaType, set<JavaType>) -> bool, k: nat)
    requires k <= |found|
    requires AddAll(known, found[..k], parse).error.Some?
    ensures AddAll(known, found, parse) == AddAll(known, found[..k], parse)
    decreases |found|
  {
    if k < |found| {
      var init := found[..|found| - 1];
      assert init[..k] == found[..k];
      AddAllStops(known, init, parse, k);
    } else {
      assert found[..k] == found;
    }
  }

  /** Registered types stay registered, with the same factory, whatever happens later. */
  lemma {:induction false} AddAllGrows(known: map<JavaType, MapperProxyFactory>, found: seq<JavaType>,
                                       parse: (JavaType, set<JavaType>) -> bool)
    ensures known.Keys <= AddAll(known, found, parse).known.Keys
    ensures forall u :: u in known ==> AddAll(known, found, parse).known[u] == known[u]
    decreases |found|
  {
    if found != [] {
      AddAllGrows(known, found[..|found| - 1], parse);
    }
  }

  /** Only found types are ever added. */
  lemma {:induction false} AddAllAddsOnlyFound(known: map<JavaType, MapperProxyFactory>, found: seq<JavaType>,
                                               parse: (JavaType, set<JavaType>) -> bool)
    ensures forall u :: u in AddAll(known, found, parse).known ==> u in known || u in found
    decreases |found|
  {
    if found != [] {
      var init := found[..|found| - 1];
      AddAllAddsOnlyFound(known, init, parse);
      assert forall u :: u in init ==> u in found;
    }
  }

  lemma {:induction false} AddAllWellKeyed(known: map<JavaType, MapperProxyFactory>, found: seq<JavaType>,
                                           parse: (JavaType, set<JavaType>) -> bool)
    requires WellKeyed(known)
    ensures WellKeyed(AddAll(known, found, parse).known)
    decreases |found|
  {
    if found != [] {
      AddAllWellKeyed(known, found[..|found| - 1], parse);
    }
  }

  /**
   * Each element handled before the run stopped is in the registry afterwards
   * when it is an interface: the work done before an exception is kept.
   */
  lemma {:induction false} AddAllKeepsProcessed(known: map<JavaType, MapperProxyFactory>, found: seq<JavaType>,
                                                parse: (JavaType, set<JavaType>) -> bool, j: nat)
    requires j < |found| && found[j].isInterface
    requires AddAll(known, found[..j + 1], parse).error.None?
    ensures found[j] in AddAll(known, found, parse).known
    decreases |found|
  {
    var prefix := found[..j + 1];
    assert prefix[..j] == found[..j];
    assert prefix[j] == found[j];
    assert found[j] in AddAll(known, prefix, parse).known;
    var rest := found[j + 1..];
    AddAllSplit(known, prefix, rest, parse);
    assert prefix + rest == found;
    AddAllGrows(AddAll(known, prefix, parse).known, rest, parse);
  }

  /** Running found after a prefix that raised nothing is running the whole sequence. */
  lemma {:induction false} AddAllSplit(known: map<JavaType, MapperProxyFactory>, a: seq<JavaType>, b: seq<JavaType>,
                                       parse: (JavaType, set<JavaType>) -> bool)
    requires AddAll(known, a, parse).error.None?
    ensures AddAll(known, a + b, parse) == AddAll(AddAll(known, a, parse).known, b, parse)
    decreases |b|
  {
    if b == [] {
      assert a + b == a;
    } else {
      var b' := b[..|b| - 1];
      assert (a + b)[..|a + b| - 1] == a + b';
      assert (a + b)[|a + b| - 1] == b[|b| - 1];
      AddAllSplit(known, a, b', parse);
    }
  }

  /** An interface that was registered before the call makes the whole call fail. */
  lemma {:induction false} AddAllRejectsKnown(known: map<JavaType, MapperProxyFactory>, found: seq<JavaType>,
                                              parse: (JavaType, set<JavaType>) -> bool, j: nat)
    requires j < |found| && found[j].isInterface && found[j] in known
    ensures AddAll(known, found, parse).error.Some?
  {
    var prefix := found[..j + 1];
    assert prefix[..j] == found[..j];
    assert prefix[j] == found[j];
    var before := AddAll(known, found[..j], parse);
    if before.error.None? {
      AddAllGrows(known, found[..j], parse);
      assert AddAll(known, prefix, parse).error.Some?;
    } else {
      assert AddAll(known, prefix, parse) == before;
    }
    AddAllStops(known, found, parse, j + 1);
  }

  /** When nothing is raised, every found interface is registered with its own factory. */
  lemma {:induction false} AddAllRegistersAll(known: map<JavaType, MapperProxyFactory>, found: seq<JavaType>,
                                              parse: (JavaType, set<JavaType>) -> bool)
    requires AddAll(known, found, parse).error.None?
    ensures forall u :: u in found && u.isInterface ==>
      u in AddAll(known, found, parse).known && AddAll(known, found, parse).known[u] == MapperProxyFactory(u)
    decreases |found|
  {
    if found != [] {
      var init := found[..|found| - 1];
      var last := found[|found| - 1];
      AddAllRegistersAll(known, init, parse);
      assert found == init + [last];
    }
  }

  /** The registry: MapperRegistry with its knownMappers map. */
  class MapperRegistry {
    var knownMappers: map<JavaType, MapperProxyFactory>

    ghost predicate Valid()
      reads this
    {
      WellKeyed(knownMappers)
    }

    constructor ()
      ensures knownMappers == map[]
      ensures Valid()
    {
      knownMappers := map[];
    }

    /** hasMapper: whether addMapper has registered the type. */
    predicate HasMapper(t: JavaType)
      reads this
    {
      t in knownMappers
    }

    /** getMappers: the registered types, which are exactly those hasMapper reports. */
    function GetMappers(): (r: set<JavaType>)
      reads this
      ensures forall t :: t in r <==> HasMapper(t)
      ensures Valid() ==> forall t :: t in r ==> t.isInterface
    {
      knownMappers.Keys
    }

    /**
     * getMapper: the unknown-type error, or a proxy built by the type's
     * factory; proxy creation is an oracle that either succeeds or fails.
     */
    method GetMapper(t: JavaType, session: SqlSession, creates: MapperProxyFactory -> bool)
      returns (r: Result<MapperProxy, RegistryError>)
      requires Valid()
      ensures !HasMapper(t) ==> r == Failure(TypeNotKnown(t))
      ensures HasMapper(t) && creates(MapperProxyFactory(t)) ==> r == Success(MapperProxy(t, session))
      ensures HasMapper(t) && !creates(MapperProxyFactory(t)) ==> r == Failure(InstanceCreationFailed(t))
    {
      if t !in knownMappers {
        return Failure(TypeNotKnown(t));
      }
      var factory := knownMappers[t];
      if creates(factory) {
        r := Success(MapperProxy(factory.mapperInterface, session));
      } else {
        r := Failure(InstanceCreationFailed(t));
      }
    }

    /**
     * addMapper: a non-interface is ignored, a known interface is refused, a
     * new one is registered before the parser runs and removed again when
     * the parser does not complete.
     */
    method AddMapper(t: JavaType, parse: (JavaType, set<JavaType>) -> bool) returns (r: Option<RegistryError>)
      requires Valid()
      modifies this`knownMappers
      ensures knownMappers == AddStep(old(knownMappers), t, parse).known
      ensures r == AddStep(old(knownMappers), t, parse).error
      ensures Valid()
    {
      r := None;
      if t.isInterface {
        if HasMapper(t) {
          return Some(TypeAlreadyKnown(t));
        }
        var loadCompleted := false;
        knownMappers := knownMappers[t := MapperProxyFactory(t)];
        if parse(t, knownMappers.Keys) {
          loadCompleted := true;
        } else {
          r := Some(ParseFailed(t));
        }
        if !loadCompleted {
          knownMappers := knownMappers - {t};
        }
      }
    }

    /** addMappers over the types the scan found, in the order the set yields them. */
    method AddMappers(found: seq<JavaType>, parse: (JavaType, set<JavaType>) -> bool) returns (r: Option<RegistryError>)
      requires Valid()
      modifies this`knownMappers
      ensures knownMappers == AddAll(old(knownMappers), found, parse).known
      ensures r == AddAll(old(knownMappers), found, parse).error
      ensures Valid()
    {
      var i := 0;
      while i < |found|
        invariant 0 <= i <= |found|
        invariant AddAll(old(knownMappers), found[..i], parse) == Step(knownMappers, None)
        invariant Valid()
      {
        assert found[..i + 1][..i] == found[..i];
        assert found[..i + 1][i] == found[i];
        r := AddMapper(found[i], parse);
        if r.Some? {
          AddAllStops(old(knownMappers), found, parse, i + 1);
          return;
        }
        i := i + 1;
      }
      assert found[..i] == found;
      r := None;
    }
  }
}
