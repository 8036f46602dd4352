/**
 The entity factory's identifier bookkeeping: every registration appends the
 identifier to a process-wide list, and patching the static packet cache
 pushes that whole list onto the cache's `idlist`.
 */
module EntityFactory {

  /**
   The factory's state: the `actorIdentifiers` list, one entry per
   registration, in registration order. Each entry is the compound `{id: …}`,
   represented by its identifier.
   */
  datatype Factory = Factory(actorIdentifiers: seq<string>)

  /** The factory before any registration. */
  const Initial := Factory([])

  /**
   `registerEntity(className, identifier)`. It first hands the class to the
   host's entity factory; `accepted` says whether that call returned. If it
   throws (the host rejects the registration), the exception propagates
   before the append and the list is unchanged.
   */
  function RegisterEntity(f: Factory, identifier: string, accepted: bool): (r: Factory)
    ensures !accepted ==> r == f
    ensures accepted ==> |r.actorIdentifiers| == |f.actorIdentifiers| + 1
    ensures accepted ==> r.actorIdentifiers[..|f.actorIdentifiers|] == f.actorIdentifiers
    ensures accepted ==> r.actorIdentifiers[|f.actorIdentifiers|] == identifier
  {
    if accepted then Factory(f.actorIdentifiers + [identifier]) else f
  }

  /** A sequence of registrations the host accepts, in order. */
  function RegisterAll(f: Factory, identifiers: seq<string>): Factory
    decreases |identifiers|
  {
    if |identifiers| == 0 then f
    else RegisterAll(RegisterEntity(f, identifiers[0], true), identifiers[1..])
  }

  /** The cache's loop: `push` each entry, in order, onto the end of the list. */
  function PushAll(list: seq<string>, entries: seq<string>): (r: seq<string>)
    ensures r == list + entries
    decreases |entries|
  {
    if |entries| == 0 then list
    else PushAll(list + [entries[0]], entries[1..])
  }

  /** `updateStaticPacketCache`: the cache's `idlist` after the patch. */
  function UpdateStaticPacketCache(f: Factory, idlist: seq<string>): (r: seq<string>)
    ensures |r| == |idlist| + |f.actorIdentifiers|
    ensures r[..|idlist|] == idlist
    ensures forall k :: 0 <= k < |f.actorIdentifiers| ==> r[|idlist| + k] == f.actorIdentifiers[k]
  {
    PushAll(idlist, f.actorIdentifiers)
  }

  /** Registrations accumulate exactly the registered identifiers, in registration order, duplicates included. */
  lemma {:induction false} RegisterAllAppends(f: Factory, identifiers: seq<string>)
    ensures RegisterAll(f, identifiers).actorIdentifiers == f.actorIdentifiers + identifiers
    decreases |identifiers|
  {
    if |identifiers| > 0 {
      RegisterAllAppends(RegisterEntity(f, identifiers[0], true), identifiers[1..]);
      assert f.actorIdentifiers + [identifiers[0]] + identifiers[1..] == f.actorIdentifiers + identifiers;
    }
  }

  /**
   Registering the same identifier twice records it once per call the host
   accepts: twice when it accepts both, since there is no deduplication.
   */
  lemma RepeatedRegistrationKept(f: Factory, identifier: string, first: bool, second: bool)
    ensures var r := RegisterEntity(RegisterEntity(f, identifier, first), identifier, second);
            multiset(r.actorIdentifiers)[identifier]
              == multiset(f.actorIdentifiers)[identifier] + (if first then 1 else 0) + (if second then 1 else 0)
  {
  }

  /** After a patch, every entry already in the cache is still there, at the same position. */
  lemma PatchKeepsExisting(f: Factory, idlist: seq<string>)
    ensures forall k :: 0 <= k < |idlist| ==> UpdateStaticPacketCache(f, idlist)[k] == idlist[k]
  {
  }

  /** With nothing registered, the patch leaves the cache's list unchanged. */
  lemma PatchWithoutRegistrations(idlist: seq<string>)
    ensures UpdateStaticPacketCache(Initial, idlist) == idlist
  {
  }

  /** The patch does not clear the factory's list, so patching twice appends every identifier twice. */
  lemma PatchTwice(f: Factory, idlist: seq<string>)
    ensures UpdateStaticPacketCache(f, UpdateStaticPacketCache(f, idlist)) == idlist + f.actorIdentifiers + f.actorIdentifiers
    ensures |f.actorIdentifiers| > 0 ==>
      UpdateStaticPacketCache(f, UpdateStaticPacketCache(f, idlist)) != UpdateStaticPacketCache(f, idlist)
  {
  }

  /**
   The identifier occurrences after registering a list and patching: each
   identifier appears as often as it was already in the cache plus as often
   as it was registered.
   */
  lemma RegisterThenPatch(idlist: seq<string>, identifiers: seq<string>, identifier: string)
    ensures var r := UpdateStaticPacketCache(RegisterAll(Initial, identifiers), idlist);
            r == idlist + identifiers
            && multiset(r)[identifier] == multiset(idlist)[identifier] + multiset(identifiers)[identifier]
  {
    RegisterAllAppends(Initial, identifiers);
    assert Initial.actorIdentifiers + identifiers == identifiers;
    assert UpdateStaticPacketCache(RegisterAll(Initial, identifiers), idlist) == idlist + identifiers;
  }
}
