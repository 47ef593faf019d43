/** The API server's ResourceSlice collection, as a client meets it. */
module ApiServer {
  import opened Wrappers
  import opened Slices
  import opened Identities
  import opened Coherence

  /**
   * What becomes of one call. A write may be refused, applied, or applied
   * with the response lost; `kept` is the server's own spelling of the spec.
   */
  datatype Answer = Refuse | Accept(kept: Spec) | LoseResponse(kept: Spec) | AlreadyGone

  datatype Deletion = Deleted | NotFound | Failed

  /** `t` is `s` with that spec written under `name`, in a spelling the canonical form absorbs. */
  ghost predicate Writes(id: Identity, s: Store, t: Store, name: string, owner: string, spec: Spec)
  {
    name in t && t == s[name := t[name]] && t[name].owners == [owner] && id.keeps(spec, t[name].spec)
  }

  /** A server with no trouble ahead stays so, and the call succeeds. */
  predicate Willing(before: seq<Answer>, after: seq<Answer>, success: bool)
  {
    before == [] ==> after == [] && success
  }

  class Server {
    var slices: Store
    var answers: seq<Answer>
    var clock: nat
    /** Every state the collection has been in, oldest first. */
    ghost var trace: seq<Store>

    ghost predicate Valid()
      reads this
    {
      trace != [] && trace[|trace| - 1] == slices
    }

    constructor (initial: Store, answers: seq<Answer>)
      ensures Valid() && slices == initial && trace == [initial]
    {
      slices := initial;
      this.answers := answers;
      clock := 0;
      trace := [initial];
    }

    method NextAnswer(spec: Spec) returns (a: Answer)
      modifies `answers
      ensures old(answers) == [] ==> answers == [] && a == Accept(spec)
    {
      if answers == [] {
        return Accept(spec);
      }
      a := answers[0];
      answers := answers[1..];
    }

    method Put(id: Identity, name: string, owner: string, spec: Spec, offered: Spec, uid: Option<nat>)
      requires Valid() && Lawful(id)
      modifies `slices, `clock, `trace
      ensures Valid() && Writes(id, old(slices), slices, name, owner, spec) && trace == old(trace) + [slices] && slices[name].uid == uid
    {
      assert EqualKept(id, spec, spec);
      var kept := if id.keeps(spec, offered) then offered else spec;
      slices := slices[name := Stored(uid, Some(clock), [owner], kept)];
      clock := clock + 1;
      trace := trace + [slices];
    }

    /** The slices of one driver and node, or nothing when the call fails. */
    method List(id: Identity) returns (r: Option<Store>)
      requires Valid()
      modifies `answers
      ensures Willing(old(answers), answers, r.Some?)
      ensures r.Some? ==>
        r.value == map name | name in slices && slices[name].spec.driver == id.driver && slices[name].spec.node == Some(id.node) :: slices[name]
    {
      var empty := Spec(id.driver, Some(id.node), Pool("", 0, 0), None, None);
      var a := NextAnswer(empty);
      if a.Refuse? {
        return None;
      }
      return Some(map name | name in slices && Owns(id, slices[name]) :: slices[name]);
    }

    method Create(id: Identity, name: string, owner: string, spec: Spec) returns (ok: bool)
      requires Valid() && Lawful(id)
      modifies this
      ensures Valid()
      ensures Willing(old(answers), answers, name !in old(slices) ==> ok)
      ensures ok ==> slices != old(slices)
      ensures slices != old(slices) ==> name !in old(slices) && Writes(id, old(slices), slices, name, owner, spec)
      ensures trace == if slices == old(slices) then old(trace) else old(trace) + [slices]
    {
      var a := NextAnswer(spec);
      if name in slices || a.Refuse? || a.AlreadyGone? {
        return false;
      }
      Put(id, name, owner, spec, a.kept, Some(clock));
      return a.Accept?;
    }

    /** An update conditional on the version the caller read; the slice keeps its uid. */
    method Replace(id: Identity, name: string, current: Stored, owner: string, spec: Spec) returns (ok: bool)
      requires Valid() && Lawful(id)
      modifies this
      ensures Valid()
      ensures Willing(old(answers), answers, name in old(slices) && old(slices)[name] == current ==> ok)
      ensures ok ==> Writes(id, old(slices), slices, name, owner, spec)
      ensures (trace == old(trace) && slices == old(slices)) ||
        (trace == old(trace) + [slices] && Writes(id, old(slices), slices, name, owner, spec) &&
         name in old(slices) && slices[name].uid == old(slices)[name].uid && (current.version.Some? ==> old(slices)[name].version == current.version))
    {
      var a := NextAnswer(spec);
      if name !in slices || a.Refuse? || a.AlreadyGone? || (current.version.Some? && slices[name].version != current.version) {
        return false;
      }
      Put(id, name, owner, spec, a.kept, slices[name].uid);
      return a.Accept?;
    }

    /** A deletion conditional on identity and version; another actor may have removed the slice first. */
    method Delete(name: string, uid: nat, version: nat) returns (r: Deletion)
      requires Valid()
      modifies this
      ensures Valid()
      ensures Willing(old(answers), answers,
        name in old(slices) && old(slices)[name].uid == Some(uid) && old(slices)[name].version == Some(version) ==> r.Deleted?)
      ensures !r.Failed? ==> name !in slices
      ensures slices == old(slices) || slices == old(slices) - {name}
      ensures r.Deleted? ==> name in old(slices) && old(slices)[name].uid == Some(uid) && old(slices)[name].version == Some(version)
      ensures (trace == old(trace) && slices == old(slices)) || trace == old(trace) + [slices]
    {
      var a := NextAnswer(Spec("", None, Pool("", 0, 0), None, None));
      if a.AlreadyGone? {
        slices := slices - {name};
        trace := trace + [slices];
        return NotFound;
      }
      if name !in slices {
        return NotFound;
      }
      if a.Refuse? || slices[name].uid != Some(uid) || slices[name].version != Some(version) {
        return Failed;
      }
      slices := slices - {name};
      trace := trace + [slices];
      return if a.Accept? then Deleted else Failed;
    }
  }
}
