/** One collection of the document store, as the handlers use it through
    the model: create with validation, lookup by id, update with
    `runValidators`, delete. Ids are drawn from a counter that stands for
    ObjectId generation. `fault` stands for any failure of the database
    other than validation and duplicate keys: an id that is not an
    ObjectId, a lost connection. */
module Store {
  import opened Js
  import opened Schema

  datatype Failure = Invalid(errors: seq<FieldErr>) | CastFailed | Duplicate | Fault

  datatype Outcome<T> = Done(value: T) | Failed(failure: Failure)

  /** Some stored document other than `except` clashes with `d` on a unique path. */
  predicate ClashesWithStored(rules: Rules, d: Body, docs: map<nat, Body>, except: Option<nat>)
  {
    exists id :: id in docs && Some(id) != except && Clash(rules, d, docs[id])
  }

  lemma ClashSymmetric(rules: Rules, d1: Body, d2: Body)
    ensures Clash(rules, d1, d2) <==> Clash(rules, d2, d1)
  {
    if Clash(rules, d1, d2) {
      var k :| 0 <= k < |rules| && rules[k].unique
        && rules[k].path in d1 && rules[k].path in d2 && d1[rules[k].path] == d2[rules[k].path];
      assert rules[k].unique && rules[k].path in d2 && rules[k].path in d1 && d2[rules[k].path] == d1[rules[k].path];
    }
    if Clash(rules, d2, d1) {
      var k :| 0 <= k < |rules| && rules[k].unique
        && rules[k].path in d2 && rules[k].path in d1 && d2[rules[k].path] == d1[rules[k].path];
      assert rules[k].unique && rules[k].path in d1 && rules[k].path in d2 && d1[rules[k].path] == d2[rules[k].path];
    }
  }

  /** Storing `d` under `id` keeps the unique index intact when no other
      stored document clashes with it. */
  lemma StoreKeepsUnique(rules: Rules, docs: map<nat, Body>, id: nat, d: Body)
    requires UniqueHeld(rules, docs)
    requires !ClashesWithStored(rules, d, docs, Some(id))
    ensures UniqueHeld(rules, docs[id := d])
  {
    var nd := docs[id := d];
    forall a, b | a in nd && b in nd && a != b ensures !Clash(rules, nd[a], nd[b]) {
      if a == id {
        assert b in docs && Some(b) != Some(id);
      } else if b == id {
        assert a in docs && Some(a) != Some(id);
        ClashSymmetric(rules, nd[a], nd[b]);
      }
    }
  }

  class Collection {
    const rules: Rules
    /** The uniqueness plugin's message, when the schema installs it. */
    const plugin: Option<Template>
    var docs: map<nat, Body>
    var nextId: nat

    ghost predicate Valid()
      reads this
    {
      && WellFormed(rules)
      && (forall id :: id in docs ==> id < nextId)
      && UniqueHeld(rules, docs)
    }

    constructor (rules: Rules, plugin: Option<Template>)
      requires WellFormed(rules)
      ensures Valid()
      ensures this.rules == rules && this.plugin == plugin && docs == map[]
    {
      this.rules := rules;
      this.plugin := plugin;
      docs := map[];
      nextId := 0;
    }

    /** `Model.create(body)`: build the document, validate it (the plugin
        consults the stored documents), then insert it unless the unique
        index refuses it or the database fails. */
    method Create(body: Body, now: nat, fault: bool) returns (r: Outcome<(nat, Body)>)
      requires Valid()
      modifies this
      ensures Valid()
      ensures var d := Build(rules, body, now);
              var errs := Errors(rules, d, old(docs), plugin);
              if errs != [] then r == Failed(Invalid(errs)) && docs == old(docs)
              else if fault then r == Failed(Fault) && docs == old(docs)
              else if ClashesWithStored(rules, d, old(docs), None) then r == Failed(Duplicate) && docs == old(docs)
              else r == Done((old(nextId), d)) && old(nextId) !in old(docs) && docs == old(docs)[old(nextId) := d]
    {
      var d := Build(rules, body, now);
      var errs := Errors(rules, d, docs, plugin);
      if errs != [] {
        return Failed(Invalid(errs));
      }
      if fault {
        return Failed(Fault);
      }
      if ClashesWithStored(rules, d, docs, None) {
        return Failed(Duplicate);
      }
      r := Done((nextId, d));
      StoreKeepsUnique(rules, docs, nextId, d);
      docs := docs[nextId := d];
      nextId := nextId + 1;
    }

    /** `findOne({ _id })` / `findById(_id)`. */
    function Find(id: nat): (r: Option<Body>)
      reads this
      ensures r.Some? <==> id in docs
      ensures r.Some? ==> r.value == docs[id]
    {
      if id in docs then Some(docs[id]) else None
    }

    /** `findByIdAndUpdate(_id, body, { new: true, runValidators: true })`:
        the update is cast, then validated, both before the lookup, so an
        invalid update of a missing id fails as invalid. A failed cast is
        a CastError, not a ValidationError. The stored document takes the
        updated paths and keeps the others. */
    method Update(id: nat, body: Body, fault: bool) returns (r: Outcome<Option<Body>>)
      requires Valid()
      modifies this
      ensures Valid()
      ensures nextId == old(nextId)
      ensures var upd := CastUpdate(rules, body);
              var errs := UpdateErrors(rules, upd);
              if CastFails(rules, upd) then r == Failed(CastFailed) && docs == old(docs)
              else if errs != [] then r == Failed(Invalid(errs)) && docs == old(docs)
              else if fault then r == Failed(Fault) && docs == old(docs)
              else if id !in old(docs) then r == Done(None) && docs == old(docs)
              else
                var nd := old(docs)[id] + upd;
                if ClashesWithStored(rules, nd, old(docs), Some(id)) then r == Failed(Duplicate) && docs == old(docs)
                else r == Done(Some(nd)) && docs == old(docs)[id := nd]
    {
      var upd := CastUpdate(rules, body);
      if CastFails(rules, upd) {
        return Failed(CastFailed);
      }
      var errs := UpdateErrors(rules, upd);
      if errs != [] {
        return Failed(Invalid(errs));
      }
      if fault {
        return Failed(Fault);
      }
      if id !in docs {
        return Done(None);
      }
      var nd := docs[id] + upd;
      if ClashesWithStored(rules, nd, docs, Some(id)) {
        return Failed(Duplicate);
      }
      StoreKeepsUnique(rules, docs, id, nd);
      docs := docs[id := nd];
      r := Done(Some(nd));
    }

    /** `findByIdAndDelete(_id)`: the removed document, or None when there
        was none; every other document stays as it was. */
    method Delete(id: nat, fault: bool) returns (r: Outcome<Option<Body>>)
      requires Valid()
      modifies this
      ensures Valid()
      ensures nextId == old(nextId)
      ensures fault ==> r == Failed(Fault) && docs == old(docs)
      ensures !fault && id !in old(docs) ==> r == Done(None) && docs == old(docs)
      ensures !fault && id in old(docs) ==> r == Done(Some(old(docs)[id])) && docs == old(docs) - {id}
    {
      if fault {
        return Failed(Fault);
      }
      if id !in docs {
        return Done(None);
      }
      r := Done(Some(docs[id]));
      docs := docs - {id};
    }
  }
}
