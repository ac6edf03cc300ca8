/**
 * The simulation state registry (src/psim/core/state.cpp): state fields are
 * registered by name as readable or as writable, and a name is registered at
 * most once overall.
 */
module SimState {
  import opened Wrappers

  /** A registered state field, identified by the address it was registered
    * with; `name` and `typ` are what the field reports about itself. */
  datatype Field = Field(address: nat, name: string, typ: string)

  /** Which of the two maps a registration goes to. */
  datatype Access = Readable | Writable

  function AccessWord(a: Access): string {
    match a
    case Readable => "readable"
    case Writable => "writable"
  }

  /** The `runtime_error` text raised on a name collision. */
  function CollisionMessage(existing: Field, existingAccess: Access, added: Field, addedAccess: Access): string {
    "'" + existing.name + ":" + existing.typ + "' already registered as a " + AccessWord(existingAccess)
    + " field. Cannot add '" + added.name + ":" + added.typ + "' as a " + AccessWord(addedAccess) + " field"
  }

  function NotFoundMessage(name: string): string {
    "State field not found with name: " + name
  }

  /** The registry's invariant: every field is stored under its own name and
    * no name is both readable and writable. */
  ghost predicate Consistent(readable: map<string, Field>, writable: map<string, Field>) {
    (forall n :: n in readable ==> readable[n].name == n)
    && (forall n :: n in writable ==> writable[n].name == n)
    && (forall n :: n in readable ==> n !in writable)
  }

  /** What `get` finds: the readable map first, then the writable one. */
  function Lookup(readable: map<string, Field>, writable: map<string, Field>, name: string): Option<Field> {
    if name in readable then Some(readable[name])
    else if name in writable then Some(writable[name])
    else None
  }

  /** The outcome of a registration on the two maps, as values. */
  function Register(readable: map<string, Field>, writable: map<string, Field>, field: Field, access: Access)
    : (r: Result<(map<string, Field>, map<string, Field>), string>)
    ensures r.Ok? <==> field.name !in readable && field.name !in writable
    ensures r.Ok? && access == Readable ==> r.value == (readable[field.name := field], writable)
    ensures r.Ok? && access == Writable ==> r.value == (readable, writable[field.name := field])
  {
    if field.name in readable then Err(CollisionMessage(readable[field.name], Readable, field, access))
    else if field.name in writable then Err(CollisionMessage(writable[field.name], Writable, field, access))
    else if access == Readable then Ok((readable[field.name := field], writable))
    else Ok((readable, writable[field.name := field]))
  }

  /** A successful registration keeps the invariant, and afterwards the field
    * is found under its name; every other name finds what it found before. */
  lemma RegisterKeepsConsistent(readable: map<string, Field>, writable: map<string, Field>, field: Field, access: Access, other: string)
    requires Consistent(readable, writable)
    requires Register(readable, writable, field, access).Ok?
    ensures Consistent(Register(readable, writable, field, access).value.0, Register(readable, writable, field, access).value.1)
    ensures Lookup(Register(readable, writable, field, access).value.0, Register(readable, writable, field, access).value.1, field.name) == Some(field)
    ensures other != field.name ==>
      Lookup(Register(readable, writable, field, access).value.0, Register(readable, writable, field, access).value.1, other)
      == Lookup(readable, writable, other)
  {
  }

  /** Registering a name twice fails, whatever the access of either call,
    * and the error names the field registered first. */
  lemma SecondRegistrationFails(readable: map<string, Field>, writable: map<string, Field>, field: Field, access: Access, again: Field, againAccess: Access)
    requires Register(readable, writable, field, access).Ok?
    requires again.name == field.name
    ensures var (r, w) := Register(readable, writable, field, access).value;
      Register(r, w, again, againAccess) == Err(CollisionMessage(field, access, again, againAccess))
  {
  }

  class State {
    var readable: map<string, Field>
    var writable: map<string, Field>

    ghost predicate Valid()
      reads this
    {
      Consistent(readable, writable)
    }

    constructor()
      ensures Valid()
      ensures readable == map[] && writable == map[]
    {
      readable := map[];
      writable := map[];
    }

    /** `has`: registered under either access. */
    method Has(name: string) returns (b: bool)
      requires Valid()
      ensures b <==> Lookup(readable, writable, name).Some?
    {
      var w := HasWritable(name);
      b := w || name in readable;
    }

    /** `has_writable`: registered as writable. */
    method HasWritable(name: string) returns (b: bool)
      ensures b <==> name in writable
      ensures b ==> Lookup(readable, writable, name).Some?
    {
      b := name in writable;
    }

    /** `add_writable`: fails on any collision and leaves both maps unchanged;
      * otherwise registers the field as writable. */
    method AddWritable(field: Field) returns (r: Result<(), string>)
      requires Valid()
      modifies this
      ensures Valid()
      ensures r.Ok? <==> old(Register(readable, writable, field, Writable)).Ok?
      ensures r.Err? ==> (r.error == old(Register(readable, writable, field, Writable)).error
        && readable == old(readable) && writable == old(writable))
      ensures r.Ok? ==> (readable, writable) == old(Register(readable, writable, field, Writable)).value
    {
      if field.name in readable {
        return Err(CollisionMessage(readable[field.name], Readable, field, Writable));
      }
      if field.name in writable {
        return Err(CollisionMessage(writable[field.name], Writable, field, Writable));
      }
      writable := writable[field.name := field];
      r := Ok(());
    }

    /** `add`: fails on any collision and leaves both maps unchanged;
      * otherwise registers the field as readable. */
    method Add(field: Field) returns (r: Result<(), string>)
      requires Valid()
      modifies this
      ensures Valid()
      ensures r.Ok? <==> old(Register(readable, writable, field, Readable)).Ok?
      ensures r.Err? ==> (r.error == old(Register(readable, writable, field, Readable)).error
        && readable == old(readable) && writable == old(writable))
      ensures r.Ok? ==> (readable, writable) == old(Register(readable, writable, field, Readable)).value
    {
      if field.name in readable {
        return Err(CollisionMessage(readable[field.name], Readable, field, Readable));
      }
      if field.name in writable {
        return Err(CollisionMessage(writable[field.name], Writable, field, Readable));
      }
      readable := readable[field.name := field];
      r := Ok(());
    }

    /** `get_writable`: sees writable registrations only. */
    method GetWritable(name: string) returns (f: Option<Field>)
      ensures f.Some? <==> name in writable
      ensures f.Some? ==> f.value == writable[name]
    {
      if name in writable {
        f := Some(writable[name]);
      } else {
        f := None;
      }
    }

    /** `get`: the field registered under `name`, under either access. */
    method Get(name: string) returns (f: Option<Field>)
      requires Valid()
      ensures f == Lookup(readable, writable, name)
      ensures f.Some? ==> f.value.name == name
    {
      if name in readable {
        return Some(readable[name]);
      }
      if name in writable {
        return Some(writable[name]);
      }
      return None;
    }

    /** `operator[]`: like `get`, but a missing name is an error. */
    method At(name: string) returns (r: Result<Field, string>)
      requires Valid()
      ensures r.Err? <==> Lookup(readable, writable, name).None?
      ensures r.Ok? ==> r.value == Lookup(readable, writable, name).value && r.value.name == name
      ensures r.Err? ==> r.error == NotFoundMessage(name)
    {
      var f := Get(name);
      if f.None? {
        return Err(NotFoundMessage(name));
      }
      r := Ok(f.value);
    }
  }
}
