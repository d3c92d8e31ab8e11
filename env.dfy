/** The process-wide environment: a registry of named service objects that
    holds one reference to each, and a string key/value store. */
module AppEnv {
  import opened Basics
  import opened Statuses

  /** A service object: the name it registers under and its reference count.
      `service_name()` may be a null C string, hence the option; a present
      name is the text before its terminating NUL. */
  class Object {
    const serviceName: Option<string>
    var refs: int

    constructor (name: Option<string>)
      ensures serviceName == name && refs == 1
    {
      serviceName := name;
      refs := 1;
    }

    method AddRefManually()
      modifies this
      ensures refs == old(refs) + 1
    {
      refs := refs + 1;
    }

    method Release()
      modifies this
      ensures refs == old(refs) - 1
    {
      refs := refs - 1;
    }
  }

  /** An `Object**` receiver. */
  class Slot {
    var obj: Object?

    constructor ()
      ensures obj == null
    {
      obj := null;
    }
  }

  /** A C string that is neither null nor empty. */
  predicate Named(name: Option<string>)
  {
    name.Some? && name.value != ""
  }

  /** The status `ObjectEnv::Insert(obj)` answers with, as an error state or
      `None` for OK. */
  function InsertOutcome(objs: map<string, Object>, obj: Object?): (e: Option<ErrorState>)
    ensures e.None? <==> obj != null && Named(obj.serviceName) && obj.serviceName.value !in objs
    ensures obj == null || !Named(obj.serviceName) ==> e.Some? && e.value.code == InvalidArgument
    ensures obj != null && Named(obj.serviceName) && obj.serviceName.value in objs ==>
              e == Some(ErrorRecord(AlreadyExists, obj.serviceName.value))
  {
    if obj == null then Some(ErrorRecord(InvalidArgument, "no service"))
    else if !Named(obj.serviceName) then Some(ErrorRecord(InvalidArgument, "no name"))
    else if obj.serviceName.value in objs then
      Some(ErrorRecord(AlreadyExists, obj.serviceName.value))
    else None
  }

  /** The status `ObjectEnv::Remove(obj)` answers with. */
  function RemoveOutcome(objs: map<string, Object>, obj: Object?): (e: Option<ErrorState>)
    ensures e.None? <==>
              obj != null && Named(obj.serviceName) && obj.serviceName.value in objs
              && objs[obj.serviceName.value] == obj
    ensures obj == null || !Named(obj.serviceName) ==> e.Some? && e.value.code == InvalidArgument
    ensures obj != null && Named(obj.serviceName) && obj.serviceName.value !in objs ==>
              e == Some(ErrorRecord(NotFound, obj.serviceName.value))
    ensures obj != null && Named(obj.serviceName) && obj.serviceName.value in objs
            && objs[obj.serviceName.value] != obj ==>
              e.Some? && e.value.code == Unknown
  {
    if obj == null then Some(ErrorRecord(InvalidArgument, "no service"))
    else if !Named(obj.serviceName) then Some(ErrorRecord(InvalidArgument, "no name"))
    else if obj.serviceName.value !in objs then Some(ErrorRecord(NotFound, obj.serviceName.value))
    else if objs[obj.serviceName.value] != obj then
      Some(ErrorRecord(Unknown, "same name, but service object different"))
    else None
  }

  /** The status `ObjectEnv::Get(name, pobj)` answers with. */
  function GetOutcome(objs: map<string, Object>, name: Option<string>, receiver: Slot?): (e: Option<ErrorState>)
    ensures e.None? <==> Named(name) && receiver != null && name.value in objs
    ensures !Named(name) || receiver == null ==> e.Some? && e.value.code == InvalidArgument
    ensures Named(name) && receiver != null && name.value !in objs ==>
              e == Some(ErrorRecord(NotFound, name.value))
  {
    if !Named(name) then Some(ErrorRecord(InvalidArgument, "no name"))
    else if receiver == null then Some(ErrorRecord(InvalidArgument, "no receiver"))
    else if name.value !in objs then Some(ErrorRecord(NotFound, name.value))
    else None
  }

  /** Inserting then removing the same object restores the registry. */
  lemma InsertThenRemove(objs: map<string, Object>, obj: Object)
    requires InsertOutcome(objs, obj).None?
    ensures var after := objs[obj.serviceName.value := obj];
            RemoveOutcome(after, obj).None? && after - {obj.serviceName.value} == objs
  {
    var after := objs[obj.serviceName.value := obj];
    assert after - {obj.serviceName.value} == objs;
  }

  class ObjectEnv {
    var objs: map<string, Object>

    /** Every object is registered under its own service name. */
    ghost predicate Valid()
      reads this
    {
      forall name :: name in objs ==> objs[name].serviceName == Some(name)
    }

    constructor ()
      ensures Valid() && objs == map[]
    {
      objs := map[];
    }

    /** `Insert(obj)`: registers `obj` under its name and takes a reference;
        on any error nothing changes. */
    method Insert(obj: Object?) returns (st: Status)
      requires Valid()
      modifies this, obj
      ensures Valid() && fresh(st) && st.state == InsertOutcome(old(objs), obj)
      ensures st.state.None? ==>
                objs == old(objs)[obj.serviceName.value := obj] && obj.refs == old(obj.refs) + 1
      ensures st.state.Some? ==> objs == old(objs) && (obj != null ==> obj.refs == old(obj.refs))
    {
      if obj == null {
        st := new Status.Error(InvalidArgument, "no service");
        return;
      }
      var name := obj.serviceName;
      if !Named(name) {
        st := new Status.Error(InvalidArgument, "no name");
        return;
      }
      if name.value in objs {
        st := new Status.Error(AlreadyExists, name.value);
        return;
      }
      obj.AddRefManually();
      objs := objs[name.value := obj];
      st := OkStatus();
    }

    /** `Remove(obj)`: unregisters `obj` and drops the registry's reference,
        only when `obj` itself is registered under its name. */
    method Remove(obj: Object?) returns (st: Status)
      requires Valid()
      modifies this, obj
      ensures Valid() && fresh(st) && st.state == RemoveOutcome(old(objs), obj)
      ensures st.state.None? ==>
                objs == old(objs) - {obj.serviceName.value} && obj.refs == old(obj.refs) - 1
      ensures st.state.Some? ==> objs == old(objs) && (obj != null ==> obj.refs == old(obj.refs))
    {
      if obj == null {
        st := new Status.Error(InvalidArgument, "no service");
        return;
      }
      var name := obj.serviceName;
      if !Named(name) {
        st := new Status.Error(InvalidArgument, "no name");
        return;
      }
      if name.value !in objs {
        st := new Status.Error(NotFound, name.value);
        return;
      }
      if objs[name.value] != obj {
        st := new Status.Error(Unknown, "same name, but service object different");
        return;
      }
      objs := objs - {name.value};
      obj.Release();
      st := OkStatus();
    }

    /** `Get(name, pobj)`: hands out the registered object with a new
        reference; the registry itself is unchanged. */
    method Get(name: Option<string>, receiver: Slot?) returns (st: Status)
      modifies receiver, objs.Values
      ensures fresh(st) && st.state == GetOutcome(objs, name, receiver)
      ensures objs == old(objs)
      ensures st.state.None? ==>
                receiver.obj == objs[name.value] && receiver.obj.refs == old(objs[name.value].refs) + 1
      ensures st.state.Some? ==> receiver != null ==> receiver.obj == old(receiver.obj)
      ensures forall o :: o in objs.Values && (st.state.Some? || o != objs[name.value]) ==>
                o.refs == old(o.refs)
    {
      if !Named(name) {
        st := new Status.Error(InvalidArgument, "no name");
        return;
      }
      if receiver == null {
        st := new Status.Error(InvalidArgument, "no receiver");
        return;
      }
      if name.value !in objs {
        st := new Status.Error(NotFound, name.value);
        return;
      }
      var obj := objs[name.value];
      obj.AddRefManually();
      receiver.obj := obj;
      st := OkStatus();
    }
  }

  /** A null value is stored as the empty string. */
  function ValueOrEmpty(value: Option<string>): (s: string)
    ensures value.Some? ==> s == value.value
    ensures value.None? ==> s == ""
  {
    if value.Some? then value.value else ""
  }

  /** The store after `StringEnv::Insert(key, value)`. */
  function Stored(ss: map<string, string>, key: Option<string>, value: Option<string>): map<string, string>
  {
    if Named(key) then ss[key.value := ValueOrEmpty(value)] else ss
  }

  /** The store after `StringEnv::Remove(key)`. */
  function Erased(ss: map<string, string>, key: Option<string>): map<string, string>
  {
    if Named(key) then ss - {key.value} else ss
  }

  /** What `StringEnv::Get(key)` answers. */
  function Lookup(ss: map<string, string>, key: Option<string>): string
  {
    if Named(key) && key.value in ss then ss[key.value] else ""
  }

  /** Reading a key after storing it gives the stored value (a null value
      reads as ""); unusable keys store nothing. */
  lemma StoredThenLookup(ss: map<string, string>, key: Option<string>, value: Option<string>)
    ensures Named(key) ==> Lookup(Stored(ss, key, value), key) == ValueOrEmpty(value)
    ensures !Named(key) ==> Stored(ss, key, value) == ss && Lookup(ss, key) == ""
  {
  }

  /** Reading a key after removing it gives "". */
  lemma ErasedThenLookup(ss: map<string, string>, key: Option<string>)
    ensures Lookup(Erased(ss, key), key) == ""
  {
  }

  /** Storing or removing one key leaves every other key's value alone. */
  lemma OtherKeysUntouched(ss: map<string, string>, key: Option<string>, value: Option<string>, other: Option<string>)
    requires other != key
    ensures Lookup(Stored(ss, key, value), other) == Lookup(ss, other)
    ensures Lookup(Erased(ss, key), other) == Lookup(ss, other)
  {
  }

  class StringEnv {
    var ss: map<string, string>

    constructor ()
      ensures ss == map[]
    {
      ss := map[];
    }

    /** `Insert(key, value)` */
    method Insert(key: Option<string>, value: Option<string>)
      modifies this
      ensures ss == Stored(old(ss), key, value)
    {
      if Named(key) {
        ss := ss[key.value := ValueOrEmpty(value)];
      }
    }

    /** `Remove(key)` */
    method Remove(key: Option<string>)
      modifies this
      ensures ss == Erased(old(ss), key)
    {
      if Named(key) {
        ss := ss - {key.value};
      }
    }

    /** `Get(key)` */
    method Get(key: Option<string>) returns (value: string)
      ensures value == Lookup(ss, key)
    {
      if Named(key) {
        if key.value in ss {
          return ss[key.value];
        }
      }
      return "";
    }
  }

  /** `GlobalEnvImpl`: one object registry and one string store, to which
      every operation is handed on unchanged. */
  class GlobalEnv {
    const objEnv: ObjectEnv
    const strEnv: StringEnv

    ghost predicate Valid()
      reads this, objEnv
    {
      objEnv.Valid()
    }

    /** `GlobalEnv::New()` */
    constructor ()
      ensures Valid() && fresh(objEnv) && fresh(strEnv)
      ensures objEnv.objs == map[] && strEnv.ss == map[]
    {
      objEnv := new ObjectEnv();
      strEnv := new StringEnv();
    }

    method InsertObject(obj: Object?) returns (st: Status)
      requires Valid()
      modifies objEnv, obj
      ensures Valid() && fresh(st) && st.state == InsertOutcome(old(objEnv.objs), obj)
      ensures st.state.None? ==>
                objEnv.objs == old(objEnv.objs)[obj.serviceName.value := obj] && obj.refs == old(obj.refs) + 1
      ensures st.state.Some? ==>
                objEnv.objs == old(objEnv.objs) && (obj != null ==> obj.refs == old(obj.refs))
    {
      st := objEnv.Insert(obj);
    }

    method RemoveObject(obj: Object?) returns (st: Status)
      requires Valid()
      modifies objEnv, obj
      ensures Valid() && fresh(st) && st.state == RemoveOutcome(old(objEnv.objs), obj)
      ensures st.state.None? ==>
                objEnv.objs == old(objEnv.objs) - {obj.serviceName.value} && obj.refs == old(obj.refs) - 1
      ensures st.state.Some? ==>
                objEnv.objs == old(objEnv.objs) && (obj != null ==> obj.refs == old(obj.refs))
    {
      st := objEnv.Remove(obj);
    }

    method GetObject(name: Option<string>, receiver: Slot?) returns (st: Status)
      modifies receiver, objEnv.objs.Values
      ensures fresh(st) && st.state == GetOutcome(objEnv.objs, name, receiver)
      ensures objEnv.objs == old(objEnv.objs)
      ensures st.state.None? ==>
                receiver.obj == objEnv.objs[name.value]
                && receiver.obj.refs == old(objEnv.objs[name.value].refs) + 1
      ensures st.state.Some? ==> receiver != null ==> receiver.obj == old(receiver.obj)
      ensures forall o :: o in objEnv.objs.Values && (st.state.Some? || o != objEnv.objs[name.value]) ==>
                o.refs == old(o.refs)
    {
      st := objEnv.Get(name, receiver);
    }

    method InsertString(key: Option<string>, value: Option<string>)
      modifies strEnv
      ensures strEnv.ss == Stored(old(strEnv.ss), key, value)
    {
      strEnv.Insert(key, value);
    }

    method RemoveString(key: Option<string>)
      modifies strEnv
      ensures strEnv.ss == Erased(old(strEnv.ss), key)
    {
      strEnv.Remove(key);
    }

    method GetString(key: Option<string>) returns (value: string)
      ensures value == Lookup(strEnv.ss, key)
    {
      value := strEnv.Get(key);
    }
  }
}
