/** A bus message: a 32-bit correlation id, a method name and a string-to-string
    payload. */
module BusMsg {

  /** `Msg::Id`, a `uint32_t`. */
  type MsgId = x: int | 0 <= x < 0x1_0000_0000

  /** The value of a message, as the codec produces it. */
  datatype MsgFields = MsgFields(id: MsgId, methodName: string, values: map<string, string>)

  class Msg {
    var id: MsgId
    var methodName: string
    var values: map<string, string>

    /** `Msg()`: id 0, no method, no payload. */
    constructor ()
      ensures Id() == 0 && Method() == "" && Data() == map[]
    {
      id, methodName, values := 0, "", map[];
    }

    /** `Msg(id)` */
    constructor WithId(id: MsgId)
      ensures Id() == id && Method() == "" && Data() == map[]
    {
      this.id, methodName, values := id, "", map[];
    }

    function Id(): MsgId
      reads this
    {
      id
    }

    function Method(): string
      reads this
    {
      methodName
    }

    /** `data()`: the payload map itself. */
    function Data(): map<string, string>
      reads this
    {
      values
    }

    function Fields(): MsgFields
      reads this
    {
      MsgFields(id, methodName, values)
    }

    /** `set_id(id)`: only the id changes. */
    method SetId(x: MsgId)
      modifies this
      ensures Id() == x && Method() == old(Method()) && Data() == old(Data())
    {
      id := x;
    }

    /** `set_method(m)`: only the method changes. */
    method SetMethod(m: string)
      modifies this
      ensures Method() == m && Id() == old(Id()) && Data() == old(Data())
    {
      methodName := m;
    }

    /** `Has(key)`: the payload has an entry for `key`. */
    predicate Has(key: string)
      reads this
      ensures Has(key) <==> key in Data()
    {
      key in values
    }

    /** `Set(key, value)`: inserts or overwrites one payload entry. */
    method Set(key: string, value: string)
      modifies this
      ensures Has(key) && Get(key) == value
      ensures Data() == old(Data())[key := value]
      ensures Id() == old(Id()) && Method() == old(Method())
      ensures forall k :: k != key ==> (Has(k) <==> old(Has(k))) && Get(k) == old(Get(k))
    {
      values := values[key := value];
    }

    /** `Get(key)`: the payload value for `key`, "" when there is none. */
    function Get(key: string): (v: string)
      reads this
      ensures Has(key) ==> v == Data()[key]
      ensures !Has(key) ==> v == ""
    {
      if key in values then values[key] else ""
    }
  }
}
