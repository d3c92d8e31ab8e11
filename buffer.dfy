/** The staging buffer: a byte vector split by a read cursor and a write cursor
    into prependable, readable and writable regions.

      0 <= CHEAP_PREPEND <= reader <= writer <= data.Length
*/
module NetBuffer {

  /** `kCheapPrepend`: room always kept in front of the readable bytes. */
  const CHEAP_PREPEND: nat := 8
  /** `kInitialSize`: the default writable size of a new buffer. */
  const INITIAL_SIZE: nat := 1024

  class Buffer {
    var data: array<char>
    var reader: nat
    var writer: nat

    /** The cursor invariant. */
    ghost predicate Valid()
      reads this
    {
      CHEAP_PREPEND <= reader <= writer <= data.Length
    }

    /** A buffer of `initialSize` writable bytes behind the prepend room. */
    constructor (initialSize: nat)
      ensures Valid() && fresh(data)
      ensures ReadableBytes() == 0 && PrependableBytes() == CHEAP_PREPEND
      ensures WritableBytes() == initialSize
    {
      data := new char[CHEAP_PREPEND + initialSize](_ => '\0');
      reader, writer := CHEAP_PREPEND, CHEAP_PREPEND;
    }

    /** `Buffer()`: the default argument `kInitialSize`. */
    constructor Default()
      ensures Valid() && fresh(data)
      ensures ReadableBytes() == 0 && PrependableBytes() == CHEAP_PREPEND
      ensures WritableBytes() == INITIAL_SIZE
    {
      data := new char[CHEAP_PREPEND + INITIAL_SIZE](_ => '\0');
      reader, writer := CHEAP_PREPEND, CHEAP_PREPEND;
    }

    function PrependableBytes(): nat
      reads this
    {
      reader
    }

    function ReadableBytes(): nat
      reads this
      requires Valid()
    {
      writer - reader
    }

    function WritableBytes(): nat
      reads this
      requires Valid()
    {
      data.Length - writer
    }

    /** `ToString()` (and `Str()`, its view): the readable bytes. */
    function ToString(): (s: seq<char>)
      reads this, data
      requires Valid()
      ensures |s| == ReadableBytes()
    {
      data[reader..writer]
    }

    /** `swap(rhs)`: exchanges storage and cursors with another buffer. */
    method Swap(rhs: Buffer)
      requires Valid() && rhs.Valid()
      modifies this, rhs
      ensures Valid() && rhs.Valid()
      ensures data == old(rhs.data) && reader == old(rhs.reader) && writer == old(rhs.writer)
      ensures rhs.data == old(data) && rhs.reader == old(reader) && rhs.writer == old(writer)
      ensures ToString() == old(rhs.ToString()) && rhs.ToString() == old(ToString())
    {
      var d, r, w := data, reader, writer;
      data, reader, writer := rhs.data, rhs.reader, rhs.writer;
      rhs.data, rhs.reader, rhs.writer := d, r, w;
    }

    /** `Retrive(len)`: consumes `len` bytes from the head; asking for all the
        readable bytes or more empties the buffer and resets both cursors. */
    method Retrive(len: nat)
      requires Valid()
      modifies this
      ensures Valid() && data == old(data)
      ensures if len < old(ReadableBytes())
              then reader == old(reader) + len && writer == old(writer)
              else reader == writer == CHEAP_PREPEND
      ensures ToString() == if len < old(ReadableBytes()) then old(ToString())[len..] else []
    {
      if len < ReadableBytes() {
        reader := reader + len;
      } else {
        RetriveAll();
      }
    }

    /** `RetriveAll()`: empties the buffer. */
    method RetriveAll()
      requires Valid()
      modifies this
      ensures Valid() && data == old(data)
      ensures reader == writer == CHEAP_PREPEND && ToString() == []
      ensures WritableBytes() == old(WritableBytes() + ReadableBytes() + PrependableBytes()) - CHEAP_PREPEND
    {
      reader := CHEAP_PREPEND;
      writer := CHEAP_PREPEND;
    }

    /** `Append(data, len)`: makes room, copies `s` behind the readable bytes and
        advances the write cursor. No byte is lost or duplicated. */
    method Append(s: seq<char>)
      requires Valid()
      modifies this, data
      ensures Valid()
      ensures ToString() == old(ToString()) + s
    {
      EnsureWritableBytes(|s|);
      CopyToWritable(s);
      HasWritten(|s|);
    }

    /** `std::copy(p, p + len, BeginWrite())`: writes `s` at the write cursor
        without moving it. */
    method CopyToWritable(s: seq<char>)
      requires Valid() && |s| <= WritableBytes()
      modifies data
      ensures ToString() == old(ToString())
      ensures data[writer..writer + |s|] == s
    {
      forall i | 0 <= i < |s| {
        data[writer + i] := s[i];
      }
      assert data[reader..writer] == old(data[reader..writer]);
    }

    /** `EnsureWritableBytes(len)`: afterwards at least `len` bytes are writable;
        the readable bytes are the same. */
    method EnsureWritableBytes(len: nat)
      requires Valid()
      modifies this, data
      ensures Valid() && WritableBytes() >= len
      ensures ToString() == old(ToString())
      ensures data == old(data) || fresh(data)
      ensures old(WritableBytes()) >= len ==>
                data == old(data) && reader == old(reader) && writer == old(writer)
    {
      if WritableBytes() < len {
        MakeSpace(len);
      }
      assert WritableBytes() >= len;
    }

    /** `HasWritten(len)`: the `len` bytes after the write cursor become readable. */
    method HasWritten(len: nat)
      requires Valid() && len <= WritableBytes()
      modifies this
      ensures Valid() && data == old(data)
      ensures reader == old(reader) && writer == old(writer) + len
      ensures ToString() == old(ToString()) + data[old(writer)..writer]
    {
      writer := writer + len;
    }

    /** `Unwrite(len)`: drops the last `len` readable bytes. */
    method Unwrite(len: nat)
      requires Valid() && len <= ReadableBytes()
      modifies this
      ensures Valid() && data == old(data)
      ensures reader == old(reader) && writer == old(writer) - len
      ensures ToString() == old(ToString())[..old(ReadableBytes()) - len]
    {
      writer := writer - len;
    }

    /** `MakeSpace(len)`, called when fewer than `len` bytes are writable. When the
        free room on both sides is too small the vector is resized to exactly
        `writer + len`; otherwise the readable bytes are moved down to the
        prepend boundary inside the same vector. */
    method MakeSpace(len: nat)
      requires Valid() && WritableBytes() < len
      modifies this, data
      ensures Valid() && WritableBytes() >= len
      ensures ToString() == old(ToString())
      ensures if old(WritableBytes() + PrependableBytes()) < len + CHEAP_PREPEND
              then fresh(data) && data.Length == old(writer) + len
                   && reader == old(reader) && writer == old(writer)
                   && data[..old(data.Length)] == old(data[..])
              else data == old(data) && old(reader) > CHEAP_PREPEND
                   && reader == CHEAP_PREPEND
    {
      if WritableBytes() + PrependableBytes() < len + CHEAP_PREPEND {
        var grown := new char[writer + len](_ => '\0');
        forall i | 0 <= i < data.Length {
          grown[i] := data[i];
        }
        data := grown;
      } else {
        assert CHEAP_PREPEND < reader;
        var readable := ReadableBytes();
        forall i | 0 <= i < readable {
          data[CHEAP_PREPEND + i] := data[reader + i];
        }
        reader := CHEAP_PREPEND;
        writer := reader + readable;
        assert readable == ReadableBytes();
      }
    }
  }
}
